/** The answer pattern of a guessing round. Each name becomes a sequence of
    pattern elements: a literal character, or "any one character or none"
    (the regular expression `.?`); the names are alternatives, and a guess
    is accepted when some alternative matches at its start. */
module NamePattern {
  import opened Text

  datatype Elem = Lit(c: char) | AnyOpt

  /** The two pattern builders: the current engines' (utils/engines/_base.py)
      and the legacy one (games/utils.py). */
  datatype Builder = Current | Legacy

  /** The CJK and full-width marks of both punctuation lists. */
  predicate IsCjkPunctuation(c: char) {
    ('\U{ff02}' <= c <= '\U{ff0d}') || c == '\U{ff0f}' || ('\U{ff1a}' <= c <= '\U{ff1e}') || c == '\U{ff20}'
    || ('\U{ff3b}' <= c <= '\U{ff40}') || ('\U{ff5b}' <= c <= '\U{ff60}') || ('\U{ff62}' <= c <= '\U{ff64}')
    || ('\U{3000}' <= c <= '\U{3001}') || c == '\U{3003}' || ('\U{3008}' <= c <= '\U{3011}')
    || ('\U{3014}' <= c <= '\U{301f}') || c == '\U{3030}' || ('\U{303e}' <= c <= '\U{303f}')
    || ('\U{2013}' <= c <= '\U{2014}') || ('\U{2018}' <= c <= '\U{2019}') || ('\U{201b}' <= c <= '\U{201f}')
    || ('\U{2026}' <= c <= '\U{2027}') || c == '\U{fe4f}' || c == '\U{fe51}' || c == '\U{fe54}'
    || c == '\U{b7}' || c == '\U{ff01}' || c == '\U{ff1f}' || c == '\U{ff61}' || c == '\U{3002}'
  }

  /** The 32 ASCII punctuation characters, from '!' to '~'. */
  predicate IsAsciiPunctuation(c: char) {
    ('!' <= c <= '/') || (':' <= c <= '@') || ('[' <= c <= '`') || ('{' <= c <= '~')
  }

  /** `PUNCTUATION`: CJK marks, the Japanese middle dot and ASCII punctuation. */
  predicate IsPunctuation(c: char) {
    IsCjkPunctuation(c) || c == '\U{30fb}' || IsAsciiPunctuation(c)
  }

  /** The characters a builder turns into optional-any. The current builder
      uses `IGNORED_CHARS_IN_NAME`: punctuation plus the ideographic space,
      '的', the space, 'á', 'é', 'ö' and '★'. The legacy builder uses the
      CJK marks only. */
  predicate Ignorable(b: Builder, c: char) {
    match b
    case Current =>
      IsPunctuation(c) || c == '\U{3000}' || c == '\U{7684}' || c == ' '
      || c == '\U{e1}' || c == '\U{e9}' || c == '\U{f6}' || c == '\U{2605}'
    case Legacy => IsCjkPunctuation(c)
  }

  /** The characters a regular expression gives a meaning of their own. */
  const RegexMeta: string := ".^$*+?{}[]\\|()"

  function ElemOf(c: char, b: Builder): Elem {
    if Ignorable(b, c) then AnyOpt else Lit(c)
  }

  function ElemsOf(s: string, b: Builder): (p: seq<Elem>)
    ensures |p| == |s|
    ensures forall k :: 0 <= k < |s| ==> p[k] == ElemOf(s[k], b)
  {
    seq(|s|, k requires 0 <= k < |s| => ElemOf(s[k], b))
  }

  /** One alternative of `get_std_card_names_pattern`: the stripped name with
      every ignorable character made optional-any. */
  function NameElems(name: string): seq<Elem> {
    ElemsOf(Strip(name), Current)
  }

  /** The alternatives of the compiled pattern. Joining no names gives the
      empty pattern, which is one empty alternative. */
  function CardPattern(names: seq<string>): (p: seq<seq<Elem>>)
    ensures |p| >= 1
  {
    if |names| == 0 then [[]] else seq(|names|, k requires 0 <= k < |names| => NameElems(names[k]))
  }

  /** Character comparison, case-insensitive on ASCII letters when `fold`. */
  predicate SameChar(a: char, b: char, fold: bool) {
    if fold then LowerChar(a) == LowerChar(b) else a == b
  }

  /** `re.match` of one alternative: it matches some prefix of `s`. `.` does not match a newline. */
  predicate MatchPrefix(p: seq<Elem>, s: string, fold: bool)
    decreases |p|
  {
    if |p| == 0 then true
    else match p[0]
      case Lit(c) => |s| > 0 && SameChar(s[0], c, fold) && MatchPrefix(p[1..], s[1..], fold)
      case AnyOpt => (|s| > 0 && s[0] != '\n' && MatchPrefix(p[1..], s[1..], fold)) || MatchPrefix(p[1..], s, fold)
  }

  /** The guess check of a round: some alternative matches at the start of the
      guess, ignoring ASCII case. */
  predicate GuessMatches(names: seq<string>, guess: string) {
    var p := CardPattern(names);
    exists k :: 0 <= k < |p| && MatchPrefix(p[k], guess, true)
  }

  /** Text written after a matching prefix does not matter. */
  lemma {:induction false} MatchExtends(p: seq<Elem>, s: string, t: string, fold: bool)
    requires MatchPrefix(p, s, fold)
    ensures MatchPrefix(p, s + t, fold)
    decreases |p|
  {
    if |p| > 0 {
      if |s| > 0 {
        assert (s + t)[1..] == s[1..] + t;
      }
      match p[0]
      case Lit(c) =>
        MatchExtends(p[1..], s[1..], t, fold);
      case AnyOpt =>
        if |s| > 0 && s[0] != '\n' && MatchPrefix(p[1..], s[1..], fold) {
          MatchExtends(p[1..], s[1..], t, fold);
        } else {
          MatchExtends(p[1..], s, t, fold);
        }
    }
  }

  /** With case folding, the guess and its lower-case form are accepted alike. */
  lemma {:induction false} MatchCaseless(p: seq<Elem>, s: string)
    ensures MatchPrefix(p, s, true) <==> MatchPrefix(p, Lower(s), true)
    decreases |p|
  {
    if |p| > 0 {
      if |s| > 0 {
        assert Lower(s)[1..] == Lower(s[1..]);
        MatchCaseless(p[1..], s[1..]);
      }
      MatchCaseless(p[1..], s);
    }
  }

  /** A name written out in full matches its own pattern. */
  lemma {:induction false} MatchSelf(s: string, b: Builder, rest: string, fold: bool)
    requires !Ignorable(b, '\n')
    ensures MatchPrefix(ElemsOf(s, b), s + rest, fold)
    decreases |s|
  {
    if |s| > 0 {
      assert ElemsOf(s, b)[1..] == ElemsOf(s[1..], b);
      assert (s + rest)[1..] == s[1..] + rest;
      MatchSelf(s[1..], b, rest, fold);
    }
  }

  /** `s` with every character the builder ignores deleted. */
  function WithoutIgnored(s: string, b: Builder): string
    decreases |s|
  {
    if |s| == 0 then ""
    else if Ignorable(b, s[0]) then WithoutIgnored(s[1..], b)
    else [s[0]] + WithoutIgnored(s[1..], b)
  }

  /** A name typed without its punctuation and spaces still matches. */
  lemma {:induction false} MatchWithoutIgnored(s: string, b: Builder, rest: string, fold: bool)
    ensures MatchPrefix(ElemsOf(s, b), WithoutIgnored(s, b) + rest, fold)
    decreases |s|
  {
    if |s| > 0 {
      assert ElemsOf(s, b)[1..] == ElemsOf(s[1..], b);
      MatchWithoutIgnored(s[1..], b, rest, fold);
      if !Ignorable(b, s[0]) {
        assert ([s[0]] + WithoutIgnored(s[1..], b) + rest)[1..] == WithoutIgnored(s[1..], b) + rest;
      }
    }
  }

  /** A guess that one name's alternative matches wins. */
  lemma {:induction false} AlternativeWins(names: seq<string>, k: nat, guess: string)
    requires k < |names| && MatchPrefix(NameElems(names[k]), guess, true)
    ensures GuessMatches(names, guess)
  {
    assert CardPattern(names)[k] == NameElems(names[k]);
  }

  /** The card's name, typed in full or without its punctuation and spaces,
      followed by anything, wins the round. */
  lemma {:induction false} NameIsAccepted(names: seq<string>, k: nat, rest: string)
    requires k < |names|
    ensures GuessMatches(names, Strip(names[k]) + rest)
    ensures GuessMatches(names, WithoutIgnored(Strip(names[k]), Current) + rest)
  {
    var p := CardPattern(names);
    assert p[k] == NameElems(names[k]);
    MatchSelf(Strip(names[k]), Current, rest, true);
    MatchWithoutIgnored(Strip(names[k]), Current, rest, true);
  }

  /** A card whose name is blank (or that has no names) accepts every guess. */
  lemma BlankNameAcceptsAll(names: seq<string>, guess: string)
    requires |names| == 0 || Strip(names[0]) == ""
    ensures GuessMatches(names, guess)
  {
    var p := CardPattern(names);
    assert MatchPrefix(p[0], guess, true);
  }

  /** No literal of a name pattern is a regular-expression metacharacter, so
      the pattern text means exactly the element sequence. */
  lemma NoMetaSurvives(name: string)
    ensures forall k :: 0 <= k < |NameElems(name)| && NameElems(name)[k].Lit? ==> NameElems(name)[k].c !in RegexMeta
  {
  }

  /** Regular-expression text of one alternative: a literal stands for itself, optional-any is ".?". */
  function Render(p: seq<Elem>): string
    decreases |p|
  {
    if |p| == 0 then ""
    else (match p[0] case Lit(c) => [c] case AnyOpt => ".?") + Render(p[1..])
  }

  /** Reads pattern text back into elements. */
  function Parse(s: string): seq<Elem>
    decreases |s|
  {
    if |s| >= 2 && s[..2] == ".?" then [AnyOpt] + Parse(s[2..])
    else if |s| >= 1 then [Lit(s[0])] + Parse(s[1..])
    else []
  }

  /** Pattern text reads back as the elements it was written from, as long as
      no literal is a '.'. */
  lemma {:induction false} ParseRender(p: seq<Elem>)
    requires forall k :: 0 <= k < |p| ==> p[k] != Lit('.')
    ensures Parse(Render(p)) == p
    decreases |p|
  {
    if |p| > 0 {
      ParseRender(p[1..]);
      var s := Render(p);
      match p[0]
      case AnyOpt =>
        assert s == ".?" + Render(p[1..]);
        assert s[..2] == ".?" && s[2..] == Render(p[1..]);
        assert Parse(s) == [AnyOpt] + Parse(s[2..]);
      case Lit(c) =>
        assert s == [c] + Render(p[1..]);
        assert s[0] == c != '.';
        assert s[1..] == Render(p[1..]);
        assert Parse(s) == [Lit(c)] + Parse(s[1..]);
    }
  }

  /** The compiled regular expression of a card: alternatives joined with '|'. */
  function PatternSource(names: seq<string>): string {
    Join(seq(|names|, k requires 0 <= k < |names| => Render(NameElems(names[k]))), "|")
  }

  /** Each alternative's text reads back as the element sequence that defines its meaning. */
  lemma NameTextFaithful(name: string)
    ensures Parse(Render(NameElems(name))) == NameElems(name)
  {
    NoMetaSurvives(name);
    ParseRender(NameElems(name));
  }

  /** The characters of `s` whose flag in `keep` is set. */
  function Select(s: string, keep: seq<bool>): (r: string)
    requires |keep| == |s|
    ensures |r| <= |s|
    decreases |s|
  {
    if |s| == 0 then "" else (if keep[0] then [s[0]] else "") + Select(s[1..], keep[1..])
  }

  function AllSet(n: nat): (keep: seq<bool>)
    ensures |keep| == n && forall k :: 0 <= k < n ==> keep[k]
  {
    seq(n, _ => true)
  }

  /** Keeping every character keeps the string. */
  lemma {:induction false} SelectAll(s: string)
    ensures Select(s, AllSet(|s|)) == s
    decreases |s|
  {
    if |s| > 0 {
      assert AllSet(|s|)[1..] == AllSet(|s| - 1);
      SelectAll(s[1..]);
    }
  }

  lemma {:induction false} SelectAppend(s: string, keep: seq<bool>, t: string, keep': seq<bool>)
    requires |keep| == |s| && |keep'| == |t|
    ensures Select(s + t, keep + keep') == Select(s, keep) + Select(t, keep')
    decreases |s|
  {
    if |s| > 0 {
      assert (s + t)[1..] == s[1..] + t;
      assert (keep + keep')[1..] == keep[1..] + keep';
      assert (s + t)[0] == s[0] && (keep + keep')[0] == keep[0];
      SelectAppend(s[1..], keep[1..], t, keep');
      assert Select(s + t, keep + keep') == (if keep[0] then [s[0]] else "") + Select(s[1..] + t, keep[1..] + keep');
    } else {
      assert s + t == t && keep + keep' == keep';
    }
  }

  /** Typing a name with any choice of its ignorable characters left out still
      matches, whatever follows. */
  lemma {:induction false} MatchDropping(s: string, b: Builder, keep: seq<bool>, rest: string, fold: bool)
    requires |keep| == |s|
    requires forall k :: 0 <= k < |s| && !keep[k] ==> Ignorable(b, s[k])
    requires !Ignorable(b, '\n')
    ensures MatchPrefix(ElemsOf(s, b), Select(s, keep) + rest, fold)
    decreases |s|
  {
    if |s| > 0 {
      assert ElemsOf(s, b)[1..] == ElemsOf(s[1..], b);
      MatchDropping(s[1..], b, keep[1..], rest, fold);
      var tail := Select(s[1..], keep[1..]) + rest;
      if keep[0] {
        assert Select(s, keep) + rest == [s[0]] + tail;
        assert ([s[0]] + tail)[1..] == tail;
        if Ignorable(b, s[0]) {
          assert s[0] != '\n';
        }
      } else {
        assert Select(s, keep) + rest == tail;
      }
    }
  }

  /** A fully kept prefix passes through `Select` unchanged. */
  lemma SelectKeptPrefix(w: string, s: string, keep: seq<bool>)
    requires |s| == |keep|
    ensures Select(w + s, AllSet(|w|) + keep) == w + Select(s, keep)
  {
    SelectAll(w);
    SelectAppend(w, AllSet(|w|), s, keep);
  }

  lemma SelectBang(w: string)
    ensures Select(w + "!", AllSet(|w|) + [false]) == w
  {
    SelectKeptPrefix(w, "!", [false]);
    assert Select("!", [false]) == "";
  }

  lemma SelectComma(s: string, keep: seq<bool>, spaced: bool)
    requires |s| == |keep|
    ensures Select(", " + s, [false, spaced] + keep) == (if spaced then " " else "") + Select(s, keep)
  {
    var t := ", " + s;
    var k := [false, spaced] + keep;
    assert t[1..][1..] == s && k[1..][1..] == keep;
  }

  /** Dropping the comma of "<w1>, <w2>!" (and the space unless `spaced`) and the '!'. */
  lemma SelectTwoWords(w1: string, w2: string, spaced: bool)
    ensures Select(w1 + (", " + (w2 + "!")), AllSet(|w1|) + ([false, spaced] + (AllSet(|w2|) + [false])))
      == w1 + ((if spaced then " " else "") + w2)
  {
    var mid: string := if spaced then " " else "";
    var t2, k2 := w2 + "!", AllSet(|w2|) + [false];
    SelectBang(w2);
    assert Select(t2, k2) == w2;
    var t1, k1 := ", " + t2, [false, spaced] + k2;
    SelectComma(t2, k2, spaced);
    assert Select(t1, k1) == mid + w2;
    SelectKeptPrefix(w1, t1, k1);
  }

  /** Any way of typing a card's name that leaves out some of its ignorable
      characters, followed by anything, wins the round. */
  lemma {:induction false} NameWithDropsAccepted(names: seq<string>, k: nat, keep: seq<bool>, rest: string)
    requires k < |names| && |keep| == |Strip(names[k])|
    requires forall j :: 0 <= j < |keep| && !keep[j] ==> Ignorable(Current, Strip(names[k])[j])
    ensures GuessMatches(names, Select(Strip(names[k]), keep) + rest)
  {
    var s := Strip(names[k]);
    assert !Ignorable(Current, '\n');
    assert forall j :: 0 <= j < |s| && !keep[j] ==> Ignorable(Current, s[j]);
    MatchDropping(s, Current, keep, rest, true);
    AlternativeWins(names, k, Select(s, keep) + rest);
  }

  lemma {:induction false} FireDragonTyped(n: string, w1: string, w2: string, spaced: bool)
    requires n == "Fire, Dragon!" && w1 == "Fire" && w2 == "Dragon"
    ensures MatchPrefix(ElemsOf(n, Current), w1 + ((if spaced then " " else "") + w2), true)
  {
    var keep := AllSet(|w1|) + ([false, spaced] + (AllSet(|w2|) + [false]));
    assert n == w1 + (", " + (w2 + "!"));
    SelectTwoWords(w1, w2, spaced);
    assert forall k :: 0 <= k < |n| && !keep[k] ==> Ignorable(Current, n[k]) by {
      assert forall k :: 0 <= k < |n| && !keep[k] ==> k == 4 || k == 5 || k == 12;
      assert n[4] == ',' && n[5] == ' ' && n[12] == '!';
    }
    MatchDropping(n, Current, keep, "", true);
    assert Select(n, keep) + "" == Select(n, keep);
  }

  lemma {:induction false} FireDragonLower(n: string, spaced: string, lower: string)
    requires n == "Fire, Dragon!" && spaced == "Fire Dragon" && lower == "fire dragon"
    requires MatchPrefix(ElemsOf(n, Current), spaced, true)
    ensures MatchPrefix(ElemsOf(n, Current), lower, true)
  {
    var e := ElemsOf(n, Current);
    MatchCaseless(e, spaced);
    MatchCaseless(e, lower);
    assert Lower(spaced) == lower == Lower(lower);
  }

  lemma {:induction false} FireDragonOther(n: string, other: string)
    requires n == "Fire, Dragon!" && other == "Water Dragon"
    ensures !MatchPrefix(ElemsOf(n, Current), other, true)
  {
    assert n[0] == 'F';
    assert ElemsOf(n, Current)[0] == Lit('F');
  }

  lemma {:induction false} FireDragonGuesses(n: string, spaced: string, joined: string, lower: string, other: string)
    requires n == "Fire, Dragon!" && spaced == "Fire Dragon" && joined == "FireDragon"
    requires lower == "fire dragon" && other == "Water Dragon"
    ensures var e := ElemsOf(n, Current);
      MatchPrefix(e, spaced, true) && MatchPrefix(e, joined, true) && MatchPrefix(e, lower, true)
      && !MatchPrefix(e, other, true)
  {
    FireDragonTyped(n, "Fire", "Dragon", true);
    FireDragonTyped(n, "Fire", "Dragon", false);
    assert "Fire" + (" " + "Dragon") == spaced && "Fire" + ("" + "Dragon") == joined;
    FireDragonLower(n, spaced, lower);
    FireDragonOther(n, other);
  }

  /** The card named "Fire, Dragon!" is won by "Fire Dragon", "FireDragon" and
      "fire dragon", and not by "Water Dragon". */
  lemma {:induction false} FireDragon(n: string, spaced: string, joined: string, lower: string, other: string)
    requires n == "Fire, Dragon!" && spaced == "Fire Dragon" && joined == "FireDragon"
    requires lower == "fire dragon" && other == "Water Dragon"
    ensures GuessMatches([n], spaced) && GuessMatches([n], joined) && GuessMatches([n], lower)
    ensures !GuessMatches([n], other)
  {
    StripTrimmed(n);
    var e := ElemsOf(n, Current);
    assert CardPattern([n]) == [e];
    FireDragonGuesses(n, spaced, joined, lower, other);
  }

  /** One name of `get_name_match_pattern` in games/utils.py: every CJK mark
      replaced by ".?", everything else, ASCII punctuation and spaces included,
      kept as is; the name is not stripped. */
  function LegacyReplace(name: string): (r: string)
    ensures |r| >= |name|
    decreases |name|
  {
    if |name| == 0 then ""
    else (if IsCjkPunctuation(name[0]) then ".?" else [name[0]]) + LegacyReplace(name[1..])
  }

  /** The legacy pattern text: the replaced names joined with '|', compiled without IGNORECASE. */
  function LegacyPatternSource(names: seq<string>): string {
    Join(seq(|names|, k requires 0 <= k < |names| => LegacyReplace(names[k])), "|")
  }

  /** The legacy text is the rendering of the element sequence built from the
      CJK marks alone; for a name free of regex metacharacters it therefore
      means that sequence, matched case-sensitively. */
  lemma {:induction false} LegacyIsRendering(name: string)
    ensures LegacyReplace(name) == Render(ElemsOf(name, Legacy))
    ensures (forall k :: 0 <= k < |name| ==> name[k] !in RegexMeta) ==>
      Parse(LegacyReplace(name)) == ElemsOf(name, Legacy)
    decreases |name|
  {
    if |name| > 0 {
      LegacyIsRendering(name[1..]);
      assert ElemsOf(name, Legacy)[1..] == ElemsOf(name[1..], Legacy);
    }
    if forall k :: 0 <= k < |name| ==> name[k] !in RegexMeta {
      ParseRender(ElemsOf(name, Legacy));
    }
  }

  /** The legacy pattern is case-sensitive and keeps ASCII punctuation literal:
      "Fire, Dragon!" is not accepted as "FireDragon". */
  lemma LegacyIsStrict()
    ensures !MatchPrefix(ElemsOf("Fire, Dragon!", Legacy), "FireDragon", false)
  {
    var e := ElemsOf("Fire, Dragon!", Legacy);
    assert e[4] == Lit(',');
    assert e[..4] == [Lit('F'), Lit('i'), Lit('r'), Lit('e')];
    assert e[1..][1..][1..][1..] == e[4..];
    assert "FireDragon"[1..][1..][1..][1..] == "Dragon";
  }
}
