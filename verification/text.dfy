/** String primitives with Python's meaning: `in` on strings, `str.split`,
    `str.join`, `str.strip`, `str.lower`, `str.rstrip(c)`, `str(int)`. */
module Text {

  /** `p` is a prefix of `s` (Python's `s.startswith(p)`). */
  predicate IsPrefix(p: string, s: string) {
    |p| <= |s| && s[..|p|] == p
  }

  /** `p` is a suffix of `s` (Python's `s.endswith(p)`). */
  predicate IsSuffix(p: string, s: string) {
    |p| <= |s| && s[|s| - |p|..] == p
  }

  /** Python's `pat in s` for strings: `pat` occurs as a contiguous substring. */
  predicate Contains(s: string, pat: string)
    decreases |s|
  {
    IsPrefix(pat, s) || (|s| > 0 && Contains(s[1..], pat))
  }

  /** `pat` occurs in `s` starting at index `i`. */
  predicate OccursAt(s: string, pat: string, i: int) {
    0 <= i <= |s| - |pat| && s[i..i + |pat|] == pat
  }

  lemma {:induction false} ContainsAt(s: string, pat: string)
    ensures Contains(s, pat) <==> exists i :: OccursAt(s, pat, i)
    decreases |s|
  {
    if |s| > 0 {
      ContainsAt(s[1..], pat);
      if Contains(s[1..], pat) {
        var i :| OccursAt(s[1..], pat, i);
        assert OccursAt(s, pat, i + 1);
      }
      if i :| OccursAt(s, pat, i) {
        if i > 0 {
          assert OccursAt(s[1..], pat, i - 1);
        } else {
          assert IsPrefix(pat, s);
        }
      }
    }
    if IsPrefix(pat, s) {
      assert OccursAt(s, pat, 0);
    }
    if i :| OccursAt(s, pat, i) {
      if i == 0 {
        assert IsPrefix(pat, s);
      }
    }
  }

  /** A one-character pattern occurs exactly when the character does. */
  lemma {:induction false} ContainsChar(s: string, c: char)
    ensures Contains(s, [c]) <==> c in s
    decreases |s|
  {
    if |s| > 0 {
      ContainsChar(s[1..], c);
      assert s == [s[0]] + s[1..];
    }
  }

  /** Concatenation of `parts` with `sep` between neighbours: Python's `sep.join(parts)`. */
  function Join(parts: seq<string>, sep: string): string
    decreases |parts|
  {
    if |parts| == 0 then ""
    else if |parts| == 1 then parts[0]
    else parts[0] + sep + Join(parts[1..], sep)
  }

  /** Python's `s.split(sep)` for a non-empty separator: cut at every
      occurrence found scanning left to right, occurrences not overlapping. */
  function Split(s: string, sep: string): (parts: seq<string>)
    requires |sep| > 0
    ensures |parts| >= 1
    ensures Join(parts, sep) == s
    ensures IsPrefix(parts[0], s)
    decreases |s|
  {
    if |s| < |sep| then [s]
    else if s[..|sep|] == sep then
      var rest := Split(s[|sep|..], sep);
      assert s == sep + s[|sep|..];
      [""] + rest
    else
      var rest := Split(s[1..], sep);
      assert s == [s[0]] + s[1..];
      var r := [[s[0]] + rest[0]] + rest[1..];
      assert r[1..] == rest[1..];
      r
  }

  /** No piece of a split still holds the separator. */
  lemma {:induction false} SplitPartsFree(s: string, sep: string)
    requires |sep| > 0
    ensures forall k :: 0 <= k < |Split(s, sep)| ==> !Contains(Split(s, sep)[k], sep)
    decreases |s|
  {
    var parts := Split(s, sep);
    if |s| < |sep| {
      ContainsAt(s, sep);
    } else if s[..|sep|] == sep {
      SplitPartsFree(s[|sep|..], sep);
      ContainsAt("", sep);
    } else {
      var rest := Split(s[1..], sep);
      SplitPartsFree(s[1..], sep);
      assert parts[1..] == rest[1..];
      var head := [s[0]] + rest[0];
      assert parts[0] == head;
      assert IsPrefix(head, s) by {
        assert IsPrefix(rest[0], s[1..]);
        assert s == [s[0]] + s[1..];
      }
      ContainsAt(head, sep);
      ContainsAt(rest[0], sep);
      assert !Contains(head, sep);
      forall k | 0 <= k < |parts|
        ensures !Contains(parts[k], sep)
      {
        if k > 0 {
          assert parts[k] == rest[k];
        }
      }
    }
  }

  /** Splitting a string free of `c` on `c` leaves it whole. */
  lemma {:induction false} SplitNoSep(p: string, c: char)
    requires c !in p
    ensures Split(p, [c]) == [p]
    decreases |p|
  {
    if |p| >= 1 {
      assert p[..1] == [p[0]];
      SplitNoSep(p[1..], c);
      assert p == [p[0]] + p[1..];
    }
  }

  /** A piece free of `c` followed by `c` is split off as one part. */
  lemma {:induction false} SplitCons(p: string, c: char, r: string)
    requires c !in p
    ensures Split(p + [c] + r, [c]) == [p] + Split(r, [c])
    decreases |p|
  {
    var s := p + [c] + r;
    if |p| == 0 {
      assert s[..1] == [c];
      assert s[1..] == r;
    } else {
      assert s[..1] == [p[0]];
      assert s[1..] == p[1..] + [c] + r;
      SplitCons(p[1..], c, r);
      assert p == [p[0]] + p[1..];
    }
  }

  /** Joining two non-empty lists of parts puts one separator between their joins. */
  lemma {:induction false} JoinAppend(xs: seq<string>, ys: seq<string>, sep: string)
    requires |xs| >= 1 && |ys| >= 1
    ensures Join(xs + ys, sep) == Join(xs, sep) + sep + Join(ys, sep)
    decreases |xs|
  {
    var zs := xs + ys;
    assert zs[0] == xs[0];
    if |xs| == 1 {
      assert zs[1..] == ys;
    } else {
      assert zs[1..] == xs[1..] + ys;
      JoinAppend(xs[1..], ys, sep);
    }
  }

  /** One occurrence of a one-character separator cuts the split in two: the
      parts before it, then the parts after it. */
  lemma SplitAround(a: string, c: char, b: string)
    ensures Split(a + [c] + b, [c]) == Split(a, [c]) + Split(b, [c])
  {
    SplitFree(a, c);
    SplitFree(b, c);
    JoinedAround(Split(a, [c]), c, Split(b, [c]));
  }

  /** No part of a split on `c` holds `c`. */
  lemma SplitFree(s: string, c: char)
    ensures forall k :: 0 <= k < |Split(s, [c])| ==> c !in Split(s, [c])[k]
  {
    var parts := Split(s, [c]);
    SplitPartsFree(s, [c]);
    forall k | 0 <= k < |parts|
      ensures c !in parts[k]
    {
      ContainsChar(parts[k], c);
    }
  }

  /** Two lists of `c`-free parts, joined with one more `c` between them, split back apart. */
  lemma JoinedAround(pa: seq<string>, c: char, pb: seq<string>)
    requires |pa| >= 1 && |pb| >= 1
    requires forall k :: 0 <= k < |pa| ==> c !in pa[k]
    requires forall k :: 0 <= k < |pb| ==> c !in pb[k]
    ensures Split(Join(pa, [c]) + [c] + Join(pb, [c]), [c]) == pa + pb
  {
    var parts := pa + pb;
    JoinAppend(pa, pb, [c]);
    forall k | 0 <= k < |parts|
      ensures c !in parts[k]
    {
      if k >= |pa| {
        assert parts[k] == pb[k - |pa|];
      }
    }
    SplitJoin(parts, c);
  }

  /** For a one-character separator that no part holds, splitting undoes joining. */
  lemma {:induction false} SplitJoin(parts: seq<string>, c: char)
    requires |parts| >= 1
    requires forall k :: 0 <= k < |parts| ==> c !in parts[k]
    ensures Split(Join(parts, [c]), [c]) == parts
    decreases |parts|
  {
    if |parts| == 1 {
      SplitNoSep(parts[0], c);
    } else {
      SplitJoin(parts[1..], c);
      SplitCons(parts[0], c, Join(parts[1..], [c]));
      assert [parts[0]] + parts[1..] == parts;
    }
  }

  /** The non-empty elements of `parts`, in order: Python's
      `list(filter(lambda x: x != '', parts))`. */
  function DropEmpty(parts: seq<string>): (r: seq<string>)
    ensures forall k :: 0 <= k < |r| ==> r[k] != ""
    ensures forall k :: 0 <= k < |r| ==> r[k] in parts
    ensures |r| <= |parts|
    decreases |parts|
  {
    if |parts| == 0 then []
    else if parts[0] == "" then DropEmpty(parts[1..])
    else [parts[0]] + DropEmpty(parts[1..])
  }

  lemma {:induction false} DropEmptyKeepsNonEmpty(parts: seq<string>)
    requires forall k :: 0 <= k < |parts| ==> parts[k] != ""
    ensures DropEmpty(parts) == parts
    decreases |parts|
  {
    if |parts| > 0 {
      DropEmptyKeepsNonEmpty(parts[1..]);
      assert [parts[0]] + parts[1..] == parts;
    }
  }

  /** What `filter(lambda x: x != '', …)` keeps of one element: the element, or nothing when it is empty. */
  function Kept(x: string): (r: seq<string>)
    ensures |r| <= 1 && (r == [] <==> x == "")
  {
    if x == "" then [] else [x]
  }

  /** Filtering keeps order: the first element's fate, then the rest's. */
  lemma DropEmptyCons(x: string, xs: seq<string>)
    ensures DropEmpty([x] + xs) == Kept(x) + DropEmpty(xs)
  {
    assert ([x] + xs)[1..] == xs;
  }

  /** Filtering distributes over concatenation. */
  lemma {:induction false} DropEmptyAppend(xs: seq<string>, ys: seq<string>)
    ensures DropEmpty(xs + ys) == DropEmpty(xs) + DropEmpty(ys)
    decreases |xs|
  {
    if |xs| > 0 {
      DropEmptyAppend(xs[1..], ys);
      assert (xs + ys)[1..] == xs[1..] + ys;
    } else {
      assert xs + ys == ys;
    }
  }

  /** A string survives `DropEmpty` exactly when it is non-empty and present. */
  lemma {:induction false} DropEmptyMembers(xs: seq<string>, x: string)
    ensures x in DropEmpty(xs) <==> x != "" && x in xs
    decreases |xs|
  {
    if |xs| > 0 {
      DropEmptyMembers(xs[1..], x);
      assert xs == [xs[0]] + xs[1..];
    }
  }

  /** All parts glued together with nothing between them. */
  function Concat(parts: seq<string>): string
    decreases |parts|
  {
    if |parts| == 0 then "" else parts[0] + Concat(parts[1..])
  }

  lemma {:induction false} ConcatAppend(a: seq<string>, b: seq<string>)
    ensures Concat(a + b) == Concat(a) + Concat(b)
    decreases |a|
  {
    if |a| > 0 {
      assert (a + b)[1..] == a[1..] + b;
      ConcatAppend(a[1..], b);
    } else {
      assert a + b == b;
    }
  }

  lemma {:induction false} ConcatDropEmpty(parts: seq<string>)
    ensures Concat(DropEmpty(parts)) == Concat(parts)
    decreases |parts|
  {
    if |parts| > 0 {
      ConcatDropEmpty(parts[1..]);
    }
  }

  /** `s` with every occurrence of `c` removed. */
  function Remove(s: string, c: char): (r: string)
    ensures c !in r
    decreases |s|
  {
    if |s| == 0 then ""
    else if s[0] == c then Remove(s[1..], c)
    else [s[0]] + Remove(s[1..], c)
  }

  lemma {:induction false} RemoveAppend(a: string, b: string, c: char)
    ensures Remove(a + b, c) == Remove(a, c) + Remove(b, c)
    decreases |a|
  {
    if |a| > 0 {
      assert (a + b)[0] == a[0];
      assert (a + b)[1..] == a[1..] + b;
      RemoveAppend(a[1..], b, c);
    } else {
      assert a + b == b;
    }
  }

  lemma {:induction false} RemoveAbsent(s: string, c: char)
    requires c !in s
    ensures Remove(s, c) == s
    decreases |s|
  {
    if |s| > 0 {
      RemoveAbsent(s[1..], c);
      assert s == [s[0]] + s[1..];
    }
  }

  /** Removing the separator from a joined string glues the parts together. */
  lemma {:induction false} RemoveJoin(parts: seq<string>, c: char)
    requires forall k :: 0 <= k < |parts| ==> c !in parts[k]
    ensures Remove(Join(parts, [c]), c) == Concat(parts)
    decreases |parts|
  {
    if |parts| == 1 {
      RemoveAbsent(parts[0], c);
    } else if |parts| > 1 {
      RemoveJoin(parts[1..], c);
      RemoveAppend(parts[0] + [c], Join(parts[1..], [c]), c);
      RemoveAppend(parts[0], [c], c);
      RemoveAbsent(parts[0], c);
    }
  }

  /** Python's `str.isspace` for one character. */
  predicate IsSpace(c: char) {
    || ('\t' <= c <= '\r') || ('\U{1c}' <= c <= ' ') || c == '\U{85}' || c == '\U{a0}'
    || c == '\U{1680}' || ('\U{2000}' <= c <= '\U{200a}') || c == '\U{2028}' || c == '\U{2029}'
    || c == '\U{202f}' || c == '\U{205f}' || c == '\U{3000}'
  }

  /** `s` without leading whitespace: Python's `s.lstrip()`. */
  function StripLeft(s: string): (r: string)
    ensures |r| <= |s| && r == s[|s| - |r|..]
    ensures |r| > 0 ==> !IsSpace(r[0])
    ensures forall k :: 0 <= k < |s| - |r| ==> IsSpace(s[k])
    decreases |s|
  {
    if |s| > 0 && IsSpace(s[0]) then StripLeft(s[1..]) else s
  }

  /** `s` without trailing whitespace: Python's `s.rstrip()`. */
  function StripRight(s: string): (r: string)
    ensures |r| <= |s| && r == s[..|r|]
    ensures |r| > 0 ==> !IsSpace(r[|r| - 1])
    ensures forall k :: |r| <= k < |s| ==> IsSpace(s[k])
    decreases |s|
  {
    if |s| > 0 && IsSpace(s[|s| - 1]) then StripRight(s[..|s| - 1]) else s
  }

  /** Python's `s.strip()`: whitespace removed from both ends, the middle kept. */
  function Strip(s: string): (r: string)
    ensures |r| > 0 ==> !IsSpace(r[0]) && !IsSpace(r[|r| - 1])
    ensures Contains(s, r)
    ensures |r| == 0 ==> forall k :: 0 <= k < |s| ==> IsSpace(s[k])
  {
    var l := StripLeft(s);
    var r := StripRight(l);
    assert OccursAt(s, r, |s| - |l|);
    ContainsAt(s, r);
    r
  }

  /** A string with no whitespace at either end is its own strip, so `Strip` is idempotent. */
  lemma StripTrimmed(s: string)
    requires |s| > 0 ==> !IsSpace(s[0]) && !IsSpace(s[|s| - 1])
    ensures Strip(s) == s
    ensures Strip(Strip(s)) == Strip(s)
  {
  }

  /** Python's `c.lower()` on ASCII letters; every other character is kept. */
  function LowerChar(c: char): (d: char)
    ensures !('A' <= d <= 'Z')
  {
    if 'A' <= c <= 'Z' then (c as int - 'A' as int + 'a' as int) as char else c
  }

  function Lower(s: string): (r: string)
    ensures |r| == |s|
    ensures forall k :: 0 <= k < |s| ==> r[k] == LowerChar(s[k])
  {
    seq(|s|, k requires 0 <= k < |s| => LowerChar(s[k]))
  }

  lemma LowerIdempotent(s: string)
    ensures Lower(Lower(s)) == Lower(s)
  {
  }

  /** Python's `s.rstrip(c)`: every trailing copy of `c` removed. */
  function StripRightChar(s: string, c: char): (r: string)
    ensures IsPrefix(r, s)
    ensures |r| == 0 || r[|r| - 1] != c
    ensures forall k :: |r| <= k < |s| ==> s[k] == c
    decreases |s|
  {
    if |s| > 0 && s[|s| - 1] == c then StripRightChar(s[..|s| - 1], c) else s
  }

  predicate IsDigit(c: char) {
    '0' <= c <= '9'
  }

  /** The regular expression `^\d+$` on ASCII digits. */
  predicate IsDigits(s: string) {
    |s| > 0 && forall k :: 0 <= k < |s| ==> IsDigit(s[k])
  }

  /** Python's `int(s)` for a string of ASCII digits. */
  function DigitsValue(s: string): (n: nat)
    requires forall k :: 0 <= k < |s| ==> IsDigit(s[k])
    decreases |s|
  {
    if |s| == 0 then 0
    else
      assert IsDigit(s[|s| - 1]);
      10 * DigitsValue(s[..|s| - 1]) + (s[|s| - 1] as int - '0' as int)
  }

  /** Python's `str(n)` for a natural number. */
  function NatToString(n: nat): (s: string)
    ensures IsDigits(s)
    ensures DigitsValue(s) == n
    ensures |s| > 1 ==> s[0] != '0'
    decreases n
  {
    var d := ['0' + (n % 10) as char];
    if n < 10 then d
    else
      var s := NatToString(n / 10) + d;
      assert s[..|s| - 1] == NatToString(n / 10);
      s
  }

  /** Python's `str(n)` for any integer: a minus sign before negative values. */
  function IntToString(n: int): (s: string)
    ensures n >= 0 ==> IsDigits(s) && DigitsValue(s) == n
    ensures n < 0 ==> |s| >= 2 && s[0] == '-'
  {
    if n < 0 then "-" + NatToString(-n) else NatToString(n)
  }

  /** Python's `c * n` for one character. */
  function Repeat(c: char, n: nat): (s: string)
    ensures |s| == n
    ensures forall k :: 0 <= k < n ==> s[k] == c
  {
    seq(n, k => c)
  }

  /** The space-separated words of a chat message, empty ones dropped:
      `list(filter(lambda x: x != '', msg.split(' ')))`. */
  function Tokens(msg: string): seq<string> {
    DropEmpty(Split(msg, " "))
  }

  /** Tokens are non-empty, hold no space, and together are the message minus its spaces. */
  lemma TokensSpec(msg: string)
    ensures forall k :: 0 <= k < |Tokens(msg)| ==> Tokens(msg)[k] != "" && ' ' !in Tokens(msg)[k]
    ensures Concat(Tokens(msg)) == Remove(msg, ' ')
  {
    var parts := Split(msg, " ");
    SplitPartsFree(msg, " ");
    forall k | 0 <= k < |parts|
      ensures ' ' !in parts[k]
    {
      ContainsChar(parts[k], ' ');
    }
    RemoveJoin(parts, ' ');
    ConcatDropEmpty(parts);
  }

  /** A space cuts the message in two: its tokens are those before the space,
      then those after it. */
  lemma TokensAround(a: string, b: string)
    ensures Tokens(a + " " + b) == Tokens(a) + Tokens(b)
  {
    SplitAround(a, ' ', b);
    DropEmptyAppend(Split(a, " "), Split(b, " "));
  }

  /** A message without spaces is one token, or none when it is empty. */
  lemma TokensWord(w: string)
    requires ' ' !in w
    ensures Tokens(w) == Kept(w)
  {
    SplitNoSep(w, ' ');
  }

  /** Extra spaces at either end or between two tokens change nothing. */
  lemma TokensSpaces(a: string, b: string)
    ensures Tokens(" " + a) == Tokens(a)
    ensures Tokens(a + " ") == Tokens(a)
    ensures Tokens(a + "  " + b) == Tokens(a + " " + b)
  {
    TokensLeading(a);
    TokensTrailing(a);
    TokensDoubleSpace(a, b);
  }

  lemma TokensDoubleSpace(a: string, b: string)
    ensures Tokens(a + "  " + b) == Tokens(a + " " + b)
  {
    var t := " " + b;
    assert a + "  " + b == a + " " + t;
    TokensAround(a, t);
    TokensLeading(b);
    TokensAround(a, b);
  }

  lemma TokensLeading(a: string)
    ensures Tokens(" " + a) == Tokens(a)
  {
    TokensWord("");
    TokensAround("", a);
    assert "" + " " + a == " " + a;
  }

  lemma TokensTrailing(a: string)
    ensures Tokens(a + " ") == Tokens(a)
  {
    TokensWord("");
    TokensAround(a, "");
    assert a + " " + "" == a + " ";
  }

  /** Tokenising words joined by single spaces gives the words back. */
  lemma TokensOfJoin(words: seq<string>)
    requires |words| >= 1
    requires forall k :: 0 <= k < |words| ==> words[k] != "" && ' ' !in words[k]
    ensures Tokens(Join(words, " ")) == words
  {
    SplitJoin(words, ' ');
    DropEmptyKeepsNonEmpty(words);
  }

  /** A non-empty list of non-empty words without spaces. */
  predicate WordList(words: seq<string>) {
    |words| >= 1 && forall k :: 0 <= k < |words| ==> words[k] != "" && ' ' !in words[k]
  }

  /** Whatever words a message is the single-space join of, those words are its tokens. */
  lemma TokensOfJoins(msg: string)
    ensures forall words :: WordList(words) && msg == Join(words, " ") ==> Tokens(msg) == words
  {
    forall words | WordList(words) && msg == Join(words, " ")
      ensures Tokens(msg) == words
    {
      TokensOfJoin(words);
    }
  }
}
