/** The greedy line breaker `cut` of the card-text renderer. A line wider than
    the limit is split at the separator end whose prefix width is closest to
    the limit; the rest is wrapped again. Width is the `Utf8.Size` metric. */
module LineWrap {
  import opened Wrappers
  import opened Text
  import opened Utf8

  /** The two separator lists: the current renderer's
      (utils/engines/_base.py) and the older one (query/synthesis.py). */
  datatype Separators = Current | Legacy

  /** `SEPEND`: the marks that suppress a break after '。', '！', '）' or '」'. */
  predicate IsSepEnd(c: char) {
    c == '\U{ff1b}' || c == '\U{ff0c}' || c == '\U{3002}' || c == '\U{ff01}' || c == '\U{300d}'
  }

  /** The closing marks guarded by `(?!SEPEND)`: '。', '！', '）' and '」'. */
  predicate IsCloser(c: char) {
    c == '\U{3002}' || c == '\U{ff01}' || c == '\U{ff09}' || c == '\U{300d}'
  }

  /** Single marks a line may end after: '，', '、', '；' and '—'. */
  predicate IsBreakAfter(c: char) {
    c == '\U{ff0c}' || c == '\U{3001}' || c == '\U{ff1b}' || c == '\U{2014}'
  }

  /** Starts of the matches of '……' found by a left-to-right scan from `p`;
      matches do not overlap. */
  function EllipsisStarts(t: string, p: nat): (r: set<nat>)
    ensures forall q :: q in r ==> p <= q && q + 2 <= |t| && t[q] == t[q + 1] == '\U{2026}'
    decreases |t| - p
  {
    if p + 2 > |t| then {}
    else if t[p] == '\U{2026}' && t[p + 1] == '\U{2026}' then {p} + EllipsisStarts(t, p + 2)
    else EllipsisStarts(t, p + 1)
  }

  /** `e` is the end of a match of some separator pattern in `t`. */
  predicate IsSeparatorEnd(s: Separators, t: string, e: nat) {
    e <= |t| &&
    ((e >= 2 && e - 2 in EllipsisStarts(t, 0))
     || (e >= 1 && IsBreakAfter(t[e - 1]))
     || (e >= 1 && IsCloser(t[e - 1]) && (e == |t| || !IsSepEnd(t[e])))
     || match s
        case Current =>
          (e >= 1 && t[e - 1] == ' ')
          || (1 <= e < |t| && (t[e] == '\U{ff08}' || t[e] == '\U{300c}'))
        case Legacy =>
          (e >= 2 && t[e - 1] == ' ' && t[e - 2] in {',', '.', '!', ';', ')'})
          || (e < |t| && (t[e] == '(' || t[e] == '\U{ff08}' || t[e] == '\U{300c}')))
  }

  /** The split positions considered: separator ends and the end of the text. */
  predicate Candidate(s: Separators, t: string, e: nat) {
    e == |t| || IsSeparatorEnd(s, t, e)
  }

  /** How far the prefix ending at `e` is from the limit. */
  function Distance(t: string, limit: nat, e: nat): nat
    requires e <= |t|
  {
    var w := Size(t[..e]);
    if w >= limit then w - limit else limit - w
  }

  /** The order of Python's `min` over `(distance, index)` pairs. */
  predicate NoWorse(t: string, limit: nat, a: nat, b: nat)
    requires a <= |t| && b <= |t|
  {
    Distance(t, limit, a) < Distance(t, limit, b) || (Distance(t, limit, a) == Distance(t, limit, b) && a <= b)
  }

  lemma NoWorseTransitive(t: string, limit: nat, a: nat, b: nat, c: nat)
    requires a <= |t| && b <= |t| && c <= |t|
    requires NoWorse(t, limit, a, b) && NoWorse(t, limit, b, c)
    ensures NoWorse(t, limit, a, c)
  {
  }

  /** A candidate no worse than the best so far is no worse than every
      candidate scanned. */
  lemma BetterCandidate(s: Separators, t: string, limit: nat, lo: nat, e: nat, best: nat)
    requires lo <= e <= |t| && best <= |t|
    requires NoWorse(t, limit, e, best)
    requires forall k :: lo <= k < e && Candidate(s, t, k) ==> NoWorse(t, limit, best, k)
    ensures forall k :: lo <= k < e + 1 && Candidate(s, t, k) ==> NoWorse(t, limit, e, k)
  {
    forall k | lo <= k < e + 1 && Candidate(s, t, k)
      ensures NoWorse(t, limit, e, k)
    {
      if k < e {
        NoWorseTransitive(t, limit, e, best, k);
      }
    }
  }

  /** The best candidate at or after `lo`, scanning positions from `e` on with
      `best` the best one so far. */
  function BestFrom(s: Separators, t: string, limit: nat, lo: nat, e: nat, best: nat): (r: nat)
    requires lo <= e <= |t| + 1 && lo <= best <= |t| && Candidate(s, t, best)
    requires NoWorse(t, limit, best, |t|)
    requires forall k :: lo <= k < e && Candidate(s, t, k) ==> NoWorse(t, limit, best, k)
    ensures lo <= r <= |t| && Candidate(s, t, r)
    ensures forall k :: lo <= k <= |t| && Candidate(s, t, k) ==> NoWorse(t, limit, r, k)
    decreases |t| + 1 - e
  {
    if e > |t| then best
    else if Candidate(s, t, e) && NoWorse(t, limit, e, best) && e != best then
      NoWorseTransitive(t, limit, e, best, |t|);
      BetterCandidate(s, t, limit, lo, e, best);
      BestFrom(s, t, limit, lo, e + 1, e)
    else
      assert Candidate(s, t, e) ==> NoWorse(t, limit, best, e);
      BestFrom(s, t, limit, lo, e + 1, best)
  }

  /** The split index of one loop iteration: the candidate at or after `lo`
      closest to the limit, ties going to the smaller index. */
  function SplitIndex(s: Separators, t: string, limit: nat, lo: nat): (r: nat)
    requires lo <= |t|
    ensures lo <= r <= |t| && Candidate(s, t, r)
    ensures forall k :: lo <= k <= |t| && Candidate(s, t, k) ==> NoWorse(t, limit, r, k)
  {
    BestFrom(s, t, limit, lo, lo, |t|)
  }

  /** `cut(text, line_size_max)`. Splits are taken at index 1 or later: the
      current list's look-aheads carry `(?<!^)`, and every other separator
      ends after a character. */
  function Cut(s: Separators, t: string, limit: nat): (lines: seq<string>)
    decreases |t|
  {
    if Size(t) <= limit then (if |t| == 0 then [] else [t])
    else
      SizeZero(t);
      var i := SplitIndex(s, t, limit, 1);
      [t[..i]] + Cut(s, t[i..], limit)
  }

  /** The lines put back together give the input. */
  lemma {:induction false} CutConcat(s: Separators, t: string, limit: nat)
    ensures Concat(Cut(s, t, limit)) == t
    decreases |t|
  {
    if Size(t) <= limit {
      if |t| > 0 {
        assert Concat([t]) == t + Concat([]);
      }
    } else {
      SizeZero(t);
      var i := SplitIndex(s, t, limit, 1);
      CutConcat(s, t[i..], limit);
      assert Cut(s, t, limit)[1..] == Cut(s, t[i..], limit);
      assert t[..i] + t[i..] == t;
    }
  }

  /** No line is empty. */
  lemma {:induction false} CutNoEmptyLine(s: Separators, t: string, limit: nat)
    ensures forall k :: 0 <= k < |Cut(s, t, limit)| ==> Cut(s, t, limit)[k] != ""
    decreases |t|
  {
    if Size(t) > limit {
      SizeZero(t);
      var i := SplitIndex(s, t, limit, 1);
      CutNoEmptyLine(s, t[i..], limit);
      assert Cut(s, t, limit) == [t[..i]] + Cut(s, t[i..], limit);
    }
  }

  /** A text within the limit is kept whole: no splitting happens. */
  lemma CutFits(s: Separators, t: string, limit: nat)
    requires Size(t) <= limit
    ensures Cut(s, t, limit) == (if t == "" then [] else [t])
  {
  }

  /** A wider text is split once at a candidate closest to the limit, ties
      going to the smaller index, among the candidates from index 1 on; the
      remainder is wrapped again. */
  lemma CutFirstSplit(s: Separators, t: string, limit: nat)
    requires Size(t) > limit
    ensures |Cut(s, t, limit)| >= 1
    ensures var i := |Cut(s, t, limit)[0]|;
      1 <= i <= |t| && Cut(s, t, limit)[0] == t[..i] && Candidate(s, t, i) &&
      (forall k :: 1 <= k <= |t| && Candidate(s, t, k) ==> NoWorse(t, limit, i, k)) &&
      Cut(s, t, limit)[1..] == Cut(s, t[i..], limit)
  {
    SizeZero(t);
  }

  /** Letters (and an opening '(' at the very start) hold no separator. */
  lemma PlainTextHasNoSeparator(s: Separators, t: string, k: nat)
    requires 1 <= k < |t|
    requires forall j :: 1 <= j < |t| ==> 'a' <= t[j] <= 'z'
    requires t[0] == '(' || 'a' <= t[0] <= 'z'
    ensures !IsSeparatorEnd(s, t, k)
  {
    if k >= 2 {
      var q: nat := k - 2;
      assert t[q] != '\U{2026}';
      assert q !in EllipsisStarts(t, 0);
    }
  }

  /** Without any separator the whole remainder is one line, however wide:
      there is no hard cut. */
  lemma NoSeparatorOneLine(s: Separators, t: string, limit: nat)
    requires t != ""
    requires forall k :: 1 <= k < |t| ==> !IsSeparatorEnd(s, t, k)
    ensures Cut(s, t, limit) == [t]
  {
    if Size(t) > limit {
      SizeZero(t);
      var i := SplitIndex(s, t, limit, 1);
      assert i == |t|;
      assert t[i..] == "";
      assert Cut(s, t[i..], limit) == [];
      assert t[..i] == t;
    }
  }

  /** Twenty-five 'a's with limit 10 stay one line. */
  lemma NoSeparatorExample(t: string)
    requires t == Repeat('a', 25)
    ensures Cut(Current, t, 10) == [t]
  {
    forall k | 1 <= k < |t|
      ensures !IsSeparatorEnd(Current, t, k)
    {
      PlainTextHasNoSeparator(Current, t, k);
    }
    NoSeparatorOneLine(Current, t, 10);
  }

  /** One iteration of the older loop as written: its split positions start at
      index 0, because its look-aheads `(?=\()`, `(?=（)` and `(?=「)` have no
      `(?<!^)`. The result is the remainder left for the next iteration. */
  function LegacyStepAsWritten(t: string, limit: nat): (rest: string)
    ensures IsSuffix(rest, t)
  {
    var i := SplitIndex(Legacy, t, limit, 0);
    assert t[..i] + t[i..] == t;
    t[i..]
  }

  /** A line that opens with '(' and is wider than twice the limit, with no
      other separator, makes the older loop split at index 0: the remainder is
      the line itself and still too wide, so the loop never ends. */
  lemma LegacyStalls(t: string, limit: nat)
    requires |t| >= 1 && t[0] == '('
    requires forall k :: 1 <= k < |t| ==> t[k] == 'a'
    requires 2 * limit <= |t|
    ensures Size(t) > limit
    ensures LegacyStepAsWritten(t, limit) == t
  {
    assert IsAscii(t);
    AsciiSize(t);
    assert t[..0] == "";
    assert t[..|t|] == t;
    assert Distance(t, limit, 0) == limit;
    assert Distance(t, limit, |t|) == |t| - limit;
    forall k | 1 <= k < |t|
      ensures !IsSeparatorEnd(Legacy, t, k)
    {
      PlainTextHasNoSeparator(Legacy, t, k);
    }
    var i := SplitIndex(Legacy, t, limit, 0);
    assert Candidate(Legacy, t, 0);
    assert !NoWorse(t, limit, |t|, 0);
    assert i == 0;
  }

  /** Of the older separators, only the look-aheads `(?=\()`, `(?=（)` and
      `(?=「)` can end at index 0. */
  predicate IsOpener(c: char) {
    c == '(' || c == '\U{ff08}' || c == '\U{300c}'
  }

  lemma ZeroCandidate(t: string)
    requires |t| > 0
    ensures Candidate(Legacy, t, 0) <==> IsOpener(t[0])
  {
  }

  /** The best split is unique: `min` over `(distance, index)` pairs has one answer. */
  lemma BestUnique(s: Separators, t: string, limit: nat, lo: nat, a: nat, b: nat)
    requires lo <= a <= |t| && lo <= b <= |t| && Candidate(s, t, a) && Candidate(s, t, b)
    requires forall k :: lo <= k <= |t| && Candidate(s, t, k) ==> NoWorse(t, limit, a, k)
    requires forall k :: lo <= k <= |t| && Candidate(s, t, k) ==> NoWorse(t, limit, b, k)
    ensures a == b
  {
    assert NoWorse(t, limit, a, b) && NoWorse(t, limit, b, a);
  }

  /** When the older loop's split from index 0 is not 0, it is the split
      the corrected loop takes from index 1. */
  lemma SplitFromOne(t: string, limit: nat)
    requires |t| > 0 && SplitIndex(Legacy, t, limit, 0) != 0
    ensures SplitIndex(Legacy, t, limit, 0) == SplitIndex(Legacy, t, limit, 1)
  {
    var a := SplitIndex(Legacy, t, limit, 0);
    var b := SplitIndex(Legacy, t, limit, 1);
    BestUnique(Legacy, t, limit, 1, a, b);
  }

  /** The older `cut(text, line_size_max)` as written. A split at index 0
      leaves the text as it was, so the loop repeats the same step for ever:
      `Stall`. Every other split makes progress. Whenever the loop returns,
      it returns the corrected loop's lines. */
  function LegacyCutAsWritten(t: string, limit: nat): (r: Result<seq<string>>)
    ensures r.Ok? ==> r.value == Cut(Legacy, t, limit)
    ensures r.Crash? ==> r.fault == Stall
    ensures Size(t) <= limit ==> r.Ok?
    ensures Size(t) > limit ==>
      (r.Crash? <==> LegacyStepAsWritten(t, limit) == t || LegacyCutAsWritten(LegacyStepAsWritten(t, limit), limit).Crash?)
    decreases |t|
  {
    if Size(t) <= limit then Ok(if |t| == 0 then [] else [t])
    else
      SizeZero(t);
      var i := SplitIndex(Legacy, t, limit, 0);
      if i == 0 then Crash(Stall)
      else
        assert |t[i..]| < |t|;
        var rest :- LegacyCutAsWritten(t[i..], limit);
        SplitFromOne(t, limit);
        Ok([t[..i]] + rest)
  }

  /** A line with no opening bracket never stalls the older loop: it
      returns the corrected loop's lines. */
  lemma {:induction false} NoOpenerNeverStalls(t: string, limit: nat)
    requires forall k :: 0 <= k < |t| ==> !IsOpener(t[k])
    ensures LegacyCutAsWritten(t, limit) == Ok(Cut(Legacy, t, limit))
    decreases |t|
  {
    if Size(t) > limit {
      SizeZero(t);
      ZeroCandidate(t);
      var i := SplitIndex(Legacy, t, limit, 0);
      assert i != 0;
      NoOpenerNeverStalls(t[i..], limit);
    }
  }

  /** The line of `LegacyStalls` stalls the older loop. */
  lemma LegacyCutStalls(t: string, limit: nat)
    requires |t| >= 1 && t[0] == '('
    requires forall k :: 1 <= k < |t| ==> t[k] == 'a'
    requires 2 * limit <= |t|
    ensures LegacyCutAsWritten(t, limit) == Crash(Stall)
  {
    LegacyStalls(t, limit);
    assert |LegacyStepAsWritten(t, limit)| == |t|;
    assert SplitIndex(Legacy, t, limit, 0) == 0;
  }

  /** "(" followed by thirty 'a's with limit 10 is such a line. */
  lemma LegacyStallsExample(t: string)
    requires t == "(" + Repeat('a', 30)
    ensures Size(t) > 10 && LegacyStepAsWritten(t, 10) == t
  {
    LegacyStalls(t, 10);
  }

  /** The corrected older loop starts its split positions at index 1, as the
      current one does; with that it always terminates, and its lines give
      back the input. */
  function LegacyCut(t: string, limit: nat): (lines: seq<string>)
    ensures Concat(lines) == t
    ensures forall k :: 0 <= k < |lines| ==> lines[k] != ""
  {
    CutConcat(Legacy, t, limit);
    CutNoEmptyLine(Legacy, t, limit);
    Cut(Legacy, t, limit)
  }
}
