/** Filter-based card search of the engine base class (utils/engines/_base.py):
    one filter string narrows a card list, a list of filters is applied left to right. */
module Search {
  import opened Wrappers
  import opened Text
  import opened Codes
  import opened StdCards

  /** `a` is `b` with some elements left out, order kept. */
  predicate Subsequence<T(==)>(a: seq<T>, b: seq<T>)
    decreases |b|
  {
    if |b| == 0 then |a| == 0
    else (|a| > 0 && a[0] == b[0] && Subsequence(a[1..], b[1..])) || Subsequence(a, b[1..])
  }

  lemma {:induction false} SubsequenceRefl<T>(a: seq<T>)
    ensures Subsequence(a, a)
    decreases |a|
  {
    if |a| > 0 {
      SubsequenceRefl(a[1..]);
    }
  }

  lemma {:induction false} SubsequenceMembers<T>(a: seq<T>, b: seq<T>)
    requires Subsequence(a, b)
    ensures forall x :: x in a ==> x in b
    ensures |a| <= |b|
    decreases |b|
  {
    if |b| > 0 {
      if |a| > 0 && a[0] == b[0] && Subsequence(a[1..], b[1..]) {
        SubsequenceMembers(a[1..], b[1..]);
        assert a == [a[0]] + a[1..];
      } else {
        SubsequenceMembers(a, b[1..]);
      }
    }
  }

  lemma {:induction false} SubsequenceTrans<T>(a: seq<T>, b: seq<T>, c: seq<T>)
    requires Subsequence(a, b) && Subsequence(b, c)
    ensures Subsequence(a, c)
    decreases |c|
  {
    if |c| > 0 {
      if Subsequence(b, c[1..]) {
        SubsequenceTrans(a, b, c[1..]);
      } else if |a| > 0 && a[0] == b[0] && Subsequence(a[1..], b[1..]) {
        SubsequenceTrans(a[1..], b[1..], c[1..]);
      } else if |a| > 0 {
        assert b[0] == c[0] && Subsequence(b[1..], c[1..]);
        assert Subsequence(a, b[1..]);
        SubsequenceTrans(a, b[1..], c[1..]);
        assert Subsequence(a, c[1..]);
      } else {
        SubsequenceEmpty(c);
      }
    }
  }

  /** A prefix is a selection that keeps order. */
  lemma {:induction false} PrefixSubsequence<T>(a: seq<T>, b: seq<T>)
    requires a <= b
    ensures Subsequence(a, b)
    decreases |b|
  {
    if |a| == 0 {
      SubsequenceEmpty(b);
    } else {
      assert a[0] == b[0] && a[1..] <= b[1..];
      PrefixSubsequence(a[1..], b[1..]);
    }
  }

  lemma {:induction false} SubsequenceEmpty<T>(c: seq<T>)
    ensures Subsequence([], c)
    decreases |c|
  {
    if |c| > 0 {
      SubsequenceEmpty(c[1..]);
    }
  }

  /** `^(\d+)(?:00|费)$`: a number followed by "00" or by '费' ("cost") asks for
      that cost; the digits before the suffix are the number. */
  function CostQuery(f: string): Option<nat> {
    if |f| >= 3 && f[|f| - 2..] == "00" && IsDigits(f[..|f| - 2]) then Some(DigitsValue(f[..|f| - 2]))
    else if |f| >= 2 && f[|f| - 1] == '费' && IsDigits(f[..|f| - 1]) then Some(DigitsValue(f[..|f| - 1]))
    else None
  }

  predicate SomeContains(xs: seq<string>, f: string) {
    exists k :: 0 <= k < |xs| && Contains(xs[k], f)
  }

  /** The text branch of `filter_std_cards`, evaluated in the order of Python's
      `or` chain: a card lacking a type list, faction or rarity raises when the
      chain reaches the subscript or the `.lower()` before any test succeeded. */
  function KeepText(c: StdCard, f: string): Result<bool> {
    if SomeContains(c.names, f) || SomeContains(c.rules, f) || SomeContains(c.types, f) then Ok(true)
    else if |c.types| == 0 then Crash(IndexError)
    else if CodeEqual(TypeCode(c.types[0]), TypeCode(f)) then Ok(true)
    else if c.faction == Some(f) then Ok(true)
    else if c.faction.None? then Crash(AttributeError)
    else if CodeEqual(FactionCode(c.faction.value), FactionCode(f)) then Ok(true)
    else if c.series == Some(f) || c.rarity == Some(f) then Ok(true)
    else if c.rarity.None? then Crash(AttributeError)
    else Ok(CodeEqual(RarityCode(c.rarity.value), RarityCode(f)))
  }

  /** Whether one card survives filter `f` (`f` non-empty). */
  function Keep(c: StdCard, f: string): Result<bool> {
    var cost := CostQuery(f);
    if cost.Some? then Ok(c.attributes.cost == cost.value)
    else if IsDigits(f) then Ok(StatsText(c.attributes) == f)
    else KeepText(c, f)
  }

  /** The kept cards, in order; the first card whose test raises aborts the pass. */
  function KeepAll(cards: seq<StdCard>, f: string): (r: Result<seq<StdCard>>)
    ensures r.Ok? ==> Subsequence(r.value, cards)
    ensures r.Ok? <==> forall k :: 0 <= k < |cards| ==> Keep(cards[k], f).Ok?
    decreases |cards|
  {
    if |cards| == 0 then Ok([])
    else
      var head := Keep(cards[0], f);
      if head.Crash? then Crash(head.fault)
      else
        var rest := KeepAll(cards[1..], f);
        if rest.Crash? then Crash(rest.fault)
        else if head.value then Ok([cards[0]] + rest.value)
        else Ok(rest.value)
  }

  /** A pass keeps exactly the cards whose test says so, each as often as it
      occurs in the input. */
  lemma {:induction false} KeepAllMembers(cards: seq<StdCard>, f: string)
    requires KeepAll(cards, f).Ok?
    ensures forall c :: c in KeepAll(cards, f).value <==> c in cards && Keep(c, f) == Ok(true)
    ensures forall c :: multiset(KeepAll(cards, f).value)[c] == if Keep(c, f) == Ok(true) then multiset(cards)[c] else 0
    decreases |cards|
  {
    if |cards| > 0 {
      KeepAllMembers(cards[1..], f);
      var keep := Keep(cards[0], f).value;
      var tail := KeepAll(cards[1..], f).value;
      KeepAllStep(cards[0], cards[1..], f, keep, tail);
      assert cards == [cards[0]] + cards[1..];
      assert multiset(cards) == multiset{cards[0]} + multiset(cards[1..]);
    }
  }

  /** `filter_std_cards(cards, f)`: the empty filter keeps everything. */
  function Filter(cards: seq<StdCard>, f: string): Result<seq<StdCard>> {
    if f == "" then Ok(cards) else KeepAll(cards, f)
  }

  /** `search_std_cards(filters)` over catalogue `catalog`: successive narrowing. */
  function SearchCards(catalog: seq<StdCard>, filters: seq<string>): Result<seq<StdCard>>
    decreases |filters|
  {
    if |filters| == 0 then Ok(catalog)
    else
      var cards :- SearchCards(catalog, filters[..|filters| - 1]);
      Filter(cards, filters[|filters| - 1])
  }

  /** A card whose text test cannot raise: it has a type, a faction and a rarity. */
  predicate Complete(c: StdCard) {
    |c.types| >= 1 && c.faction.Some? && c.rarity.Some?
  }

  /** The meaning of a text filter, stated independently of evaluation order:
      a substring of a name, rule or type; equal to faction, series or rarity;
      or naming the same known type, faction or rarity. Flavour text is never searched. */
  predicate TextMatch(c: StdCard, f: string)
    requires Complete(c)
  {
    || (exists k :: 0 <= k < |c.names| && Contains(c.names[k], f))
    || (exists k :: 0 <= k < |c.rules| && Contains(c.rules[k], f))
    || (exists k :: 0 <= k < |c.types| && Contains(c.types[k], f))
    || c.faction.value == f || c.series == Some(f) || c.rarity.value == f
    || CodeEqual(TypeCode(c.types[0]), TypeCode(f))
    || CodeEqual(FactionCode(c.faction.value), FactionCode(f))
    || CodeEqual(RarityCode(c.rarity.value), RarityCode(f))
  }

  /** For complete cards the text branch never raises and decides exactly `TextMatch`. */
  lemma KeepTextMeaning(c: StdCard, f: string)
    requires Complete(c)
    ensures KeepText(c, f) == Ok(TextMatch(c, f))
  {
  }

  /** The text branch raises only for an incomplete card, and then only when no
      test before the failing one succeeded. */
  lemma KeepTextCrash(c: StdCard, f: string)
    requires KeepText(c, f).Crash?
    ensures !Complete(c)
    ensures !SomeContains(c.names, f) && !SomeContains(c.rules, f) && !SomeContains(c.types, f)
  {
  }

  /** A name hit keeps the card even when its type list, faction and rarity are missing. */
  lemma NameHitNeverCrashes(c: StdCard, f: string, k: nat)
    requires f != "" && CostQuery(f).None? && !IsDigits(f)
    requires k < |c.names| && Contains(c.names[k], f)
    ensures Keep(c, f) == Ok(true)
  {
  }

  /** A cost filter ("500", "3费") keeps exactly the cards of that cost. */
  lemma CostFilter(cards: seq<StdCard>, d: string, suffix: string)
    requires IsDigits(d) && (suffix == "00" || suffix == "费")
    ensures CostQuery(d + suffix) == Some(DigitsValue(d))
    ensures KeepAll(cards, d + suffix).Ok?
    ensures forall c :: c in KeepAll(cards, d + suffix).value <==> c in cards && c.attributes.cost == DigitsValue(d)
  {
    var f := d + suffix;
    if suffix == "00" {
      assert f[|f| - 2..] == "00";
      assert f[..|f| - 2] == d;
    } else {
      assert f[|f| - 1] == '费';
      assert f[..|f| - 1] == d;
    }
    KeepAllMembers(cards, f);
  }

  /** Any other digit string compares the three numbers written back to back. */
  lemma StatsFilter(cards: seq<StdCard>, f: string)
    requires IsDigits(f) && CostQuery(f).None?
    ensures KeepAll(cards, f).Ok?
    ensures forall c :: c in KeepAll(cards, f).value <==> c in cards && StatsText(c.attributes) == f
  {
    KeepAllMembers(cards, f);
  }

  function Card(cost: int, attack: int, health: int): StdCard {
    StdCard("", [""], None, [], None, None, [], [], Stats(cost, attack, health), None, None, None, None, None)
  }

  /** One step of a pass over a non-empty list. */
  lemma KeepAllStep(c: StdCard, rest: seq<StdCard>, f: string, keep: bool, tail: seq<StdCard>)
    requires Keep(c, f) == Ok(keep) && KeepAll(rest, f) == Ok(tail)
    ensures KeepAll([c] + rest, f) == Ok(if keep then [c] + tail else tail)
  {
    assert ([c] + rest)[1..] == rest;
  }

  /** "3100" asks for cost 31, so a 3/10/0 card is dropped even though its
      numbers spell "3100". */
  lemma CostBeatsStats()
    ensures Filter([Card(3, 10, 0), Card(31, 1, 1)], "3100") == Ok([Card(31, 1, 1)])
  {
    var c := "3100";
    assert c[|c| - 2..] == "00" && c[..|c| - 2] == "31";
    assert DigitsValue("31") == 31 by {
      assert "31"[..1] == "3";
    }
    assert CostQuery(c) == Some(31);
    KeepAllStep(Card(31, 1, 1), [], c, true, []);
    assert [Card(31, 1, 1)] + [] == [Card(31, 1, 1)];
    KeepAllStep(Card(3, 10, 0), [Card(31, 1, 1)], c, false, [Card(31, 1, 1)]);
  }

  lemma StatsTexts()
    ensures StatsText(Stats(1, 23, 4)) == "1234"
    ensures StatsText(Stats(12, 3, 4)) == "1234"
    ensures StatsText(Stats(5, 3, 4)) == "534"
  {
    assert IntToString(23) == "23" by {
      assert NatToString(23) == NatToString(2) + "3";
    }
    assert IntToString(12) == "12" by {
      assert NatToString(12) == NatToString(1) + "2";
    }
  }

  lemma NotCosts(s: string)
    requires s == "1234" || s == "534"
    ensures CostQuery(s).None? && IsDigits(s)
  {
    assert s[|s| - 2..] == "34";
  }

  lemma StatsFilter1234(s: string)
    requires s == "1234"
    ensures Filter([Card(1, 23, 4), Card(12, 3, 4), Card(5, 3, 4)], s) == Ok([Card(1, 23, 4), Card(12, 3, 4)])
  {
    StatsTexts();
    NotCosts(s);
    KeepAllStep(Card(5, 3, 4), [], s, false, []);
    KeepAllStep(Card(12, 3, 4), [Card(5, 3, 4)], s, true, []);
    assert [Card(12, 3, 4)] + [Card(5, 3, 4)] == [Card(12, 3, 4), Card(5, 3, 4)];
    assert [Card(12, 3, 4)] + [] == [Card(12, 3, 4)];
    KeepAllStep(Card(1, 23, 4), [Card(12, 3, 4), Card(5, 3, 4)], s, true, [Card(12, 3, 4)]);
    assert [Card(1, 23, 4)] + [Card(12, 3, 4), Card(5, 3, 4)] == [Card(1, 23, 4), Card(12, 3, 4), Card(5, 3, 4)];
    assert [Card(1, 23, 4)] + [Card(12, 3, 4)] == [Card(1, 23, 4), Card(12, 3, 4)];
  }

  lemma StatsFilter534(t: string)
    requires t == "534"
    ensures Filter([Card(5, 3, 4)], t) == Ok([Card(5, 3, 4)])
  {
    StatsTexts();
    NotCosts(t);
    KeepAllStep(Card(5, 3, 4), [], t, true, []);
    assert [Card(5, 3, 4)] + [] == [Card(5, 3, 4)];
  }

  /** Without a length check 1/23/4 and 12/3/4 both match "1234"; 5/3/4 matches only "534". */
  lemma StatsExamples()
    ensures Filter([Card(1, 23, 4), Card(12, 3, 4), Card(5, 3, 4)], "1234") == Ok([Card(1, 23, 4), Card(12, 3, 4)])
    ensures Filter([Card(5, 3, 4)], "534") == Ok([Card(5, 3, 4)])
  {
    StatsFilter1234("1234");
    StatsFilter534("534");
  }

  /** No filters: the whole catalogue, in order. */
  lemma SearchNoFilters(catalog: seq<StdCard>)
    ensures SearchCards(catalog, []) == Ok(catalog)
  {
  }

  /** An empty filter changes nothing. */
  lemma EmptyFilterKeepsAll(catalog: seq<StdCard>, filters: seq<string>)
    ensures SearchCards(catalog, filters + [""]) == SearchCards(catalog, filters)
  {
    assert (filters + [""])[..|filters|] == filters;
  }

  /** Every search result is an order-preserving selection of the catalogue. */
  lemma {:induction false} SearchSubsequence(catalog: seq<StdCard>, filters: seq<string>)
    ensures SearchCards(catalog, filters).Ok? ==> Subsequence(SearchCards(catalog, filters).value, catalog)
    decreases |filters|
  {
    if SearchCards(catalog, filters).Crash? {
    } else if |filters| == 0 {
      SubsequenceRefl(catalog);
    } else {
      var init := filters[..|filters| - 1];
      SearchSubsequence(catalog, init);
      var mid := SearchCards(catalog, init).value;
      var f := filters[|filters| - 1];
      if f == "" {
        SubsequenceRefl(mid);
      }
      SubsequenceTrans(SearchCards(catalog, filters).value, mid, catalog);
    }
  }

  /** Appending a filter can only narrow the result. */
  lemma SearchNarrows(catalog: seq<StdCard>, filters: seq<string>, f: string)
    ensures SearchCards(catalog, filters + [f]).Ok? ==>
      && SearchCards(catalog, filters).Ok?
      && Subsequence(SearchCards(catalog, filters + [f]).value, SearchCards(catalog, filters).value)
  {
    assert (filters + [f])[..|filters|] == filters;
    if SearchCards(catalog, filters).Ok? && f == "" {
      SubsequenceRefl(SearchCards(catalog, filters).value);
    }
  }

  /** A catalogue of complete cards never makes a search raise. */
  lemma {:induction false} SearchTotal(catalog: seq<StdCard>, filters: seq<string>)
    requires forall k :: 0 <= k < |catalog| ==> Complete(catalog[k])
    ensures SearchCards(catalog, filters).Ok?
    decreases |filters|
  {
    if |filters| > 0 {
      var init := filters[..|filters| - 1];
      SearchTotal(catalog, init);
      SearchSubsequence(catalog, init);
      var mid := SearchCards(catalog, init).value;
      SubsequenceMembers(mid, catalog);
      forall k | 0 <= k < |mid|
        ensures Keep(mid[k], filters[|filters| - 1]).Ok?
      {
        assert mid[k] in catalog;
        KeepTextMeaning(mid[k], filters[|filters| - 1]);
      }
    }
  }
}
