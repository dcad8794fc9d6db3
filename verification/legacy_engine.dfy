/** The legacy iyingdi engine (_engines/iyingdi.py): the cached card list with
    its expiry time, the one-filter reduction over raw records, the search
    fold and the conversion into display records. The clock is a parameter
    counted in seconds. */
module LegacyEngine {
  import opened Wrappers
  import opened Text
  import opened Codes
  import opened Search
  import opened Iyingdi

  /** `str(x)` of an optional integer: "None" when the key is absent. */
  function ShowInt(o: Option<int>): string {
    match o
    case Some(n) => IntToString(n)
    case None => "None"
  }

  /** `str(mana) + str(attack) + str(hp)`. */
  function Ability(c: IyCard): string {
    ShowInt(c.mana) + ShowInt(c.attack) + ShowInt(c.hp)
  }

  /** A text filter hits a name or rule field as a substring, or equals the
      faction, a type or the series. */
  predicate TextHit(c: IyCard, f: string) {
    || Contains(c.cname.GetOr(""), f) || Contains(c.jname.GetOr(""), f) || Contains(c.ename.GetOr(""), f)
    || Contains(c.crule.GetOr(""), f) || Contains(c.jrule.GetOr(""), f) || Contains(c.erule.GetOr(""), f)
    || c.faction == Some(f) || c.mainType == f || c.subType == f || c.seriesName == Some(f)
  }

  /** The test `reduce_cards_data` applies to one card. When no text field
      hits, `rarity_calc(None)` on a card without rarity raises
      AttributeError; rarity codes are compared with plain `==`. */
  function KeepCard(c: IyCard, f: string): (r: Result<bool>)
    ensures r.Crash? <==> !IsDigits(f) && !TextHit(c, f) && c.rarity.None?
    ensures r.Crash? ==> r.fault == AttributeError
  {
    if IsDigits(f) then Ok(Ability(c) == f)
    else if TextHit(c, f) then Ok(true)
    else if c.rarity.None? then Crash(AttributeError)
    else Ok(RarityCalc(c.rarity.value) == RarityCalc(f))
  }

  /** An all-digit filter keeps exactly the cards whose three numbers,
      written back to back, spell it. */
  lemma DigitFilterMeaning(c: IyCard, f: string)
    requires IsDigits(f) && c.mana.Some? && c.attack.Some? && c.hp.Some?
    ensures KeepCard(c, f) == Ok(IntToString(c.mana.value) + IntToString(c.attack.value) + IntToString(c.hp.value) == f)
  {
  }

  /** A card missing any of its three numbers never matches a digit filter:
      the "None" it renders holds letters. */
  lemma MissingNumberNeverMatches(c: IyCard, f: string)
    requires IsDigits(f)
    requires c.mana.None? || c.attack.None? || c.hp.None?
    ensures KeepCard(c, f) == Ok(false)
  {
    var a := ShowInt(c.mana);
    var b := ShowInt(c.attack);
    var h := ShowInt(c.hp);
    var i := if c.mana.None? then 0 else if c.attack.None? then |a| else |a| + |b|;
    assert Ability(c) == a + b + h;
    assert Ability(c)[i] == 'N';
    assert !IsDigit(Ability(c)[i]);
  }

  /** There is no length check: the cards (1, 23, 4) and (12, 3, 4) both
      match the filter "1234". */
  lemma NoLengthCheck(c: IyCard, d: IyCard, f: string)
    requires f == "1234"
    requires c.mana == Some(1) && c.attack == Some(23) && c.hp == Some(4)
    requires d.mana == Some(12) && d.attack == Some(3) && d.hp == Some(4)
    ensures KeepCard(c, f) == Ok(true) && KeepCard(d, f) == Ok(true)
  {
    assert NatToString(23) == "23";
    assert NatToString(12) == "12";
  }

  /** A text filter with no rarity meaning keeps every card whose rarity has
      none either: both sides compute -1. */
  lemma UnknownRarityMatchesUnknown(c: IyCard, f: string)
    requires !IsDigits(f) && RarityCalc(f) == -1
    requires c.rarity.Some? && RarityCalc(c.rarity.value) == -1
    ensures KeepCard(c, f) == Ok(true)
  {
  }

  /** `reduce_cards_data(cards, filter)`: the cards passing the test, in order. */
  function Reduce(cards: seq<IyCard>, f: string): (r: Result<seq<IyCard>>)
    ensures r.Crash? <==> exists k :: 0 <= k < |cards| && KeepCard(cards[k], f).Crash?
    ensures r.Crash? ==> r.fault == AttributeError
    ensures r.Ok? ==> Subsequence(r.value, cards)
    ensures r.Ok? ==> forall c :: c in r.value <==> c in cards && KeepCard(c, f) == Ok(true)
    decreases |cards|
  {
    if |cards| == 0 then Ok([])
    else
      var keep :- KeepCard(cards[0], f);
      var rest :- Reduce(cards[1..], f);
      CrashShift(cards, f);
      if keep then
        KeptStep(cards, f, rest);
        Ok([cards[0]] + rest)
      else
        DroppedStep(cards, f, rest);
        Ok(rest)
  }

  /** A test raises on some card of a non-empty list iff it raises on the
      first or on some card of the rest. */
  lemma CrashShift(cards: seq<IyCard>, f: string)
    requires |cards| > 0
    ensures (exists k :: 0 <= k < |cards| && KeepCard(cards[k], f).Crash?)
        <==> KeepCard(cards[0], f).Crash? || exists k :: 0 <= k < |cards[1..]| && KeepCard(cards[1..][k], f).Crash?
  {
    assert forall k :: 1 <= k < |cards| ==> cards[k] == cards[1..][k - 1];
  }

  /** The step of `Reduce` that keeps the first card. */
  lemma KeptStep(cards: seq<IyCard>, f: string, rest: seq<IyCard>)
    requires |cards| > 0 && KeepCard(cards[0], f) == Ok(true)
    requires Subsequence(rest, cards[1..])
    requires forall c :: c in rest <==> c in cards[1..] && KeepCard(c, f) == Ok(true)
    ensures Subsequence([cards[0]] + rest, cards)
    ensures forall c :: c in [cards[0]] + rest <==> c in cards && KeepCard(c, f) == Ok(true)
  {
    assert cards == [cards[0]] + cards[1..];
    assert ([cards[0]] + rest)[1..] == rest;
  }

  /** The step of `Reduce` that drops the first card. */
  lemma DroppedStep(cards: seq<IyCard>, f: string, rest: seq<IyCard>)
    requires |cards| > 0 && KeepCard(cards[0], f) == Ok(false)
    requires Subsequence(rest, cards[1..])
    requires forall c :: c in rest <==> c in cards[1..] && KeepCard(c, f) == Ok(true)
    ensures Subsequence(rest, cards)
    ensures forall c :: c in rest <==> c in cards && KeepCard(c, f) == Ok(true)
  {
    assert cards == [cards[0]] + cards[1..];
  }

  /** `for f in filters: cards = reduce_cards_data(cards, f)`. Only a card
      without a rarity can make a test raise, so a list whose cards all have
      one is always searched to the end. */
  function ReduceAll(cards: seq<IyCard>, filters: seq<string>): (r: Result<seq<IyCard>>)
    ensures (forall k :: 0 <= k < |cards| ==> cards[k].rarity.Some?) ==> r.Ok?
    ensures r.Crash? ==> r.fault == AttributeError && exists k :: 0 <= k < |cards| && cards[k].rarity.None?
    decreases |filters|
  {
    if |filters| == 0 then Ok(cards)
    else
      var first := Reduce(cards, filters[0]);
      if first.Crash? then
        var k :| 0 <= k < |cards| && KeepCard(cards[k], filters[0]).Crash?;
        Crash(first.fault)
      else
        var next := first.value;
        SubsequenceMembers(next, cards);
        assert forall k :: 0 <= k < |next| ==> next[k] in cards;
        ReduceAll(next, filters[1..])
  }

  /** The card passes every filter's test. */
  predicate PassesAll(c: IyCard, filters: seq<string>) {
    forall i :: 0 <= i < |filters| ==> KeepCard(c, filters[i]) == Ok(true)
  }

  /** The reference result of a search: the cards that pass every filter, in
      their original order. */
  function Passing(cards: seq<IyCard>, filters: seq<string>): seq<IyCard>
    decreases |cards|
  {
    if |cards| == 0 then []
    else (if PassesAll(cards[0], filters) then [cards[0]] else []) + Passing(cards[1..], filters)
  }

  /** One reduction that succeeds keeps exactly the passing cards. */
  lemma {:induction false} ReducePassing(cards: seq<IyCard>, f: string)
    requires Reduce(cards, f).Ok?
    ensures Reduce(cards, f).value == Passing(cards, [f])
    decreases |cards|
  {
    if |cards| > 0 {
      ReducePassing(cards[1..], f);
      PassesOne(cards[0], f);
    }
  }

  lemma PassesOne(c: IyCard, f: string)
    ensures PassesAll(c, [f]) <==> KeepCard(c, f) == Ok(true)
  {
    assert [f][0] == f;
  }

  /** Passing `[f] + fs` is passing `f` and then every filter of `fs`. */
  lemma PassesAllCons(c: IyCard, f: string, fs: seq<string>)
    ensures PassesAll(c, [f] + fs) <==> KeepCard(c, f) == Ok(true) && PassesAll(c, fs)
  {
    var all := [f] + fs;
    assert all[0] == f;
    assert forall i :: 0 <= i < |fs| ==> all[i + 1] == fs[i];
    if KeepCard(c, f) == Ok(true) && PassesAll(c, fs) {
      forall i | 0 <= i < |all|
        ensures KeepCard(c, all[i]) == Ok(true)
      {
        if i > 0 {
          assert all[i] == fs[i - 1];
        }
      }
    }
  }

  /** Filtering by `f`, then by `fs`, is filtering by `[f] + fs`. */
  lemma {:induction false} PassingCompose(cards: seq<IyCard>, f: string, fs: seq<string>)
    ensures Passing(Passing(cards, [f]), fs) == Passing(cards, [f] + fs)
    decreases |cards|
  {
    if |cards| > 0 {
      var c := cards[0];
      var once := Passing(cards, [f]);
      var tail := Passing(cards[1..], [f]);
      PassingCompose(cards[1..], f, fs);
      PassesOne(c, f);
      PassesAllCons(c, f, fs);
      if PassesAll(c, [f]) {
        assert once == [c] + tail;
        assert once[0] == c && once[1..] == tail;
      } else {
        assert once == tail;
      }
    }
  }

  /** A search that succeeds lists exactly the cards passing every filter, in
      their cached order. */
  lemma {:induction false} ReduceAllPassing(cards: seq<IyCard>, filters: seq<string>)
    requires ReduceAll(cards, filters).Ok?
    ensures ReduceAll(cards, filters).value == Passing(cards, filters)
    decreases |filters|
  {
    if |filters| == 0 {
      PassingNone(cards);
    } else {
      var f := filters[0];
      ReduceAllFirst(cards, filters);
      var next := Reduce(cards, f).value;
      ReducePassing(cards, f);
      ReduceAllPassing(next, filters[1..]);
      PassingCompose(cards, f, filters[1..]);
      assert [f] + filters[1..] == filters;
    }
  }

  /** A search that succeeds passed its first reduction and went on from its result. */
  lemma ReduceAllFirst(cards: seq<IyCard>, filters: seq<string>)
    requires |filters| > 0 && ReduceAll(cards, filters).Ok?
    ensures Reduce(cards, filters[0]).Ok?
    ensures ReduceAll(cards, filters) == ReduceAll(Reduce(cards, filters[0]).value, filters[1..])
  {
  }

  /** With no filters every card passes. */
  lemma {:induction false} PassingNone(cards: seq<IyCard>)
    ensures Passing(cards, []) == cards
    decreases |cards|
  {
    if |cards| > 0 {
      PassingNone(cards[1..]);
      assert cards == [cards[0]] + cards[1..];
    }
  }

  /** The fold keeps an order-preserving subsequence, and a card is kept
      exactly when it is in the input and passes every filter. */
  lemma {:induction false} ReduceAllMeaning(cards: seq<IyCard>, filters: seq<string>)
    ensures var r := ReduceAll(cards, filters);
      r.Ok? ==>
        && Subsequence(r.value, cards)
        && forall c :: c in r.value <==> c in cards && forall i :: 0 <= i < |filters| ==> KeepCard(c, filters[i]) == Ok(true)
    decreases |filters|
  {
    var r := ReduceAll(cards, filters);
    if |filters| == 0 {
      SubsequenceRefl(cards);
    } else if r.Ok? {
      var next := Reduce(cards, filters[0]).value;
      ReduceAllMeaning(next, filters[1..]);
      SubsequenceTrans(r.value, next, cards);
      forall c
        ensures c in r.value <==> c in cards && forall i :: 0 <= i < |filters| ==> KeepCard(c, filters[i]) == Ok(true)
      {
        if c in cards && forall i :: 0 <= i < |filters| ==> KeepCard(c, filters[i]) == Ok(true) {
          assert KeepCard(c, filters[0]) == Ok(true);
          assert c in next;
          forall i | 0 <= i < |filters[1..]|
            ensures KeepCard(c, filters[1..][i]) == Ok(true)
          {
            assert filters[1..][i] == filters[i + 1];
          }
        }
        if c in r.value {
          forall i | 0 <= i < |filters|
            ensures KeepCard(c, filters[i]) == Ok(true)
          {
            if i > 0 {
              assert filters[i] == filters[1..][i - 1];
            }
          }
        }
      }
    }
  }

  /** The display record `get_std_cards` builds from a raw card. */
  datatype Record = Record(
    id: string,
    names: seq<string>,
    descs: seq<string>,
    rules: seq<string>,
    ability: (Option<int>, Option<int>, Option<int>),
    faction: Option<string>,
    varieties: seq<string>,
    series: Option<string>,
    rarity: Option<string>,
    image: Option<string>)

  /** One record of `get_std_cards`. */
  function ToRecord(c: IyCard): (r: Record)
    ensures |r.names| == 1 && |r.descs| == 1 && |r.rules| == 1
    ensures r.names == [c.cname.GetOr("")] && r.descs == [c.cdesc.GetOr("")] && r.rules == [c.crule.GetOr("")]
    ensures r.id == c.gameid.GetOr("") && r.ability == (c.mana, c.attack, c.hp)
    ensures r.faction == c.faction && r.series == c.seriesName && r.rarity == c.rarity && r.image == c.img
    ensures forall t :: t in r.varieties <==> t != "" && (t == c.mainType || t == c.subType)
    ensures r.varieties == Kept(c.mainType) + Kept(c.subType)
  {
    DropEmptyCons(c.mainType, [c.subType]);
    DropEmptyCons(c.subType, []);
    assert forall t :: t in DropEmpty([c.mainType, c.subType]) <==> t != "" && t in [c.mainType, c.subType] by {
      forall t ensures t in DropEmpty([c.mainType, c.subType]) <==> t != "" && t in [c.mainType, c.subType] {
        DropEmptyMembers([c.mainType, c.subType], t);
      }
    }
    Record(
      id := c.gameid.GetOr(""),
      names := [c.cname.GetOr("")],
      descs := [c.cdesc.GetOr("")],
      rules := [c.crule.GetOr("")],
      ability := (c.mana, c.attack, c.hp),
      faction := c.faction,
      varieties := DropEmpty([c.mainType, c.subType]),
      series := c.seriesName,
      rarity := c.rarity,
      image := c.img)
  }

  /** The older engine's record and the iyingdi provider's card read the
      same fields of a raw card the same way; only the stats are kept raw
      (`None` where the provider writes 0) and the varieties are the types. */
  lemma RecordMatchesStdCard(c: IyCard)
    ensures var r := ToRecord(c);
      var s := Iyingdi.ToStdCard(c);
      && r.id == s.id && r.names == s.names && r.descs == s.descs && r.rules == s.rules
      && r.faction == s.faction && r.varieties == s.types && r.series == s.series
      && r.rarity == s.rarity && r.image == s.image
      && s.attributes == StdCards.Stats(r.ability.0.GetOr(0), r.ability.1.GetOr(0), r.ability.2.GetOr(0))
  {
  }

  /** `get_std_cards(cards)`: one record per card, in order. */
  function ToRecords(cards: seq<IyCard>): (r: seq<Record>)
    ensures |r| == |cards|
    ensures forall k :: 0 <= k < |r| ==> r[k] == ToRecord(cards[k])
  {
    seq(|cards|, k requires 0 <= k < |cards| => ToRecord(cards[k]))
  }

  /** `cards_search(filters)` on the cached list: the records of the cards
      that pass every filter, in cached order. It fails only on a cached card
      without a rarity. */
  function CardsSearch(vertical: seq<IyCard>, filters: seq<string>): (r: Result<seq<Record>>)
    ensures (forall k :: 0 <= k < |vertical| ==> vertical[k].rarity.Some?) ==> r.Ok?
    ensures r.Crash? ==> r.fault == AttributeError
    ensures r.Ok? ==> r.value == ToRecords(Passing(vertical, filters))
    ensures r.Ok? ==> |r.value| <= |vertical|
    ensures r.Ok? ==> forall k :: 0 <= k < |r.value| ==>
      exists c :: c in vertical && r.value[k] == ToRecord(c) && forall i :: 0 <= i < |filters| ==> KeepCard(c, filters[i]) == Ok(true)
  {
    ReduceAllMeaning(vertical, filters);
    var cards :- ReduceAll(vertical, filters);
    ReduceAllPassing(vertical, filters);
    SubsequenceMembers(cards, vertical);
    assert forall k :: 0 <= k < |cards| ==> cards[k] in cards;
    Ok(ToRecords(cards))
  }

  /** Without filters the search lists the whole cached list. */
  lemma CardsSearchAll(vertical: seq<IyCard>)
    ensures CardsSearch(vertical, []) == Ok(ToRecords(vertical))
  {
  }

  /** The class attributes `vertical` and `cdtime`; `None` while unset. */
  datatype Cache = Cache(vertical: Option<seq<IyCard>>, cdtime: Option<int>)

  const Unset := Cache(None, None)

  /** 23 hours, in seconds. */
  const Lifetime := 23 * 3600

  /** The cache needs a fetch: a field is unset or the expiry time has passed. */
  predicate Stale(st: Cache, now: int) {
    st.vertical.None? || st.cdtime.None? || now > st.cdtime.value
  }

  /** `get_vertical()` at time `now`. A fetch gives `fetched` and completes at
      time `after`, which sets the new expiry time. */
  function GetVertical(st: Cache, now: int, fetched: seq<IyCard>, after: int): (r: (Cache, seq<IyCard>))
    ensures Stale(st, now) ==> r.0 == Cache(Some(fetched), Some(after + Lifetime)) && r.1 == fetched
    ensures !Stale(st, now) ==> r.0 == st && r.1 == st.vertical.value
    ensures r.0.vertical == Some(r.1) && r.0.cdtime.Some?
  {
    if Stale(st, now) then (Cache(Some(fetched), Some(after + Lifetime)), fetched)
    else (st, st.vertical.value)
  }

  /** `load_vertical(path)`: the list read from disk, valid for 23 hours. */
  function LoadVertical(data: seq<IyCard>, now: int): (st: Cache)
    ensures !Stale(st, now) && !Stale(st, now + Lifetime) && Stale(st, now + Lifetime + 1)
  {
    Cache(Some(data), Some(now + Lifetime))
  }

  /** After a fetch, every call up to the new expiry time returns the same
      list without fetching again, whatever the fetch would have returned. */
  lemma CachedWithinLifetime(st: Cache, now: int, fetched: seq<IyCard>, after: int, later: int, other: seq<IyCard>, after': int)
    requires Stale(st, now)
    requires later <= after + Lifetime
    ensures var (st1, first) := GetVertical(st, now, fetched, after);
      GetVertical(st1, later, other, after') == (st1, first)
  {
  }

  /** Past the expiry time the next call fetches again. */
  lemma RefetchAfterExpiry(st: Cache, now: int, fetched: seq<IyCard>, after: int, later: int, other: seq<IyCard>, after': int)
    requires later > after + Lifetime
    requires Stale(st, now)
    ensures var (st1, _) := GetVertical(st, now, fetched, after);
      GetVertical(st1, later, other, after').1 == other
  {
  }

  /** `fetch_vertical()` after the request. */
  function FetchVertical(resp: Response<IyCard>): (cards: seq<IyCard>)
    ensures resp.success != Some(true) ==> cards == []
    ensures resp.success == Some(true) && resp.data.Some? && resp.data.value.cards.Some? ==> cards == resp.data.value.cards.value
    ensures resp.success == Some(true) && (resp.data.None? || resp.data.value.cards.None?) ==> cards == []
  {
    Unwrap(resp)
  }
}
