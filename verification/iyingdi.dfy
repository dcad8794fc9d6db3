/** The iyingdi provider (utils/engines/iyingdi.py): the response unwrapping
    and the card record turned into a `StdCard`. The provider has no evolved
    printing, so the four evolved fields are absent. */
module Iyingdi {
  import opened Wrappers
  import opened Text
  import opened StdCards

  /** One card of the vertical-search response, as parsed JSON; the legacy
      engine reads the same records. `mainType` and `subType` are taken as
      present strings. */
  datatype IyCard = IyCard(
    gameid: Option<string>,
    cname: Option<string>,
    jname: Option<string>,
    ename: Option<string>,
    cdesc: Option<string>,
    crule: Option<string>,
    jrule: Option<string>,
    erule: Option<string>,
    mana: Option<int>,
    attack: Option<int>,
    hp: Option<int>,
    faction: Option<string>,
    mainType: string,
    subType: string,
    seriesName: Option<string>,
    rarity: Option<string>,
    img: Option<string>)

  /** The response body: `{"success": …, "data": {"cards": […]}}`. */
  datatype Payload<T> = Payload(cards: Option<seq<T>>)
  datatype Response<T> = Response(success: Option<bool>, data: Option<Payload<T>>)

  /** `_fetch_data` after the request (and `fetch_vertical` of the legacy
      engine): the cards when the success flag is true, otherwise nothing. */
  function Unwrap<T>(r: Response<T>): (cards: seq<T>)
    ensures r.success != Some(true) ==> cards == []
    ensures r.success == Some(true) && r.data.Some? && r.data.value.cards.Some? ==> cards == r.data.value.cards.value
    ensures r.success == Some(true) && (r.data.None? || r.data.value.cards.None?) ==> cards == []
  {
    if r.success.GetOr(false) then r.data.GetOr(Payload(None)).cards.GetOr([]) else []
  }

  /** `to_std_card(card)`. */
  function ToStdCard(c: IyCard): (s: StdCard)
    ensures WellFormed(s) && !HasEvolved(s)
    ensures s.evoDescs.None? && s.evoRules.None? && s.evoAttributes.None? && s.evoImage.None?
    ensures s.id == c.gameid.GetOr("") && s.names == [c.cname.GetOr("")]
    ensures s.descs == [c.cdesc.GetOr("")] && s.rules == [c.crule.GetOr("")]
    ensures s.attributes == Stats(c.mana.GetOr(0), c.attack.GetOr(0), c.hp.GetOr(0))
    ensures s.faction == c.faction && s.series == c.seriesName && s.rarity == c.rarity && s.image == c.img
    ensures forall t :: t in s.types <==> t != "" && (t == c.mainType || t == c.subType)
    ensures s.types == Kept(c.mainType) + Kept(c.subType)
    ensures |s.types| <= 2
  {
    DropEmptyCons(c.mainType, [c.subType]);
    DropEmptyCons(c.subType, []);
    assert forall t :: t in DropEmpty([c.mainType, c.subType]) <==> t != "" && t in [c.mainType, c.subType] by {
      forall t ensures t in DropEmpty([c.mainType, c.subType]) <==> t != "" && t in [c.mainType, c.subType] {
        DropEmptyMembers([c.mainType, c.subType], t);
      }
    }
    StdCard(
      id := c.gameid.GetOr(""),
      names := [c.cname.GetOr("")],
      faction := c.faction,
      types := DropEmpty([c.mainType, c.subType]),
      series := c.seriesName,
      rarity := c.rarity,
      descs := [c.cdesc.GetOr("")],
      rules := [c.crule.GetOr("")],
      attributes := Stats(c.mana.GetOr(0), c.attack.GetOr(0), c.hp.GetOr(0)),
      image := c.img,
      evoDescs := None,
      evoRules := None,
      evoAttributes := None,
      evoImage := None)
  }

  /** Unlike svgdb, a '-' type is kept: only empty strings are dropped. */
  lemma DashTypeKept(c: IyCard)
    requires c.mainType == "-" && c.subType == ""
    ensures ToStdCard(c).types == ["-"]
  {
    assert [c.mainType, c.subType][1..] == [""];
    assert DropEmpty([""]) == [];
  }

  /** `to_std_cards(cards)`: one card per input card, in order. */
  function ToStdCards(cards: seq<IyCard>): (r: seq<StdCard>)
    ensures |r| == |cards|
    ensures forall k :: 0 <= k < |r| ==> r[k] == ToStdCard(cards[k])
    ensures forall k :: 0 <= k < |r| ==> WellFormed(r[k]) && !HasEvolved(r[k]) && r[k].id == cards[k].gameid.GetOr("")
  {
    ConvertAll(ToStdCard, cards)
  }
}
