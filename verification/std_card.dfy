/** The provider-neutral card record (`TypeStdCard`, utils/engines/_base.py)
    and the voice entry (`TypeStdCardVoice`). */
module StdCards {
  import opened Wrappers
  import opened Text

  /** The (cost, attack, health) triple. */
  datatype Stats = Stats(cost: int, attack: int, health: int)

  /** `faction`, `series`, `rarity` and `image` come from `dict.get` and may be
      absent; the four evolved fields are absent for providers without an
      evolved printing. */
  datatype StdCard = StdCard(
    id: string,
    names: seq<string>,
    faction: Option<string>,
    types: seq<string>,
    series: Option<string>,
    rarity: Option<string>,
    descs: seq<string>,
    rules: seq<string>,
    attributes: Stats,
    image: Option<string>,
    evoDescs: Option<seq<string>>,
    evoRules: Option<seq<string>>,
    evoAttributes: Option<Stats>,
    evoImage: Option<string>)

  /** One playable voice line: what the card does and where the audio lives. */
  datatype Voice = Voice(action: Option<string>, voice: string)

  /** The invariant every converter establishes: a card has a display name. */
  predicate WellFormed(c: StdCard) {
    |c.names| >= 1
  }

  /** The record carries an evolved printing. */
  predicate HasEvolved(c: StdCard) {
    c.evoDescs.Some? && c.evoRules.Some? && c.evoAttributes.Some?
  }

  /** `[cls.to_std_card(card) for card in cards]`, shared by every provider's
      `to_std_cards`: one standard card per record, in order. */
  function ConvertAll<C>(convert: C -> StdCard, cards: seq<C>): (r: seq<StdCard>)
    ensures |r| == |cards|
    ensures forall k :: 0 <= k < |r| ==> r[k] == convert(cards[k])
  {
    seq(|cards|, k requires 0 <= k < |cards| => convert(cards[k]))
  }

  /** Python's `''.join(map(str, attributes))`: the three numbers written back to back. */
  function StatsText(a: Stats): string {
    IntToString(a.cost) + IntToString(a.attack) + IntToString(a.health)
  }

  /** Python's `f"{attributes}"` for a tuple of three integers: "(1, 2, 3)". */
  function StatsRepr(a: Stats): string {
    "(" + IntToString(a.cost) + ", " + IntToString(a.attack) + ", " + IntToString(a.health) + ")"
  }
}
