/** The bagoum provider (utils/engines/_bagoum.py and its locale subclasses in
    utils/engines/bagoum.py): the JSON card record turned into a `StdCard`,
    the race parsers and image URL builders of the three locales, and the
    rows of the voice table. The HTML parse itself is not modelled: a row is
    its first cell's text and its first audio source. */
module Bagoum {
  import opened Wrappers
  import opened Text
  import opened StdCards

  /** `bagoum_en`, `bagoum_jp` and `bagoum_tw`. */
  datatype Locale = En | Ja | Tw

  /** The path segment of a locale's image URLs. */
  function Segment(loc: Locale): string {
    match loc
    case En => "en"
    case Ja => "ja"
    case Tw => "zh-tw"
  }

  /** The separator `_parse_race` splits on: " / ", '・' or '‧'. */
  function RaceSeparator(loc: Locale): string {
    match loc
    case En => " / "
    case Ja => "\U{30fb}"
    case Tw => "\U{2027}"
  }

  /** `_parse_race(race)` of a locale. */
  function ParseRace(loc: Locale, race: string): (parts: seq<string>)
    ensures |parts| >= 1
    ensures Join(parts, RaceSeparator(loc)) == race
    ensures forall k :: 0 <= k < |parts| ==> !Contains(parts[k], RaceSeparator(loc))
  {
    SplitPartsFree(race, RaceSeparator(loc));
    Split(race, RaceSeparator(loc))
  }

  /** For the one-character separators, parsing a race joined from
      separator-free parts gives the parts back. */
  lemma ParseRaceJoin(loc: Locale, parts: seq<string>)
    requires loc != En
    requires |parts| >= 1
    requires forall k :: 0 <= k < |parts| ==> RaceSeparator(loc)[0] !in parts[k]
    ensures ParseRace(loc, Join(parts, RaceSeparator(loc))) == parts
  {
    SplitJoin(parts, RaceSeparator(loc)[0]);
    assert [RaceSeparator(loc)[0]] == RaceSeparator(loc);
  }

  /** The image folder: "https://sv.bagoum.com/cardF/<loc>/". */
  function CardsHead(loc: Locale): string {
    "https://sv.bagoum.com/cardF/" + Segment(loc) + "/"
  }

  /** `_get_image_url_by_id`: "…/cardF/<loc>/c/<id>". */
  function ImageUrl(loc: Locale, id: string): string {
    CardsHead(loc) + ("c/" + id)
  }

  /** `_get_evo_image_url_by_id`: "…/cardF/<loc>/e/<id>". */
  function EvoImageUrl(loc: Locale, id: string): string {
    CardsHead(loc) + ("e/" + id)
  }

  /** The id read back from an image URL of the locale with the given letter
      ('c' for the base printing, 'e' for the evolved one). */
  function IdOfUrl(loc: Locale, letter: char, url: string): Option<string> {
    var h := CardsHead(loc);
    if |url| >= |h| + 2 && url[..|h|] == h && url[|h|..|h| + 2] == [letter, '/']
    then Some(url[|h| + 2..])
    else None
  }

  lemma HeadedParts(h: string, a: string, id: string)
    requires |a| == 2
    ensures var u := h + (a + id);
      |u| == |h| + 2 + |id| && u[..|h|] == h && u[|h|..|h| + 2] == a && u[|h| + 2..] == id
  {
  }

  /** The id is recovered from both URLs, and the base and evolved URLs are
      never confused. */
  lemma ImageUrlRoundTrip(loc: Locale, id: string)
    ensures IdOfUrl(loc, 'c', ImageUrl(loc, id)) == Some(id)
    ensures IdOfUrl(loc, 'e', EvoImageUrl(loc, id)) == Some(id)
    ensures IdOfUrl(loc, 'e', ImageUrl(loc, id)) == None
    ensures IdOfUrl(loc, 'c', EvoImageUrl(loc, id)) == None
  {
    var h := CardsHead(loc);
    HeadedParts(h, "c/", id);
    HeadedParts(h, "e/", id);
  }

  /** `baseData` / `evoData`: every key may be absent. */
  datatype Data = Data(description: Option<string>, flair: Option<string>, attack: Option<int>, defense: Option<int>)

  const NoData := Data(None, None, None, None)

  /** `TypeBagoumCard` as parsed JSON. `type` is taken as a present string. */
  datatype BagoumCard = BagoumCard(
    id: Option<string>,
    name: Option<string>,
    faction: Option<string>,
    typ: string,
    race: Option<string>,
    expansion: Option<string>,
    rarity: Option<string>,
    manaCost: Option<int>,
    baseData: Option<Data>,
    evoData: Option<Data>)

  /** The text fields of `card.get(key, {})` split on "<br>". */
  function Paragraphs(text: Option<string>): (parts: seq<string>)
    ensures |parts| >= 1
    ensures Join(parts, "<br>") == text.GetOr("")
    ensures forall k :: 0 <= k < |parts| ==> !Contains(parts[k], "<br>")
  {
    SplitPartsFree(text.GetOr(""), "<br>");
    Split(text.GetOr(""), "<br>")
  }

  /** The types: the card type, then the race's parts, empty strings dropped. */
  function Types(loc: Locale, c: BagoumCard): (types: seq<string>)
    ensures forall t :: t in types <==> t != "" && (t == c.typ || t in ParseRace(loc, c.race.GetOr("")))
    ensures types == Kept(c.typ) + DropEmpty(ParseRace(loc, c.race.GetOr("")))
  {
    DropEmptyCons(c.typ, ParseRace(loc, c.race.GetOr("")));
    var all := [c.typ] + ParseRace(loc, c.race.GetOr(""));
    assert forall t :: t in DropEmpty(all) <==> t != "" && t in all by {
      forall t ensures t in DropEmpty(all) <==> t != "" && t in all {
        DropEmptyMembers(all, t);
      }
    }
    DropEmpty(all)
  }

  /** `str(x)` of the optional id inside an f-string. */
  function IdText(id: Option<string>): string {
    ShowOr(id)
  }

  /** `to_std_card(card)` of a locale. */
  function ToStdCard(loc: Locale, c: BagoumCard): (s: StdCard)
    ensures WellFormed(s) && HasEvolved(s) && |s.names| == 1
    ensures s.id == c.id.GetOr("") && s.names == [c.name.GetOr("")]
    ensures s.faction == c.faction && s.series == c.expansion && s.rarity == c.rarity
    ensures s.types == Types(loc, c)
    ensures s.attributes == Stats(c.manaCost.GetOr(0), c.baseData.GetOr(NoData).attack.GetOr(0), c.baseData.GetOr(NoData).defense.GetOr(0))
    ensures s.evoAttributes == Some(Stats(c.manaCost.GetOr(0), c.evoData.GetOr(NoData).attack.GetOr(0), c.evoData.GetOr(NoData).defense.GetOr(0)))
    ensures Join(s.descs, "<br>") == c.baseData.GetOr(NoData).flair.GetOr("")
    ensures Join(s.rules, "<br>") == c.baseData.GetOr(NoData).description.GetOr("")
    ensures Join(s.evoDescs.value, "<br>") == c.evoData.GetOr(NoData).flair.GetOr("")
    ensures Join(s.evoRules.value, "<br>") == c.evoData.GetOr(NoData).description.GetOr("")
    ensures s.evoAttributes.value.cost == s.attributes.cost
    ensures forall t :: t in s.types ==> t != ""
    ensures s.image.Some? && IdOfUrl(loc, 'c', s.image.value) == Some(IdText(c.id))
    ensures s.evoImage.Some? && IdOfUrl(loc, 'e', s.evoImage.value) == Some(IdText(c.id))
  {
    var base := c.baseData.GetOr(NoData);
    var evo := c.evoData.GetOr(NoData);
    ImageUrlRoundTrip(loc, IdText(c.id));
    StdCard(
      id := c.id.GetOr(""),
      names := [c.name.GetOr("")],
      faction := c.faction,
      types := Types(loc, c),
      series := c.expansion,
      rarity := c.rarity,
      descs := Paragraphs(base.flair),
      rules := Paragraphs(base.description),
      attributes := Stats(c.manaCost.GetOr(0), base.attack.GetOr(0), base.defense.GetOr(0)),
      image := Some(ImageUrl(loc, IdText(c.id))),
      evoDescs := Some(Paragraphs(evo.flair)),
      evoRules := Some(Paragraphs(evo.description)),
      evoAttributes := Some(Stats(c.manaCost.GetOr(0), evo.attack.GetOr(0), evo.defense.GetOr(0))),
      evoImage := Some(EvoImageUrl(loc, IdText(c.id))))
  }

  /** A card with no evolved data still gets an evolved printing: one empty
      description, one empty rule, and the base cost with zero attack and
      defense. */
  lemma MissingEvoData(loc: Locale, c: BagoumCard)
    requires c.evoData.None?
    ensures var s := ToStdCard(loc, c);
      s.evoDescs == Some([""]) && s.evoRules == Some([""]) && s.evoAttributes == Some(Stats(c.manaCost.GetOr(0), 0, 0))
  {
  }

  /** `to_std_cards(cards)`: one card per dict value, in value order. */
  function ToStdCards(loc: Locale, cards: seq<BagoumCard>): (r: seq<StdCard>)
    ensures |r| == |cards|
    ensures forall k :: 0 <= k < |r| ==> r[k] == ToStdCard(loc, cards[k])
    ensures forall k :: 0 <= k < |r| ==> WellFormed(r[k]) && HasEvolved(r[k]) && r[k].id == cards[k].id.GetOr("")
  {
    ConvertAll(c => ToStdCard(loc, c), cards)
  }

  /** One row of the voice table: the first cell's text and the first audio
      source's `src` attribute, which may be absent. */
  datatype Row = Row(cell: string, src: Option<string>)

  const Host := "https://sv.bagoum.com"

  /** The voice of one row: the stripped cell and the source on the site's host. */
  function RowVoice(row: Row): Voice {
    Voice(Some(Strip(row.cell)), Host + ShowOr(row.src))
  }

  /** `get_std_card_voices` after the fetch and the HTML parse: no rows give
      no voices; otherwise the header row is dropped. */
  function CardVoices(rows: seq<Row>): (r: seq<Voice>)
    ensures |rows| == 0 ==> r == []
    ensures |rows| > 0 ==> |r| == |rows| - 1
    ensures forall k :: 0 <= k < |r| ==> r[k] == RowVoice(rows[k + 1])
  {
    if |rows| == 0 then []
    else seq(|rows| - 1, k requires 0 <= k < |rows| - 1 => RowVoice(rows[k + 1]))
  }

  /** Every voice URL is on the site's host and names its row's source, and
      no action carries surrounding whitespace. */
  lemma CardVoicesSources(rows: seq<Row>)
    ensures var r := CardVoices(rows);
      forall k :: 0 <= k < |r| ==>
        && IsPrefix(Host, r[k].voice) && r[k].voice[|Host|..] == ShowOr(rows[k + 1].src)
        && r[k].action.Some? && (|r[k].action.value| > 0 ==> !IsSpace(r[k].action.value[0]))
  {
  }
}
