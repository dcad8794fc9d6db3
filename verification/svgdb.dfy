/** The svgdb provider (utils/engines/_svgdb.py and its locale subclasses in
    utils/engines/svgdb.py): the JSON card record turned into a `StdCard`,
    the URL builders of the two locales, and the voice list with its action
    names. The translation tables are opaque maps. */
module Svgdb {
  import opened Wrappers
  import opened Text
  import opened StdCards

  /** The two locale subclasses `svgdb_en` and `svgdb_jp`. */
  datatype Locale = En | Jp

  /** The path segment of a locale. */
  function Segment(loc: Locale): string {
    match loc
    case En => "en"
    case Jp => "jp"
  }

  /** `TypeSVGCard` as parsed JSON: every key read with `dict.get` may be
      absent. `type_` and `trait_` are taken as present strings. */
  datatype SvgCard = SvgCard(
    id: Option<int>,
    name: Option<string>,
    craft: Option<string>,
    typ: string,
    traitText: string,
    expansion: Option<string>,
    rarity: Option<string>,
    baseFlair: Option<string>,
    baseEffect: Option<string>,
    pp: Option<int>,
    baseAtk: Option<int>,
    baseDef: Option<int>,
    evoFlair: Option<string>,
    evoEffect: Option<string>,
    evoAtk: Option<int>,
    evoDef: Option<int>)

  /** `_parse_trait`: the trait split on the locale's separator, " / " for
      English and '・' for Japanese. */
  function TraitSeparator(loc: Locale): string {
    match loc
    case En => " / "
    case Jp => "\U{30fb}"
  }

  function ParseTrait(loc: Locale, text: string): (parts: seq<string>)
    ensures |parts| >= 1
    ensures Join(parts, TraitSeparator(loc)) == text
    ensures forall k :: 0 <= k < |parts| ==> !Contains(parts[k], TraitSeparator(loc))
  {
    SplitPartsFree(text, TraitSeparator(loc));
    Split(text, TraitSeparator(loc))
  }

  /** Traits joined from separator-free parts parse back into those parts
      (Japanese, one-character separator). */
  lemma ParseTraitJoin(parts: seq<string>)
    requires |parts| >= 1
    requires forall k :: 0 <= k < |parts| ==> '\U{30fb}' !in parts[k]
    ensures ParseTrait(Jp, Join(parts, "\U{30fb}")) == parts
  {
    SplitJoin(parts, '\U{30fb}');
  }

  /** An asset folder of a locale: "https://svgdb.me/assets/<folder>/<loc>/". */
  function AssetsHead(folder: string, loc: Locale): (h: string)
    ensures |h| == |folder| + 28
  {
    "https://svgdb.me/assets/" + folder + "/" + Segment(loc) + "/"
  }

  /** The image folder of a locale. */
  function CardsHead(loc: Locale): string {
    AssetsHead("cards", loc)
  }

  /** `_get_image_url_by_id`: "…/cards/<loc>/C_<id>.png". */
  function ImageUrl(loc: Locale, id: string): string {
    CardsHead(loc) + ("C_" + (id + ".png"))
  }

  /** `_get_evo_image_url_by_id`: "…/cards/<loc>/E_<id>.png". */
  function EvoImageUrl(loc: Locale, id: string): string {
    CardsHead(loc) + ("E_" + (id + ".png"))
  }

  /** The id read back from an image URL of the locale with the given
      letter ('C' for the base printing, 'E' for the evolved one). */
  function IdOfUrl(loc: Locale, letter: char, url: string): Option<string> {
    var h := CardsHead(loc);
    if |url| >= |h| + 6 && url[..|h|] == h && url[|h|..|h| + 2] == [letter, '_'] && url[|url| - 4..] == ".png"
    then Some(url[|h| + 2..|url| - 4])
    else None
  }

  lemma HeadedParts(h: string, a: string, id: string, b: string)
    requires |a| == 2 && |b| == 4
    ensures var u := h + (a + (id + b));
      |u| == |h| + 6 + |id| && u[..|h|] == h && u[|h|..|h| + 2] == a && u[|u| - 4..] == b && u[|h| + 2..|u| - 4] == id
  {
  }

  /** The id is recovered from both URLs, and a base image URL is never read
      as an evolved one, or the other way round. */
  lemma ImageUrlRoundTrip(loc: Locale, id: string)
    ensures IdOfUrl(loc, 'C', ImageUrl(loc, id)) == Some(id)
    ensures IdOfUrl(loc, 'E', EvoImageUrl(loc, id)) == Some(id)
    ensures IdOfUrl(loc, 'E', ImageUrl(loc, id)) == None
    ensures IdOfUrl(loc, 'C', EvoImageUrl(loc, id)) == None
  {
    var h := CardsHead(loc);
    HeadedParts(h, "C_", id, ".png");
    HeadedParts(h, "E_", id, ".png");
  }

  /** The two locales never share an image URL: they differ in the segment. */
  lemma LocalesApart(id: string, id': string)
    ensures ImageUrl(En, id) != ImageUrl(Jp, id')
    ensures EvoImageUrl(En, id) != EvoImageUrl(Jp, id')
  {
    assert ImageUrl(En, id)[30] == 'e';
    assert ImageUrl(Jp, id')[30] == 'j';
    assert EvoImageUrl(En, id)[30] == 'e';
    assert EvoImageUrl(Jp, id')[30] == 'j';
  }

  /** The audio folder of a locale. */
  function AudioHead(loc: Locale): string {
    AssetsHead("audio", loc)
  }

  /** `_get_voice_url_by_file`. */
  function VoiceUrl(loc: Locale, file: string): (url: string)
    ensures IsPrefix(AudioHead(loc), url)
  {
    AudioHead(loc) + file
  }

  /** The file named by a voice URL of the locale. */
  function FileOfVoiceUrl(loc: Locale, url: string): Option<string> {
    if IsPrefix(AudioHead(loc), url) then Some(url[|AudioHead(loc)|..]) else None
  }

  lemma VoiceUrlRoundTrip(loc: Locale, file: string)
    ensures FileOfVoiceUrl(loc, VoiceUrl(loc, file)) == Some(file)
  {
  }

  /** `str(x)` inside an f-string for the optional integer id: "None" when absent. */
  function IdText(id: Option<int>): string {
    match id
    case Some(n) => IntToString(n)
    case None => "None"
  }

  /** `list(filter(lambda x: x not in ['', '-'], types))`. */
  function DropPlaceholders(xs: seq<string>): (r: seq<string>)
    ensures forall k :: 0 <= k < |r| ==> r[k] != "" && r[k] != "-"
    ensures |r| <= |xs|
    decreases |xs|
  {
    if |xs| == 0 then []
    else if xs[0] == "" || xs[0] == "-" then DropPlaceholders(xs[1..])
    else [xs[0]] + DropPlaceholders(xs[1..])
  }

  /** What the placeholder filter keeps of one element. */
  function Real(x: string): (r: seq<string>)
    ensures |r| <= 1 && (r == [] <==> x == "" || x == "-")
  {
    if x == "" || x == "-" then [] else [x]
  }

  /** The placeholder filter keeps order: the first element's fate, then the rest's. */
  lemma DropPlaceholdersCons(x: string, xs: seq<string>)
    ensures DropPlaceholders([x] + xs) == Real(x) + DropPlaceholders(xs)
  {
    assert ([x] + xs)[1..] == xs;
  }

  /** A type is shown exactly when it is in the input and not a placeholder. */
  lemma {:induction false} DropPlaceholdersMembers(xs: seq<string>, x: string)
    ensures x in DropPlaceholders(xs) <==> x in xs && x != "" && x != "-"
    decreases |xs|
  {
    if |xs| > 0 {
      DropPlaceholdersMembers(xs[1..], x);
      assert xs == [xs[0]] + xs[1..];
    }
  }

  /** Real types pass through unchanged and in order. */
  lemma {:induction false} DropPlaceholdersKeeps(xs: seq<string>)
    requires forall k :: 0 <= k < |xs| ==> xs[k] != "" && xs[k] != "-"
    ensures DropPlaceholders(xs) == xs
    decreases |xs|
  {
    if |xs| > 0 {
      DropPlaceholdersKeeps(xs[1..]);
      assert [xs[0]] + xs[1..] == xs;
    }
  }

  /** The two type fields of a card, filtered: in order, and exactly the real ones. */
  lemma PlaceholderPair(a: string, b: string)
    ensures DropPlaceholders([a, b]) == Real(a) + Real(b)
    ensures forall t :: t in DropPlaceholders([a, b]) <==> (t == a || t == b) && t != "" && t != "-"
  {
    DropPlaceholdersCons(a, [b]);
    DropPlaceholdersCons(b, []);
    forall t ensures t in DropPlaceholders([a, b]) <==> (t == a || t == b) && t != "" && t != "-" {
      DropPlaceholdersMembers([a, b], t);
    }
  }

  /** `to_std_card(card)` of a locale. */
  function ToStdCard(loc: Locale, c: SvgCard): (s: StdCard)
    ensures WellFormed(s) && HasEvolved(s)
    ensures |s.names| == 1 && |s.descs| == 1 && |s.rules| == 1
    ensures |s.evoDescs.value| == 1 && |s.evoRules.value| == 1
    ensures s.evoAttributes.value.cost == s.attributes.cost
    ensures s.id == "" <==> c.id.None?
    ensures c.id.Some? ==> s.id == IntToString(c.id.value)
    ensures s.names == [c.name.GetOr("")] && s.faction == c.craft && s.series == c.expansion && s.rarity == c.rarity
    ensures s.descs == [c.baseFlair.GetOr("")] && s.rules == [c.baseEffect.GetOr("")]
    ensures s.evoDescs == Some([c.evoFlair.GetOr("")]) && s.evoRules == Some([c.evoEffect.GetOr("")])
    ensures s.attributes == Stats(c.pp.GetOr(0), c.baseAtk.GetOr(0), c.baseDef.GetOr(0))
    ensures s.evoAttributes == Some(Stats(c.pp.GetOr(0), c.evoAtk.GetOr(0), c.evoDef.GetOr(0)))
    ensures s.types == Real(c.typ) + Real(c.traitText)
    ensures forall t :: t in s.types <==> (t == c.typ || t == c.traitText) && t != "" && t != "-"
    ensures s.image.Some? && IdOfUrl(loc, 'C', s.image.value) == Some(IdText(c.id))
    ensures s.evoImage.Some? && IdOfUrl(loc, 'E', s.evoImage.value) == Some(IdText(c.id))
  {
    var idText := IdText(c.id);
    ImageUrlRoundTrip(loc, idText);
    PlaceholderPair(c.typ, c.traitText);
    StdCard(
      id := if c.id.Some? then IntToString(c.id.value) else "",
      names := [c.name.GetOr("")],
      faction := c.craft,
      types := DropPlaceholders([c.typ, c.traitText]),
      series := c.expansion,
      rarity := c.rarity,
      descs := [c.baseFlair.GetOr("")],
      rules := [c.baseEffect.GetOr("")],
      attributes := Stats(c.pp.GetOr(0), c.baseAtk.GetOr(0), c.baseDef.GetOr(0)),
      image := Some(ImageUrl(loc, idText)),
      evoDescs := Some([c.evoFlair.GetOr("")]),
      evoRules := Some([c.evoEffect.GetOr("")]),
      evoAttributes := Some(Stats(c.pp.GetOr(0), c.evoAtk.GetOr(0), c.evoDef.GetOr(0))),
      evoImage := Some(EvoImageUrl(loc, idText)))
  }

  /** `to_std_cards(cards)`: one card per dict value, in value order, each
      with both printings at one cost and an image URL naming its record's id. */
  function ToStdCards(loc: Locale, cards: seq<SvgCard>): (r: seq<StdCard>)
    ensures |r| == |cards|
    ensures forall k :: 0 <= k < |r| ==> r[k] == ToStdCard(loc, cards[k])
    ensures forall k :: 0 <= k < |r| ==>
      && WellFormed(r[k]) && HasEvolved(r[k])
      && r[k].evoAttributes.value.cost == r[k].attributes.cost
      && r[k].image.Some? && IdOfUrl(loc, 'C', r[k].image.value) == Some(IdText(cards[k].id))
  {
    ConvertAll(c => ToStdCard(loc, c), cards)
  }

  /** The translation table of a locale, as `cls._translation.get(key)`. */
  type Translation = map<string, string>

  function Tr(tr: Translation, key: string): Option<string> {
    if key in tr then Some(tr[key]) else None
  }

  /** `f"{action} ({evolve})"`. */
  function EvolveSuffix(tr: Translation): string {
    " (" + ShowOr(Tr(tr, "evolve")) + ")"
  }

  function WithEvolve(tr: Translation, action: Option<string>): Option<string> {
    Some(ShowOr(action) + EvolveSuffix(tr))
  }

  /** The keys with their own rule; every other key is its own action. */
  predicate KnownKey(key: string) {
    key in {"plays", "attacks", "evolves", "deaths", "effects", "other"}
  }

  /** The action of one voice file under key `key`. Indexing `file[8]` of an
      "other" file of eight characters or fewer raises IndexError. */
  function ActionOf(tr: Translation, key: string, file: string): (r: Result<Option<string>>)
    ensures r.Crash? <==> key == "other" && |file| <= 8
    ensures r.Crash? ==> r.fault == IndexError
    ensures !KnownKey(key) ==> r == Ok(Some(key))
    ensures key == "attacks" || key == "deaths" ==>
      && r.Ok?
      && (Contains(file, "evo") ==> r.value.Some? && IsSuffix(EvolveSuffix(tr), r.value.value))
      && (!Contains(file, "evo") ==> r.value == Tr(tr, if key == "attacks" then "attack" else "death"))
    ensures (key == "attacks" || key == "deaths") && Contains(file, "evo") ==>
      r == Ok(Some(ShowOr(Tr(tr, if key == "attacks" then "attack" else "death")) + EvolveSuffix(tr)))
    ensures key == "evolves" ==> r == Ok(Tr(tr, "evolve"))
    ensures key == "effects" ==> r == Ok(Tr(tr, "effectVoice"))
    ensures key == "plays" ==> r == Ok(Tr(tr, if Contains(file, "enh") then "enhance" else "play"))
    ensures key == "other" && |file| > 8 ==> r == Ok(Tr(tr, if file[8] == '4' then "accelerate" else "crystallize"))
  {
    if key == "plays" then
      if Contains(file, "enh") then Ok(Tr(tr, "enhance")) else Ok(Tr(tr, "play"))
    else if key == "attacks" then
      if Contains(file, "evo") then Ok(WithEvolve(tr, Tr(tr, "attack"))) else Ok(Tr(tr, "attack"))
    else if key == "evolves" then Ok(Tr(tr, "evolve"))
    else if key == "deaths" then
      if Contains(file, "evo") then Ok(WithEvolve(tr, Tr(tr, "death"))) else Ok(Tr(tr, "death"))
    else if key == "effects" then Ok(Tr(tr, "effectVoice"))
    else if key == "other" then
      if |file| <= 8 then Crash(IndexError)
      else if file[8] == '4' then Ok(Tr(tr, "accelerate"))
      else Ok(Tr(tr, "crystallize"))
    else Ok(Some(key))
  }

  /** An evolved attack or death voice is labelled with the plain voice's
      action followed by the evolve word in brackets. */
  lemma EvolvedActionExtends(tr: Translation, key: string, plain: string, evolved: string)
    requires key == "attacks" || key == "deaths"
    requires !Contains(plain, "evo") && Contains(evolved, "evo")
    ensures ActionOf(tr, key, evolved) == Ok(Some(ShowOr(ActionOf(tr, key, plain).value) + EvolveSuffix(tr)))
  {
  }

  /** The voice lists of one card, keyed by kind. */
  type RawVoices = seq<(string, seq<string>)>

  /** The pairs of one kind: its key with each of its files, in order. */
  function KindPairs(kind: (string, seq<string>)): (pairs: seq<(string, string)>)
    ensures |pairs| == |kind.1| && forall j :: 0 <= j < |kind.1| ==> pairs[j] == (kind.0, kind.1[j])
  {
    seq(|kind.1|, j requires 0 <= j < |kind.1| => (kind.0, kind.1[j]))
  }

  /** The number of files over all kinds. */
  function FileCount(raw: RawVoices): nat
    decreases |raw|
  {
    if |raw| == 0 then 0 else |raw[0].1| + FileCount(raw[1..])
  }

  /** `[(k, v) for k in svg_voices for v in svg_voices[k]]`: one pair per
      file, the first kind's files first and in list order. */
  function Flatten(raw: RawVoices): (pairs: seq<(string, string)>)
    ensures |pairs| == FileCount(raw)
    ensures |raw| > 0 ==> forall j :: 0 <= j < |raw[0].1| ==> pairs[j] == (raw[0].0, raw[0].1[j])
    ensures forall p :: p in pairs <==> exists i :: 0 <= i < |raw| && raw[i].0 == p.0 && p.1 in raw[i].1
    decreases |raw|
  {
    if |raw| == 0 then []
    else
      var head := KindPairs(raw[0]);
      var rest := Flatten(raw[1..]);
      assert forall p :: p in head <==> p.0 == raw[0].0 && p.1 in raw[0].1 by {
        forall p: (string, string) | p.0 == raw[0].0 && p.1 in raw[0].1 ensures p in head {
          var j :| 0 <= j < |raw[0].1| && raw[0].1[j] == p.1;
          assert head[j] == p;
        }
      }
      assert forall p :: p in rest <==> exists i :: 1 <= i < |raw| && raw[i].0 == p.0 && p.1 in raw[i].1 by {
        forall p | p in rest ensures exists i :: 1 <= i < |raw| && raw[i].0 == p.0 && p.1 in raw[i].1 {
          var i :| 0 <= i < |raw[1..]| && raw[1..][i].0 == p.0 && p.1 in raw[1..][i].1;
          assert raw[i + 1] == raw[1..][i];
        }
        forall p: (string, string) | exists i :: 1 <= i < |raw| && raw[i].0 == p.0 && p.1 in raw[i].1 ensures p in rest {
          var i :| 1 <= i < |raw| && raw[i].0 == p.0 && p.1 in raw[i].1;
          assert raw[1..][i - 1] == raw[i];
        }
      }
      head + rest
  }

  /** The kinds are flattened one after another: with the first-kind clause
      of `Flatten`, this fixes every pair's position. */
  lemma {:induction false} FlattenAppend(a: RawVoices, b: RawVoices)
    ensures Flatten(a + b) == Flatten(a) + Flatten(b)
    decreases |a|
  {
    if |a| == 0 {
      assert a + b == b;
    } else {
      var ab := a + b;
      assert ab[0] == a[0] && ab[1..] == a[1..] + b;
      FlattenAppend(a[1..], b);
      FlattenHead(ab);
      FlattenHead(a);
      AppendAssoc(KindPairs(a[0]), Flatten(a[1..]), Flatten(b));
    }
  }

  lemma AppendAssoc<T>(x: seq<T>, y: seq<T>, z: seq<T>)
    ensures x + (y + z) == (x + y) + z
  {
  }

  /** The pairs of a non-empty list: its first kind's pairs, then the rest. */
  lemma FlattenHead(raw: RawVoices)
    requires |raw| > 0
    ensures Flatten(raw) == KindPairs(raw[0]) + Flatten(raw[1..])
  {
  }

  /** The voices of a list of (key, file) pairs, one per pair, in order. */
  function VoicesOf(loc: Locale, tr: Translation, pairs: seq<(string, string)>): (r: Result<seq<Voice>>)
    ensures r.Crash? <==> exists k :: 0 <= k < |pairs| && pairs[k].0 == "other" && |pairs[k].1| <= 8
    ensures r.Ok? ==> |r.value| == |pairs|
    ensures r.Ok? ==> forall k :: 0 <= k < |pairs| ==>
      r.value[k].voice == VoiceUrl(loc, pairs[k].1) && ActionOf(tr, pairs[k].0, pairs[k].1) == Ok(r.value[k].action)
    decreases |pairs|
  {
    if |pairs| == 0 then Ok([])
    else
      var action :- ActionOf(tr, pairs[0].0, pairs[0].1);
      var rest :- VoicesOf(loc, tr, pairs[1..]);
      var voices := [Voice(action, VoiceUrl(loc, pairs[0].1))] + rest;
      assert forall k :: 1 <= k < |pairs| ==> pairs[k] == pairs[1..][k - 1] && voices[k] == rest[k - 1];
      Ok(voices)
  }

  /** `get_std_card_voices` after the fetch. */
  function CardVoices(loc: Locale, tr: Translation, raw: RawVoices): (r: Result<seq<Voice>>)
    ensures r.Ok? ==> |r.value| == |Flatten(raw)|
    ensures r.Ok? ==> forall k :: 0 <= k < |r.value| ==> FileOfVoiceUrl(loc, r.value[k].voice) == Some(Flatten(raw)[k].1)
  {
    var r := VoicesOf(loc, tr, Flatten(raw));
    assert r.Ok? ==> forall k :: 0 <= k < |r.value| ==> FileOfVoiceUrl(loc, r.value[k].voice) == Some(Flatten(raw)[k].1) by {
      if r.Ok? {
        forall k | 0 <= k < |r.value| ensures FileOfVoiceUrl(loc, r.value[k].voice) == Some(Flatten(raw)[k].1) {
          VoiceUrlRoundTrip(loc, Flatten(raw)[k].1);
        }
      }
    }
    r
  }
}
