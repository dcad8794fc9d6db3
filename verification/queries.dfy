/** The two card-query handlers: query/card_query.py on the current engines
    and the older query/__init__.py on the legacy engine. Both read the
    group's settings, split the message into filters, search with the
    configured engine, and either say nothing was found or draw the first
    `count_max` cards. The engines are passed in as the search they perform.
    Of the picture step, the parts that can fail are modelled: the slice,
    `min` over the shown cards' images, and each shown card's text block.
    Image download, fonts and drawing are not; the placement arithmetic is
    `Layout`. */
module Queries {
  import opened Wrappers
  import opened Text
  import opened StdCards
  import Config
  import Layout
  import LegacyEngine
  import Iyingdi
  import TextLines
  import Search

  /** What a current engine's `search_std_cards` came to. */
  datatype Outcome<C> = NotImplemented | Failed | Found(cards: seq<C>)

  /** What the group is told. `Shown` carries the cards drawn and the number found. */
  datatype Reply<C> = Unimplemented | FetchError | NotFound | Shown(cards: seq<C>, total: nat)

  /** The configured engine name; a non-string value names no engine. */
  function EngineName(settings: Config.Dict): Option<string> {
    if "engine" in settings && settings["engine"].Str? then Some(settings["engine"].s) else None
  }

  /** An engine setting that is itself an object is an unhashable key for
      `get_engine`'s `dict.get`. */
  predicate Unhashable(settings: Config.Dict) {
    "engine" in settings && settings["engine"].Obj?
  }

  /** `config[key]` used as a number: a missing key is a KeyError, and a value
      that is not a number fails where it is used (the slice, the string
      repetition, the comparison) with a TypeError. */
  function Setting(settings: Config.Dict, key: string): (r: Result<int>)
    ensures r.Ok? <==> key in settings && settings[key].Num?
    ensures r.Ok? ==> r.value == settings[key].n
    ensures r.Crash? ==> r.fault == (if key in settings then TypeError else KeyError)
  {
    if key !in settings then Crash(KeyError)
    else if settings[key].Num? then Ok(settings[key].n)
    else Crash(TypeError)
  }

  /** The `line_size_max` the wrapping loop runs with. Below zero, the loop
      condition holds even for an empty remainder, which the loop splits off
      again and again: the handler never returns. */
  function LineLimit(settings: Config.Dict): (r: Result<nat>)
    ensures r.Ok? <==> Setting(settings, "line_size_max").Ok? && Setting(settings, "line_size_max").value >= 0
    ensures r.Ok? ==> r.value == Setting(settings, "line_size_max").value
    ensures Setting(settings, "line_size_max").Crash? ==> r == Crash(Setting(settings, "line_size_max").fault)
    ensures Setting(settings, "line_size_max").Ok? && Setting(settings, "line_size_max").value < 0 ==> r == Crash(Stall)
  {
    var n :- Setting(settings, "line_size_max");
    if n < 0 then Crash(Stall) else Ok(n)
  }

  /** The text block of every shown card, in order: the loop of the picture
      step, which stops at the first card whose block fails. */
  function TextBlocks<C>(shown: seq<C>, text: (C, nat) -> Result<seq<string>>, limit: nat): (r: Result<seq<seq<string>>>)
    ensures r.Ok? <==> forall k :: 0 <= k < |shown| ==> text(shown[k], limit).Ok?
    ensures r.Ok? ==> |r.value| == |shown| && forall k :: 0 <= k < |shown| ==> r.value[k] == text(shown[k], limit).value
    ensures r.Crash? ==> exists k :: 0 <= k < |shown| && text(shown[k], limit) == Crash(r.fault)
                                 && forall j :: 0 <= j < k ==> text(shown[j], limit).Ok?
    decreases |shown|
  {
    if |shown| == 0 then Ok([])
    else
      var first := text(shown[0], limit);
      if first.Crash? then Crash(first.fault)
      else
        var rest := TextBlocks(shown[1..], text, limit);
        assert forall k :: 1 <= k < |shown| ==> shown[k] == shown[1..][k - 1];
        if rest.Crash? then
          var k :| 0 <= k < |shown[1..]| && text(shown[1..][k], limit) == Crash(rest.fault)
                   && forall j :: 0 <= j < k ==> text(shown[1..][j], limit).Ok?;
          assert text(shown[k + 1], limit) == Crash(rest.fault);
          Crash(rest.fault)
        else
          var blocks := [first.value] + rest.value;
          assert forall k :: 1 <= k < |shown| ==> blocks[k] == rest.value[k - 1];
          Ok(blocks)
  }

  /** The picture step of both handlers on the found cards, `text` being the
      renderer's text block: `cards[:count_max]`; `min` over the shown cards'
      image widths, a ValueError when no card is left; then each shown card's
      text block. */
  function Render<C(==)>(settings: Config.Dict, cards: seq<C>, text: (C, nat) -> Result<seq<string>>): (r: Result<Reply<C>>)
    ensures Setting(settings, "count_max").Crash? ==> r == Crash(Setting(settings, "count_max").fault)
    ensures Setting(settings, "count_max").Ok? && Layout.Head(cards, Setting(settings, "count_max").value) == [] ==>
      r == Crash(ValueError)
    ensures r.Ok? <==>
      && Setting(settings, "count_max").Ok?
      && var shown := Layout.Head(cards, Setting(settings, "count_max").value);
      && shown != [] && LineLimit(settings).Ok?
      && forall k :: 0 <= k < |shown| ==> text(shown[k], LineLimit(settings).value).Ok?
    ensures r.Ok? ==> r.value == Shown(Layout.Head(cards, Setting(settings, "count_max").value), |cards|)
    ensures Setting(settings, "count_max").Ok? && Layout.Head(cards, Setting(settings, "count_max").value) != [] ==>
      var shown := Layout.Head(cards, Setting(settings, "count_max").value);
      && (LineLimit(settings).Crash? ==> r == Crash(LineLimit(settings).fault))
      && (LineLimit(settings).Ok? && r.Crash? ==>
            exists k :: 0 <= k < |shown| && text(shown[k], LineLimit(settings).value) == Crash(r.fault)
                     && forall j :: 0 <= j < k ==> text(shown[j], LineLimit(settings).value).Ok?)
  {
    var n :- Setting(settings, "count_max");
    var shown := Layout.Head(cards, n);
    if |shown| == 0 then Crash(ValueError)
    else
      var limit :- LineLimit(settings);
      var blocks :- TextBlocks(shown, text, limit);
      Ok(Shown(shown, |cards|))
  }

  /** A `count_max` of zero, or one negative enough to cut every card, leaves
      nothing for `min` and fails the query. */
  lemma NoCardLeftFails<C>(settings: Config.Dict, cards: seq<C>, text: (C, nat) -> Result<seq<string>>)
    requires "count_max" in settings && settings["count_max"].Num?
    requires settings["count_max"].n == 0 || settings["count_max"].n <= -|cards|
    ensures Render(settings, cards, text) == Crash(ValueError)
  {
    assert |Layout.Head(cards, settings["count_max"].n)| == 0;
  }

  /** `sv_search` of query/card_query.py, drawing with the current renderer's
      `_make_text_lines`. `registered` are the names `get_engine` resolves
      and `search(name, filters)` is that engine's search. A missing engine
      fails inside the `try` and is reported like a failed fetch; only the
      settings lookup, the engine lookup and the picture step can fail
      outside it. */
  function CardQuery(config: Config.Dict, gid: string, font: string, msg: string,
                     registered: set<string>, search: (string, seq<string>) -> Outcome<StdCard>): (r: Result<Reply<StdCard>>)
    ensures Config.Effective(config, gid, Config.CardQuery, font).Crash? ==> r.Crash? && r.fault == AttributeError
    ensures Config.Effective(config, gid, Config.CardQuery, font).Ok? && Unhashable(Config.Effective(config, gid, Config.CardQuery, font).value) ==>
      r == Crash(TypeError)
    ensures r.Ok? ==> var settings := Config.Effective(config, gid, Config.CardQuery, font).value;
      var name := EngineName(settings);
      && (r.value == FetchError <==> name.None? || name.value !in registered || search(name.value, Config.Filters(msg)).Failed?)
      && (r.value == Unimplemented <==> name.Some? && name.value in registered && search(name.value, Config.Filters(msg)).NotImplemented?)
      && (r.value == NotFound <==> name.Some? && name.value in registered && search(name.value, Config.Filters(msg)) == Found([]))
      && (r.value.Shown? ==> r.value.cards <= search(name.value, Config.Filters(msg)).cards)
    ensures Config.Effective(config, gid, Config.CardQuery, font).Ok? ==>
      var settings := Config.Effective(config, gid, Config.CardQuery, font).value;
      var name := EngineName(settings);
      !Unhashable(settings) && name.Some? && name.value in registered &&
      search(name.value, Config.Filters(msg)).Found? && search(name.value, Config.Filters(msg)).cards != [] ==>
        r == Render(settings, search(name.value, Config.Filters(msg)).cards, TextLines.MakeTextLines)
  {
    var settings :- Config.Effective(config, gid, Config.CardQuery, font);
    var name := EngineName(settings);
    if Unhashable(settings) then Crash(TypeError)
    else if name.None? || name.value !in registered then Ok(FetchError)
    else
      match search(name.value, Config.Filters(msg))
      case NotImplemented => Ok(Unimplemented)
      case Failed => Ok(FetchError)
      case Found(cards) => if |cards| == 0 then Ok(NotFound) else Render(settings, cards, TextLines.MakeTextLines)
  }

  /** The settings a group with nothing stored runs with. */
  lemma DefaultSettings(gid: string, font: string)
    ensures Config.Effective(map[], gid, Config.CardQuery, font).Ok?
    ensures var settings := Config.Effective(map[], gid, Config.CardQuery, font).value;
      && EngineName(settings) == Some("iyingdi") && !Unhashable(settings)
      && Setting(settings, "count_max") == Ok(10)
      && LineLimit(settings) == Ok(40)
  {
    var defaults := Config.Defaults(Config.CardQuery, font);
    assert Config.Effective(map[], gid, Config.CardQuery, font) == Ok(Config.SetDefaults(map[], defaults));
    Config.SetDefaultsMeaning(map[], defaults);
    Config.FirstDefaultAt(defaults, 0);
    Config.FirstDefaultAt(defaults, 4);
    Config.FirstDefaultAt(defaults, 5);
  }

  /** When the first card drawn fails its text block, so does the picture step. */
  lemma RenderFirstCrash<C>(settings: Config.Dict, cards: seq<C>, text: (C, nat) -> Result<seq<string>>)
    requires Setting(settings, "count_max").Ok? && Setting(settings, "count_max").value > 0
    requires |cards| > 0 && LineLimit(settings).Ok?
    requires text(cards[0], LineLimit(settings).value).Crash?
    ensures Render(settings, cards, text) == Crash(text(cards[0], LineLimit(settings).value).fault)
  {
    var shown := Layout.Head(cards, Setting(settings, "count_max").value);
    assert shown[0] == cards[0];
    var limit := LineLimit(settings).value;
    var r := Render(settings, cards, text);
    var k :| 0 <= k < |shown| && text(shown[k], limit) == Crash(r.fault)
             && forall j :: 0 <= j < k ==> text(shown[j], limit).Ok?;
    assert k == 0;
  }

  /** With no settings stored, the query searches iyingdi, whose cards have
      no evolved printing; so when it finds any, drawing the first one fails:
      TypeError when it has no faction, KeyError otherwise. */
  lemma CardQueryDefaults(gid: string, font: string, msg: string, registered: set<string>,
                          search: (string, seq<string>) -> Outcome<StdCard>, raw: seq<Iyingdi.IyCard>)
    requires "iyingdi" in registered
    requires |raw| > 0 && search("iyingdi", Config.Filters(msg)) == Found(Iyingdi.ToStdCards(raw))
    ensures CardQuery(map[], gid, font, msg, registered, search)
         == Crash(if Iyingdi.ToStdCards(raw)[0].faction.None? then TypeError else KeyError)
  {
    var settings := Config.Effective(map[], gid, Config.CardQuery, font).value;
    var cards := Iyingdi.ToStdCards(raw);
    DefaultSettings(gid, font);
    assert CardQuery(map[], gid, font, msg, registered, search) == Render(settings, cards, TextLines.MakeTextLines);
    assert !HasEvolved(cards[0]);
    RenderFirstCrash(settings, cards, TextLines.MakeTextLines);
  }

  /** With the evolved part drawn only when present, the default query shows
      the first ten cards found whenever they have a faction and a series. */
  lemma GuardedDefaultsShow(gid: string, font: string, cards: seq<StdCard>)
    requires |cards| > 0
    requires forall k :: 0 <= k < |cards| ==> cards[k].faction.Some? && cards[k].series.Some?
    ensures var settings := Config.Effective(map[], gid, Config.CardQuery, font).value;
      var r := Render(settings, cards, TextLines.MakeTextLinesGuarded);
      && r == Ok(Shown(Layout.Head(cards, 10), |cards|))
      && |r.value.cards| == (if |cards| < 10 then |cards| else 10)
  {
    DefaultSettings(gid, font);
    var shown := Layout.Head(cards, 10);
    assert forall k :: 0 <= k < |shown| ==> shown[k] == cards[k];
  }

  /** A current engine's search: the filter fold over its catalogue, a fold
      that raises being reported as a failed fetch. */
  function CatalogSearch(catalog: seq<StdCard>): (string, seq<string>) -> Outcome<StdCard> {
    (name: string, filters: seq<string>) =>
      var found := Search.SearchCards(catalog, filters);
      if found.Ok? then Found(found.value) else Failed
  }

  /** On an engine searching its catalogue, the cards shown are the first of
      those the message's filters select, an order-preserving selection of
      the catalogue, together with the number selected. */
  lemma CardQueryShowsSearch(config: Config.Dict, gid: string, font: string, msg: string,
                             registered: set<string>, catalog: seq<StdCard>)
    ensures var r := CardQuery(config, gid, font, msg, registered, CatalogSearch(catalog));
      var found := Search.SearchCards(catalog, Config.Filters(msg));
      r.Ok? && r.value.Shown? ==>
        && found.Ok? && r.value.cards != [] && r.value.cards <= found.value && r.value.total == |found.value|
        && Search.Subsequence(r.value.cards, catalog)
  {
    var r := CardQuery(config, gid, font, msg, registered, CatalogSearch(catalog));
    var found := Search.SearchCards(catalog, Config.Filters(msg));
    if r.Ok? && r.value.Shown? {
      Search.PrefixSubsequence(r.value.cards, found.value);
      Search.SearchSubsequence(catalog, Config.Filters(msg));
      Search.SubsequenceTrans(r.value.cards, found.value, catalog);
    }
  }

  /** `sv_search` of query/__init__.py on the legacy engine, whose search is
      over the cached vertical list, drawing with the older renderer's
      `make_text_lines`. Nothing is caught: an unknown engine is an
      AttributeError on `None.cards_search`, an object-valued engine setting
      a TypeError in `get_engine`, a failing search fails the handler, and a
      shown record on whose text the older wrapping loop stalls keeps the
      handler from ever replying. */
  function LegacyQuery(config: Config.Dict, gid: string, font: string, msg: string,
                       registered: set<string>, vertical: seq<Iyingdi.IyCard>): (r: Result<Reply<LegacyEngine.Record>>)
    ensures Config.Effective(config, gid, Config.LegacyQuery, font).Crash? ==> r.Crash? && r.fault == AttributeError
    ensures Config.Effective(config, gid, Config.LegacyQuery, font).Ok? ==>
      var name := EngineName(Config.Effective(config, gid, Config.LegacyQuery, font).value);
      var settings := Config.Effective(config, gid, Config.LegacyQuery, font).value;
      && (Unhashable(settings) ==> r == Crash(TypeError))
      && (!Unhashable(settings) && (name.None? || name.value !in registered) ==> r == Crash(AttributeError))
      && (!Unhashable(settings) && name.Some? && name.value in registered ==>
            var found := LegacyEngine.CardsSearch(vertical, Config.LegacyFilters(msg));
            found.Ok? && found.value != [] ==> r == Render(settings, found.value, TextLines.RecordTextLines))
    ensures r.Ok? ==> !r.value.Unimplemented? && !r.value.FetchError?
    ensures r.Ok? ==> var found := LegacyEngine.CardsSearch(vertical, Config.LegacyFilters(msg));
      && found.Ok?
      && (r.value == NotFound <==> found.value == [])
      && (r.value.Shown? ==> r.value.cards <= found.value && r.value.total == |found.value|)
  {
    var settings :- Config.Effective(config, gid, Config.LegacyQuery, font);
    var name := EngineName(settings);
    if Unhashable(settings) then Crash(TypeError)
    else if name.None? || name.value !in registered then Crash(AttributeError)
    else
      var cards :- LegacyEngine.CardsSearch(vertical, Config.LegacyFilters(msg));
      if |cards| == 0 then Ok(NotFound) else Render(settings, cards, TextLines.RecordTextLines)
  }

  /** The older query shows records of cached cards that pass every filter,
      in cached order. */
  lemma LegacyQueryShowsPassing(config: Config.Dict, gid: string, font: string, msg: string,
                                registered: set<string>, vertical: seq<Iyingdi.IyCard>)
    ensures var r := LegacyQuery(config, gid, font, msg, registered, vertical);
      r.Ok? && r.value.Shown? ==>
        r.value.cards <= LegacyEngine.ToRecords(LegacyEngine.Passing(vertical, Config.LegacyFilters(msg)))
  {
  }

  /** The older handler never replies when the first record it draws has a
      description "(" followed by 'a's at least twice the wrap width long:
      the older wrapping loop splits it at index 0 again and again. With the
      default width of 40, "(" and ninety 'a's is such a description. */
  lemma LegacyDrawStalls(settings: Config.Dict, records: seq<LegacyEngine.Record>)
    requires Setting(settings, "count_max").Ok? && Setting(settings, "count_max").value > 0
    requires LineLimit(settings).Ok? && |records| > 0
    requires records[0].faction.Some? && |records[0].descs| >= 1
    requires |records[0].descs[0]| >= 1 && records[0].descs[0][0] == '('
    requires 2 * LineLimit(settings).value <= |records[0].descs[0]|
    requires forall k :: 1 <= k < |records[0].descs[0]| ==> records[0].descs[0][k] == 'a'
    ensures Render(settings, records, TextLines.RecordTextLines) == Crash(Stall)
  {
    TextLines.RecordStalls(records[0], LineLimit(settings).value);
    RenderFirstCrash(settings, records, TextLines.RecordTextLines);
  }
}
