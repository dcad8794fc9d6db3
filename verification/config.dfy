/** The per-group settings of the command handlers (games/card_guess.py,
    games/voice_guess.py, query/card_query.py, query/__init__.py): defaults
    filled in with `dict.setdefault`, the engine-set command, and the lookup
    a round or a query makes. The settings file is a JSON object; reading and
    writing it is not modelled. */
module Config {
  import opened Wrappers
  import opened Text

  datatype Json = Str(s: string) | Num(n: int) | Obj(fields: map<string, Json>)

  type Dict = map<string, Json>

  /** `d.setdefault(k, v)`: `k` gets `v` only when absent. */
  function SetDefault(d: Dict, k: string, v: Json): (r: Dict)
    ensures k in r && r[k] == (if k in d then d[k] else v)
    ensures forall j :: j != k ==> (j in r <==> j in d)
    ensures forall j :: j != k && j in d ==> r[j] == d[j]
  {
    if k in d then d else d[k := v]
  }

  /** A run of `setdefault` calls, in order. */
  function SetDefaults(d: Dict, defaults: seq<(string, Json)>): Dict
    decreases |defaults|
  {
    if |defaults| == 0 then d else SetDefaults(SetDefault(d, defaults[0].0, defaults[0].1), defaults[1..])
  }

  /** The first default listed for key `k`. */
  function FirstDefault(defaults: seq<(string, Json)>, k: string): Option<Json>
    decreases |defaults|
  {
    if |defaults| == 0 then None
    else if defaults[0].0 == k then Some(defaults[0].1)
    else FirstDefault(defaults[1..], k)
  }

  /** Present keys keep their values, absent listed keys get their first
      default, and nothing else is added. */
  lemma {:induction false} SetDefaultsMeaning(d: Dict, defaults: seq<(string, Json)>)
    ensures var r := SetDefaults(d, defaults);
      forall k ::
        && (k in r <==> k in d || FirstDefault(defaults, k).Some?)
        && (k in d ==> r[k] == d[k])
        && (k !in d && FirstDefault(defaults, k).Some? ==> r[k] == FirstDefault(defaults, k).value)
    decreases |defaults|
  {
    if |defaults| > 0 {
      var d' := SetDefault(d, defaults[0].0, defaults[0].1);
      SetDefaultsMeaning(d', defaults[1..]);
    }
  }

  /** Filling defaults twice is filling them once. */
  lemma SetDefaultsIdempotent(d: Dict, defaults: seq<(string, Json)>)
    ensures SetDefaults(SetDefaults(d, defaults), defaults) == SetDefaults(d, defaults)
  {
    var r := SetDefaults(d, defaults);
    SetDefaultsMeaning(d, defaults);
    SetDefaultsMeaning(r, defaults);
    var rr := SetDefaults(r, defaults);
    assert forall k :: k in rr <==> k in r;
    assert forall k :: k in r ==> rr[k] == r[k];
  }

  /** The handlers that keep settings. */
  datatype Handler = CardGuess | VoiceGuess | CardQuery | LegacyQuery

  /** `NAME_MODULE`: the last component of the handler's module name. */
  function ModuleName(h: Handler): string {
    match h
    case CardGuess => "card_guess"
    case VoiceGuess => "voice_guess"
    case CardQuery => "card_query"
    case LegacyQuery => "query"
  }

  /** `set_default_config` of each handler; `font` is the bundled font's
      path, which depends on where the plugin is installed. */
  function Defaults(h: Handler, font: string): seq<(string, Json)> {
    match h
    case CardGuess => [("engine", Str("iyingdi")), ("time_limit", Num(30))]
    case VoiceGuess => [("engine", Str("svgdb_jp")), ("time_limit", Num(30))]
    case CardQuery =>
      [("engine", Str("iyingdi")), ("font", Str(font)), ("font_size", Num(16)), ("font_spacing", Num(4)),
       ("count_max", Num(10)), ("line_size_max", Num(40)), ("card_margin", Num(16))]
    case LegacyQuery =>
      [("engine", Str("iyingdi")), ("font", Str(font)), ("font_size", Num(16)), ("font_spacing", Num(4)),
       ("count_max", Num(10)), ("line_size_max", Num(40)), ("card_margin", Num(8))]
  }

  /** The default of a key is the one at its first listing. */
  lemma {:induction false} FirstDefaultAt(defaults: seq<(string, Json)>, i: nat)
    requires i < |defaults|
    requires forall j :: 0 <= j < i ==> defaults[j].0 != defaults[i].0
    ensures FirstDefault(defaults, defaults[i].0) == Some(defaults[i].1)
    decreases i
  {
    if i > 0 {
      FirstDefaultAt(defaults[1..], i - 1);
    }
  }

  /** The two query handlers differ only in the card margin. */
  lemma QueryDefaultsDiffer(font: string)
    ensures FirstDefault(Defaults(CardQuery, font), "card_margin") == Some(Num(16))
    ensures FirstDefault(Defaults(LegacyQuery, font), "card_margin") == Some(Num(8))
    ensures Defaults(CardQuery, font)[..6] == Defaults(LegacyQuery, font)[..6]
  {
    FirstDefaultAt(Defaults(CardQuery, font), 6);
    FirstDefaultAt(Defaults(LegacyQuery, font), 6);
  }

  /** `d.get(k, {})` when the result is used as a dict: a present value that
      is not an object fails at the next dict method (AttributeError). */
  function Lookup(d: Dict, k: string): (r: Result<Dict>)
    ensures k !in d ==> r == Ok(map[])
    ensures r.Crash? <==> k in d && !d[k].Obj?
  {
    if k !in d then Ok(map[])
    else if d[k].Obj? then Ok(d[k].fields)
    else Crash(AttributeError)
  }

  /** The settings a round or a query of group `gid` runs with:
      `config.get(gid, {}).get(NAME_MODULE, {})` (only `config.get(gid, {})`
      for the older query handler) with the defaults filled in. */
  function Effective(config: Dict, gid: string, h: Handler, font: string): Result<Dict> {
    var group :- Lookup(config, gid);
    if h == LegacyQuery then Ok(SetDefaults(group, Defaults(h, font)))
    else
      var own :- Lookup(group, ModuleName(h));
      Ok(SetDefaults(own, Defaults(h, font)))
  }

  /** The engine-set command with name `name`: nothing changes unless the name
      is registered; then `config[gid][NAME_MODULE]['engine']` is written
      (`config[gid]['engine']` for the older query handler). A stored value
      that is not an object fails: `setdefault` on it is an AttributeError,
      item assignment into it a TypeError. */
  function EngineSet(config: Dict, gid: string, h: Handler, name: string, registered: set<string>): (r: Result<Dict>)
    ensures name !in registered ==> r == Ok(config)
    ensures name in registered && h == LegacyQuery ==> (r.Crash? <==> gid in config && !config[gid].Obj?)
    ensures r.Crash? && h == LegacyQuery ==> r.fault == TypeError
    ensures r.Crash? && h != LegacyQuery ==> r.fault == (if gid in config && !config[gid].Obj? then AttributeError else TypeError)
    ensures r.Ok? ==> forall k :: k != gid ==> (k in r.value <==> k in config) && (k in config ==> r.value[k] == config[k])
  {
    if name !in registered then Ok(config)
    else if gid in config && !config[gid].Obj? then
      Crash(if h == LegacyQuery then TypeError else AttributeError)
    else
      var group := Lookup(config, gid).value;
      if h == LegacyQuery then Ok(config[gid := Obj(group["engine" := Str(name)])])
      else if ModuleName(h) in group && !group[ModuleName(h)].Obj? then Crash(TypeError)
      else
        var own := Lookup(group, ModuleName(h)).value;
        Ok(config[gid := Obj(group[ModuleName(h) := Obj(own["engine" := Str(name)])])])
  }

  /** The settings seen before and after writing `engine` into the settings
      object they are built from. */
  lemma {:induction false} EngineWriteSeen(own: Dict, name: string, defaults: seq<(string, Json)>)
    requires FirstDefault(defaults, "engine").Some?
    ensures var before := SetDefaults(own, defaults);
      var after := SetDefaults(own["engine" := Str(name)], defaults);
      && "engine" in after && after["engine"] == Str(name)
      && forall k :: k != "engine" ==> (k in after <==> k in before) && (k in before ==> after[k] == before[k])
  {
    SetDefaultsMeaning(own, defaults);
    SetDefaultsMeaning(own["engine" := Str(name)], defaults);
  }

  lemma EngineDefaulted(h: Handler, font: string)
    ensures FirstDefault(Defaults(h, font), "engine").Some?
  {
    FirstDefaultAt(Defaults(h, font), 0);
  }

  /** After a successful engine-set the group's rounds and queries use that
      engine; every other setting they see is unchanged. */
  lemma EngineSetTakesEffect(config: Dict, gid: string, h: Handler, name: string, registered: set<string>, font: string)
    requires name in registered
    requires EngineSet(config, gid, h, name, registered).Ok?
    ensures var before := Effective(config, gid, h, font);
      var after := Effective(EngineSet(config, gid, h, name, registered).value, gid, h, font);
      && before.Ok? && after.Ok?
      && "engine" in after.value && after.value["engine"] == Str(name)
      && forall k :: k != "engine" ==> (k in after.value <==> k in before.value) && (k in before.value ==> after.value[k] == before.value[k])
  {
    var r := EngineSet(config, gid, h, name, registered).value;
    var group := Lookup(config, gid).value;
    EngineDefaulted(h, font);
    if h == LegacyQuery {
      var g2 := group["engine" := Str(name)];
      assert Lookup(r, gid) == Ok(g2);
      EngineWriteSeen(group, name, Defaults(h, font));
    } else {
      var own := Lookup(group, ModuleName(h)).value;
      var own2 := own["engine" := Str(name)];
      var g2 := group[ModuleName(h) := Obj(own2)];
      assert Lookup(r, gid) == Ok(g2);
      assert Lookup(g2, ModuleName(h)) == Ok(own2);
      EngineWriteSeen(own, name, Defaults(h, font));
    }
  }

  /** The filters of a round or a card query: the message's space-separated
      words, empty ones dropped. */
  function Filters(msg: string): (fs: seq<string>)
    ensures forall k :: 0 <= k < |fs| ==> fs[k] != "" && ' ' !in fs[k]
    ensures Concat(fs) == Remove(msg, ' ')
    ensures forall words :: WordList(words) && msg == Join(words, " ") ==> fs == words
  {
    TokensSpec(msg);
    TokensOfJoins(msg);
    Tokens(msg)
  }

  /** A space cuts the filters in two, and a message without spaces is one
      filter or none: together these fix `Filters` on every message. */
  lemma FiltersAround(a: string, b: string, w: string)
    requires ' ' !in w
    ensures Filters(a + " " + b) == Filters(a) + Filters(b)
    ensures Filters(w) == Kept(w)
  {
    TokensAround(a, b);
    TokensWord(w);
  }

  /** Leading, trailing and repeated spaces do not change the filters. */
  lemma FiltersSpaces(a: string, b: string)
    ensures Filters(" " + a) == Filters(a) && Filters(a + " ") == Filters(a)
    ensures Filters(a + "  " + b) == Filters(a + " " + b)
  {
    TokensSpaces(a, b);
  }

  /** The older query handler strips the message before splitting it. */
  function LegacyFilters(msg: string): (fs: seq<string>)
    ensures forall k :: 0 <= k < |fs| ==> fs[k] != "" && ' ' !in fs[k]
    ensures Concat(fs) == Remove(Strip(msg), ' ')
    ensures forall words :: WordList(words) && Strip(msg) == Join(words, " ") ==> fs == words
  {
    Filters(Strip(msg))
  }
}
