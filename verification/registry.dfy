/** The engine registry (utils/engine.py, and its copy for the older engines
    in _engines/__init__.py): which directory entries are imported as
    engine modules, and the name-to-class table that loading and reloading
    rebuild. The directory listing and the classes each module defines are
    inputs; the table is a Python dict, modelled as an association list that
    keeps insertion order. */
module Registry {
  import opened Wrappers
  import opened Text

  /** What `os.path` says a directory entry is. */
  datatype Kind = File | Directory | Other

  datatype Entry = Entry(name: string, kind: Kind)

  /** The character class `[_A-Z0-9a-z]`. */
  predicate IsWordChar(c: char) {
    c == '_' || ('A' <= c <= 'Z') || ('0' <= c <= '9') || ('a' <= c <= 'z')
  }

  /** Group 1 of the module-name pattern matched at the start: the longest
      leading run of word characters. */
  function LeadingWord(s: string): (w: string)
    ensures IsPrefix(w, s)
    ensures forall k :: 0 <= k < |w| ==> IsWordChar(w[k])
    ensures |w| < |s| ==> !IsWordChar(s[|w|])
  {
    if |s| > 0 && IsWordChar(s[0]) then [s[0]] + LeadingWord(s[1..]) else ""
  }

  /** `each_module`'s test: regular files must not start with '_' and must end
      in ".py"; directories are skipped; anything else only needs a leading
      word character. */
  predicate Selected(e: Entry) {
    && e.kind != Directory
    && (e.kind == File ==> !IsPrefix("_", e.name) && IsSuffix(".py", e.name))
    && LeadingWord(e.name) != ""
  }

  /** The dotted module name yielded for an entry of package `package`. */
  function ModulePath(package: string, e: Entry): string {
    package + "." + LeadingWord(e.name)
  }

  /** `each_module`: the module names, in listing order. */
  function EachModule(package: string, entries: seq<Entry>): (names: seq<string>)
    ensures |names| <= |entries|
    ensures |entries| == 1 ==> names == (if Selected(entries[0]) then [ModulePath(package, entries[0])] else [])
    ensures forall n :: n in names <==> exists k :: 0 <= k < |entries| && Selected(entries[k]) && n == ModulePath(package, entries[k])
    decreases |entries|
  {
    if |entries| == 0 then []
    else
      var rest := EachModule(package, entries[1..]);
      assert forall k :: 1 <= k < |entries| ==> entries[k] == entries[1..][k - 1];
      if Selected(entries[0]) then [ModulePath(package, entries[0])] + rest else rest
  }

  /** The listing is scanned in order: the modules of a listing are those of
      its first part followed by those of the rest. */
  lemma {:induction false} EachModuleAppend(package: string, a: seq<Entry>, b: seq<Entry>)
    ensures EachModule(package, a + b) == EachModule(package, a) + EachModule(package, b)
    decreases |a|
  {
    if |a| == 0 {
      assert a + b == b;
    } else {
      assert (a + b)[0] == a[0];
      assert (a + b)[1..] == a[1..] + b;
      EachModuleAppend(package, a[1..], b);
    }
  }

  /** A provider file gives the module of its stem. */
  lemma ProviderFileSelected(package: string, stem: string)
    requires stem != "" && forall k :: 0 <= k < |stem| ==> IsWordChar(stem[k])
    requires stem[0] != '_'
    ensures EachModule(package, [Entry(stem + ".py", File)]) == [package + "." + stem]
  {
    var name := stem + ".py";
    LeadingWordStops(stem, ".py");
    assert name[0] == stem[0];
    assert name[|name| - 3..] == ".py";
    assert Selected(Entry(name, File));
  }

  /** Private files, files of another extension and directories give nothing. */
  lemma SkippedEntries(package: string, stem: string)
    ensures EachModule(package, [Entry("_" + stem + ".py", File)]) == []
    ensures EachModule(package, [Entry(stem + ".pyc", File)]) == []
    ensures EachModule(package, [Entry(stem, Directory)]) == []
  {
    var compiled := stem + ".pyc";
    assert compiled[|compiled| - 1] == 'c';
    assert !Selected(Entry(compiled, File));
    assert ("_" + stem + ".py")[0] == '_';
    assert !Selected(Entry("_" + stem + ".py", File));
  }

  /** A dotted stem is cut at its first dot. */
  lemma DottedStemCut(package: string, stem: string, rest: string)
    requires stem != "" && forall k :: 0 <= k < |stem| ==> IsWordChar(stem[k])
    requires stem[0] != '_'
    ensures EachModule(package, [Entry(stem + ("." + rest + ".py"), File)]) == [package + "." + stem]
  {
    var name := stem + ("." + rest + ".py");
    LeadingWordStops(stem, "." + rest + ".py");
    assert name[0] == stem[0];
    assert name[|name| - 3..] == ".py";
    assert Selected(Entry(name, File));
  }

  /** The leading word of a word followed by a non-word character is that word. */
  lemma {:induction false} LeadingWordStops(w: string, tail: string)
    requires forall k :: 0 <= k < |w| ==> IsWordChar(w[k])
    requires |tail| > 0 && !IsWordChar(tail[0])
    ensures LeadingWord(w + tail) == w
    decreases |w|
  {
    if |w| > 0 {
      assert (w + tail)[1..] == w[1..] + tail;
      LeadingWordStops(w[1..], tail);
    }
  }

  /** A class found in a module: its name, whether it subclasses the base
      engine, and its `SOURCE`. */
  datatype Member = Member(name: string, isEngine: bool, source: string)

  /** An imported module and its classes, in the order `inspect.getmembers`
      lists them (sorted by name). */
  datatype Module = Module(name: string, members: seq<Member>)

  /** The registered class: where it came from and its source description. */
  datatype Engine = Engine(origin: string, source: string)

  /** A Python dict from names to engines, in insertion order. */
  type Table = seq<(string, Engine)>

  function Keys(t: Table): (ks: seq<string>)
    ensures |ks| == |t| && forall k :: 0 <= k < |t| ==> ks[k] == t[k].0
    decreases |t|
  {
    if |t| == 0 then [] else [t[0].0] + Keys(t[1..])
  }

  predicate Distinct(ks: seq<string>) {
    forall i, j :: 0 <= i < j < |ks| ==> ks[i] != ks[j]
  }

  /** `table.get(name)`: the value of the first entry with that name. */
  function Get(t: Table, name: string): (r: Option<Engine>)
    ensures r.None? <==> forall k :: 0 <= k < |t| ==> t[k].0 != name
    ensures r.Some? ==> exists k :: 0 <= k < |t| && t[k] == (name, r.value) && forall j :: 0 <= j < k ==> t[j].0 != name
    decreases |t|
  {
    if |t| == 0 then None
    else if t[0].0 == name then Some(t[0].1)
    else
      assert forall k :: 1 <= k < |t| ==> t[k] == t[1..][k - 1];
      Get(t[1..], name)
  }

  /** With distinct keys, the entry with the name is the one found. */
  lemma GetDistinct(t: Table, name: string, k: nat)
    requires Distinct(Keys(t)) && k < |t| && t[k].0 == name
    ensures Get(t, name) == Some(t[k].1)
  {
    var i :| 0 <= i < |t| && t[i] == (name, Get(t, name).value) && forall j :: 0 <= j < i ==> t[j].0 != name;
    assert Keys(t)[i] == Keys(t)[k];
  }

  /** `table[name] = e`: an existing key keeps its place, a new one goes last. */
  function Set(t: Table, name: string, e: Engine): (r: Table)
    ensures Get(r, name) == Some(e)
    ensures forall n :: n != name ==> Get(r, n) == Get(t, n)
    ensures Get(t, name).Some? ==> Keys(r) == Keys(t)
    ensures Get(t, name).None? ==> Keys(r) == Keys(t) + [name]
    decreases |t|
  {
    if |t| == 0 then [(name, e)]
    else if t[0].0 == name then [(name, e)] + t[1..]
    else
      var rest := Set(t[1..], name, e);
      var r := [t[0]] + rest;
      assert r[0] == t[0] && r[1..] == rest;
      assert Keys(r) == [t[0].0] + Keys(rest) && Keys(t) == [t[0].0] + Keys(t[1..]);
      assert Get(r, name) == Get(rest, name) && Get(t, name) == Get(t[1..], name);
      forall n | n != name && n != t[0].0 ensures Get(r, n) == Get(t, n) {
        assert Get(r, n) == Get(rest, n) && Get(t, n) == Get(t[1..], n);
      }
      r
  }

  /** Setting a key keeps the keys distinct. */
  lemma SetDistinct(t: Table, name: string, e: Engine)
    requires Distinct(Keys(t))
    ensures Distinct(Keys(Set(t, name, e)))
  {
    var ks := Keys(Set(t, name, e));
    if Get(t, name).None? {
      assert forall k :: 0 <= k < |t| ==> Keys(t)[k] != name;
      assert ks == Keys(t) + [name];
      assert forall i, j :: 0 <= i < j < |ks| ==> ks[i] != ks[j] by {
        forall i, j | 0 <= i < j < |ks| ensures ks[i] != ks[j] {
          if j == |t| { assert ks[i] == Keys(t)[i] && ks[j] == name; }
          else { assert ks[i] == Keys(t)[i] && ks[j] == Keys(t)[j]; }
        }
      }
    } else {
      assert ks == Keys(t);
    }
  }

  /** The value the last pair named `name` carries. */
  function LastOf(ps: Table, name: string): Option<Engine>
    decreases |ps|
  {
    if |ps| == 0 then None
    else
      var later := LastOf(ps[1..], name);
      if later.Some? then later else if ps[0].0 == name then Some(ps[0].1) else None
  }

  /** A name has a last value iff some pair carries it, and that value is the
      one of the last such pair. */
  lemma {:induction false} LastOfMeaning(ps: Table, name: string)
    ensures LastOf(ps, name).None? <==> forall k :: 0 <= k < |ps| ==> ps[k].0 != name
    ensures forall k :: 0 <= k < |ps| && ps[k].0 == name && (forall j :: k < j < |ps| ==> ps[j].0 != name) ==>
      LastOf(ps, name) == Some(ps[k].1)
    decreases |ps|
  {
    if |ps| > 0 {
      LastOfMeaning(ps[1..], name);
      assert forall k :: 1 <= k < |ps| ==> ps[k] == ps[1..][k - 1];
    }
  }

  lemma {:induction false} LastOfAppend(a: Table, b: Table, name: string)
    ensures LastOf(a + b, name) == if LastOf(b, name).Some? then LastOf(b, name) else LastOf(a, name)
    decreases |a|
  {
    if |a| == 0 {
      assert a + b == b;
    } else {
      assert (a + b)[1..] == a[1..] + b;
      LastOfAppend(a[1..], b, name);
    }
  }

  /** `dict.update(pairs)`: the pairs are set in order. */
  function Update(t: Table, ps: Table): (r: Table)
    ensures Distinct(Keys(t)) ==> Distinct(Keys(r))
    decreases |ps|
  {
    if |ps| == 0 then t
    else
      if Distinct(Keys(t)) then SetDistinct(t, ps[0].0, ps[0].1); Update(Set(t, ps[0].0, ps[0].1), ps[1..])
      else Update(Set(t, ps[0].0, ps[0].1), ps[1..])
  }

  lemma {:induction false} UpdateMeaning(t: Table, ps: Table, name: string)
    ensures Get(Update(t, ps), name) == if LastOf(ps, name).Some? then LastOf(ps, name) else Get(t, name)
    decreases |ps|
  {
    if |ps| > 0 {
      UpdateMeaning(Set(t, ps[0].0, ps[0].1), ps[1..], name);
    }
  }

  /** The base-engine subclasses of a module, as (class name, engine) pairs. */
  function EnginesOf(m: Module): (ps: Table)
    ensures |ps| <= |m.members|
    ensures forall p :: p in ps <==> exists c :: c in m.members && c.isEngine && p == (c.name, Engine(m.name, c.source))
    decreases |m.members|
  {
    if |m.members| == 0 then []
    else
      var c := m.members[0];
      var rest := EnginesOf(Module(m.name, m.members[1..]));
      assert m.members == [c] + m.members[1..];
      if c.isEngine then [(c.name, Engine(m.name, c.source))] + rest else rest
  }

  /** All registered pairs of a module list, in import order. */
  function Flat(mods: seq<Module>): Table
    decreases |mods|
  {
    if |mods| == 0 then [] else EnginesOf(mods[0]) + Flat(mods[1..])
  }

  /** The registry: the imported modules and the engine table. */
  datatype Registry = Registry(modules: seq<Module>, engines: Table)

  /** The table rebuilt from a module list, module by module. */
  function Build(t: Table, mods: seq<Module>): (r: Table)
    ensures Distinct(Keys(t)) ==> Distinct(Keys(r))
    decreases |mods|
  {
    if |mods| == 0 then t else Build(Update(t, EnginesOf(mods[0])), mods[1..])
  }

  lemma {:induction false} BuildMeaning(t: Table, mods: seq<Module>, name: string)
    ensures Get(Build(t, mods), name) == if LastOf(Flat(mods), name).Some? then LastOf(Flat(mods), name) else Get(t, name)
    decreases |mods|
  {
    if |mods| > 0 {
      var t' := Update(t, EnginesOf(mods[0]));
      BuildMeaning(t', mods[1..], name);
      UpdateMeaning(t, EnginesOf(mods[0]), name);
      LastOfAppend(EnginesOf(mods[0]), Flat(mods[1..]), name);
    }
  }

  /** `load_engines`: both tables cleared, then the listed modules imported
      in order. */
  function Load(mods: seq<Module>): (r: Registry)
    ensures r.modules == mods
    ensures Distinct(Keys(r.engines))
    ensures forall name :: GetEngine(r, name) == LastOf(Flat(mods), name)
  {
    forall name
      ensures Get(Build([], mods), name) == LastOf(Flat(mods), name)
    {
      BuildMeaning([], mods, name);
    }
    Registry(mods, Build([], mods))
  }

  /** `reload_engines`: only the engine table is cleared; the stored modules
      are re-imported with their current contents, and no new file is looked
      for. */
  function Reload(r: Registry, contents: seq<seq<Member>>): (r': Registry)
    requires |contents| == |r.modules|
    ensures |r'.modules| == |r.modules|
    ensures forall k :: 0 <= k < |r.modules| ==> r'.modules[k].name == r.modules[k].name && r'.modules[k].members == contents[k]
    ensures Distinct(Keys(r'.engines))
    ensures forall name :: GetEngine(r', name) == LastOf(Flat(r'.modules), name)
  {
    Load(seq(|r.modules|, k requires 0 <= k < |r.modules| => Module(r.modules[k].name, contents[k])))
  }

  /** Reloading unchanged modules gives the loaded registry back. */
  lemma ReloadUnchanged(mods: seq<Module>)
    ensures Reload(Load(mods), seq(|mods|, k requires 0 <= k < |mods| => mods[k].members)) == Load(mods)
  {
    var r := Load(mods);
    var contents := seq(|mods|, k requires 0 <= k < |mods| => mods[k].members);
    var again := seq(|r.modules|, k requires 0 <= k < |r.modules| => Module(r.modules[k].name, contents[k]));
    assert again == mods;
  }

  /** `get_engine(name)`: `None` for an unknown name. */
  function GetEngine(r: Registry, name: string): Option<Engine> {
    Get(r.engines, name)
  }

  /** The registered pairs are exactly the engine classes of the modules. */
  lemma {:induction false} FlatMembers(mods: seq<Module>)
    ensures forall p :: p in Flat(mods) <==>
      exists k, c :: 0 <= k < |mods| && c in mods[k].members && c.isEngine && p == (c.name, Engine(mods[k].name, c.source))
    decreases |mods|
  {
    if |mods| > 0 {
      FlatMembers(mods[1..]);
      assert forall k :: 1 <= k < |mods| ==> mods[k] == mods[1..][k - 1];
      forall p | p in Flat(mods)
        ensures exists k, c :: 0 <= k < |mods| && c in mods[k].members && c.isEngine && p == (c.name, Engine(mods[k].name, c.source))
      {
        if p !in EnginesOf(mods[0]) {
          assert p in Flat(mods[1..]);
          var k, c :| 0 <= k < |mods[1..]| && c in mods[1..][k].members && c.isEngine && p == (c.name, Engine(mods[1..][k].name, c.source));
          assert mods[k + 1] == mods[1..][k];
        }
      }
    }
  }

  /** After a load, a name resolves to nothing exactly when no module defines
      an engine class of that name, and otherwise to the last one in import
      order. */
  lemma LoadLastWins(mods: seq<Module>, name: string)
    ensures GetEngine(Load(mods), name).None? <==>
      forall k, c :: 0 <= k < |mods| && c in mods[k].members && c.isEngine ==> c.name != name
    ensures forall k :: 0 <= k < |Flat(mods)| && Flat(mods)[k].0 == name && (forall j :: k < j < |Flat(mods)| ==> Flat(mods)[j].0 != name) ==>
      GetEngine(Load(mods), name) == Some(Flat(mods)[k].1)
  {
    var ps := Flat(mods);
    LastOfMeaning(ps, name);
    FlatMembers(mods);
    assert GetEngine(Load(mods), name) == LastOf(ps, name);
    if GetEngine(Load(mods), name).Some? {
      var i :| 0 <= i < |ps| && ps[i].0 == name;
      assert ps[i] in ps;
    } else {
      forall k, c | 0 <= k < |mods| && c in mods[k].members && c.isEngine
        ensures c.name != name
      {
        var p := (c.name, Engine(mods[k].name, c.source));
        assert p in ps;
      }
    }
  }

  /** `list_engines()`: one (name, source) pair per table entry, names
      distinct, each with the source `get_engine` finds. */
  function ListEngines(r: Registry): (list: seq<(string, string)>)
    ensures |list| == |r.engines|
    ensures Distinct(Keys(r.engines)) ==> forall k :: 0 <= k < |list| ==>
      GetEngine(r, list[k].0).Some? && GetEngine(r, list[k].0).value.source == list[k].1
    ensures Distinct(Keys(r.engines)) ==> forall i, j :: 0 <= i < j < |list| ==> list[i].0 != list[j].0
  {
    forall k | 0 <= k < |r.engines| && Distinct(Keys(r.engines)) ensures GetEngine(r, r.engines[k].0) == Some(r.engines[k].1) {
      GetDistinct(r.engines, r.engines[k].0, k);
    }
    seq(|r.engines|, k requires 0 <= k < |r.engines| => (r.engines[k].0, r.engines[k].1.source))
  }

  /** Every listed name is one `get_engine` resolves, and every resolvable
      name is listed. */
  lemma ListedIffRegistered(mods: seq<Module>, name: string)
    ensures var list := ListEngines(Load(mods));
      (exists k :: 0 <= k < |list| && list[k].0 == name) <==> GetEngine(Load(mods), name).Some?
  {
    var r := Load(mods);
    var list := ListEngines(r);
    assert forall k :: 0 <= k < |list| ==> list[k].0 == r.engines[k].0;
  }
}
