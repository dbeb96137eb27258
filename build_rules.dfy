/**
  The value-level rules behind `find_build_properties` and
  `create_package_data` (core.py): entry-point tables, which registered entry
  points a package claims, the declared build properties, and the merge of the
  packages' tables that rejects a repeated name within a group.
*/
module BuildRules {
  import opened Values
  import opened Text
  import opened Environment
  import opened MetadataRules

  /** `{"module": ..., "attr": ...}` */
  datatype EpDetails = EpDetails(moduleName: string, attr: string)

  /** name -> details, in insertion order */
  type EpGroup = ODict<EpDetails>

  /** group -> name -> details, in insertion order */
  type EpTable = ODict<EpGroup>

  ghost predicate ValidTable(t: EpTable) {
    t.Valid() && forall g :: g in t.items ==> t.items[g].Valid()
  }

  /** One entry of a table, as the nested `for group ...: for name ...:` loops visit it. */
  datatype Triple = Triple(group: string, name: string, details: EpDetails)

  function Pair(x: Triple): (string, string) {
    (x.group, x.name)
  }

  ghost predicate InTable(t: EpTable, x: Triple) {
    x.group in t.items && x.name in t.items[x.group].items && t.items[x.group].items[x.name] == x.details
  }

  /** The table already holds a name `n` in group `g`. */
  predicate HasName(t: EpTable, g: string, n: string) {
    g in t.items && n in t.items[g].items
  }

  ghost function TablePairs(t: EpTable): set<(string, string)> {
    set g, n | g in t.items && n in t.items[g].items :: (g, n)
  }

  lemma TablePairsMember(t: EpTable, g: string, n: string)
    ensures (g, n) in TablePairs(t) <==> HasName(t, g, n)
  {
  }

  ghost function PairsOf(ts: seq<Triple>): set<(string, string)> {
    set x | x in ts :: Pair(x)
  }

  ghost function ModulesOf(ts: seq<Triple>): set<string> {
    set x | x in ts :: x.details.moduleName
  }

  ghost predicate NoDupPairs(ts: seq<Triple>) {
    forall i, j :: 0 <= i < j < |ts| ==> Pair(ts[i]) != Pair(ts[j])
  }

  ghost predicate Distinct(s: seq<string>) {
    forall i, j :: 0 <= i < j < |s| ==> s[i] != s[j]
  }

  // ---------------------------------------------------------------------------
  // Visiting a table in iteration order

  function GroupTriples(g: string, d: EpGroup, ns: seq<string>): seq<Triple>
    decreases |ns|
  {
    if ns == [] then []
    else
      var n := ns[|ns| - 1];
      GroupTriples(g, d, ns[..|ns| - 1]) + (if n in d.items then [Triple(g, n, d.items[n])] else [])
  }

  function TableTriples(t: EpTable, gs: seq<string>): seq<Triple>
    decreases |gs|
  {
    if gs == [] then []
    else
      var g := gs[|gs| - 1];
      TableTriples(t, gs[..|gs| - 1]) + (if g in t.items then GroupTriples(g, t.items[g], t.items[g].keys) else [])
  }

  /** Every entry of `t`, group by group, each group in its own order. */
  function Triples(t: EpTable): seq<Triple> {
    TableTriples(t, t.keys)
  }

  lemma NoDupConcat(a: seq<Triple>, b: seq<Triple>)
    requires NoDupPairs(a) && NoDupPairs(b) && PairsOf(a) !! PairsOf(b)
    ensures NoDupPairs(a + b)
  {
    forall i, j | 0 <= i < j < |a + b| ensures Pair((a + b)[i]) != Pair((a + b)[j]) {
      if j < |a| {
      } else if i >= |a| {
        assert (a + b)[i] == b[i - |a|] && (a + b)[j] == b[j - |a|];
      } else {
        assert (a + b)[i] == a[i] && (a + b)[j] == b[j - |a|];
        assert Pair(a[i]) in PairsOf(a) && Pair(b[j - |a|]) in PairsOf(b);
      }
    }
  }

  lemma {:induction false} GroupTriplesSpec(g: string, d: EpGroup, ns: seq<string>)
    ensures forall x :: x in GroupTriples(g, d, ns) <==>
              x.group == g && x.name in ns && x.name in d.items && d.items[x.name] == x.details
    ensures Distinct(ns) ==> NoDupPairs(GroupTriples(g, d, ns))
    decreases |ns|
  {
    if ns != [] {
      var ns', n := ns[..|ns| - 1], ns[|ns| - 1];
      assert ns == ns' + [n];
      GroupTriplesSpec(g, d, ns');
      var last := if n in d.items then [Triple(g, n, d.items[n])] else [];
      assert GroupTriples(g, d, ns) == GroupTriples(g, d, ns') + last;
      if Distinct(ns) {
        assert Distinct(ns') by {
          forall i, j | 0 <= i < j < |ns'| ensures ns'[i] != ns'[j] {
            assert ns'[i] == ns[i] && ns'[j] == ns[j];
          }
        }
        assert n !in ns' by {
          forall i | 0 <= i < |ns'| ensures ns'[i] != n {
            assert ns'[i] == ns[i] && n == ns[|ns| - 1];
          }
        }
        NoDupConcat(GroupTriples(g, d, ns'), last);
      }
    }
  }

  lemma {:induction false} TableTriplesSpec(t: EpTable, gs: seq<string>)
    requires ValidTable(t)
    ensures forall x :: x in TableTriples(t, gs) <==> x.group in gs && InTable(t, x)
    ensures Distinct(gs) ==> NoDupPairs(TableTriples(t, gs))
    decreases |gs|
  {
    if gs != [] {
      var gs', g := gs[..|gs| - 1], gs[|gs| - 1];
      assert gs == gs' + [g];
      TableTriplesSpec(t, gs');
      var last := if g in t.items then GroupTriples(g, t.items[g], t.items[g].keys) else [];
      assert TableTriples(t, gs) == TableTriples(t, gs') + last;
      if g in t.items {
        GroupTriplesSpec(g, t.items[g], t.items[g].keys);
      }
      if Distinct(gs) {
        assert Distinct(gs') by {
          forall i, j | 0 <= i < j < |gs'| ensures gs'[i] != gs'[j] {
            assert gs'[i] == gs[i] && gs'[j] == gs[j];
          }
        }
        assert g !in gs' by {
          forall i | 0 <= i < |gs'| ensures gs'[i] != g {
            assert gs'[i] == gs[i] && g == gs[|gs| - 1];
          }
        }
        NoDupConcat(TableTriples(t, gs'), last);
      }
    }
  }

  /** Visiting a well-formed table yields each of its entries exactly once. */
  lemma TriplesSpec(t: EpTable)
    requires ValidTable(t)
    ensures forall x :: x in Triples(t) <==> InTable(t, x)
    ensures NoDupPairs(Triples(t))
    ensures PairsOf(Triples(t)) == TablePairs(t)
  {
    TableTriplesSpec(t, t.keys);
    forall p | p in TablePairs(t) ensures p in PairsOf(Triples(t)) {
      var x := Triple(p.0, p.1, t.items[p.0].items[p.1]);
      assert InTable(t, x);
      assert Pair(x) == p;
    }
  }

  // ---------------------------------------------------------------------------
  // Storing one entry: `table.setdefault(group, {})[name] = details`

  function SetEntry(t: EpTable, g: string, n: string, d: EpDetails): (r: EpTable)
    ensures ValidTable(t) ==> ValidTable(r)
    ensures InTable(r, Triple(g, n, d))
    ensures forall x :: Pair(x) != (g, n) ==> (InTable(r, x) <==> InTable(t, x))
    ensures forall h, m :: HasName(r, h, m) <==> HasName(t, h, m) || (h, m) == (g, n)
    ensures forall h :: h in t.items ==> h in r.items
    ensures forall h :: h in r.items && h != g ==> h in t.items && r.items[h] == t.items[h]
  {
    var group := if g in t.items then t.items[g] else EmptyDict();
    t.Put(g, group.Put(n, d))
  }

  lemma SetEntryPairs(t: EpTable, g: string, n: string, d: EpDetails)
    ensures TablePairs(SetEntry(t, g, n, d)) == TablePairs(t) + {(g, n)}
  {
    var r := SetEntry(t, g, n, d);
    forall p ensures p in TablePairs(r) <==> p in TablePairs(t) + {(g, n)} {
      TablePairsMember(r, p.0, p.1);
      TablePairsMember(t, p.0, p.1);
    }
  }

  // ---------------------------------------------------------------------------
  // Claiming registered entry points (core.py:387-397)

  /** `ep.value.startswith(main_module)` */
  predicate Claims(main: string, ep: EntryPoint) {
    StartsWith(ep.value, main)
  }

  function ClaimedPairs(eps: seq<EntryPoint>, main: string): set<(string, string)> {
    set ep | ep in eps && Claims(main, ep) :: (ep.group, ep.name)
  }

  function Claimed(eps: seq<EntryPoint>, main: string): (t: EpTable)
    ensures ValidTable(t)
    ensures TablePairs(t) == ClaimedPairs(eps, main)
    ensures forall x :: InTable(t, x) ==> exists ep :: ep in eps && Claims(main, ep) && Describes(ep, x)
    ensures forall g :: g in t.items ==> t.items[g].keys != []
    decreases |eps|
  {
    if eps == [] then EmptyDict()
    else
      var pre := eps[..|eps| - 1];
      var previous := Claimed(pre, main);
      var ep := eps[|eps| - 1];
      assert eps == pre + [ep];
      ClaimedStep(previous, pre, ep, main);
      if Claims(main, ep) then SetEntry(previous, ep.group, ep.name, EpDetails(ep.moduleName, ep.attr))
      else previous
  }

  /** The entry `ep` describes the triple `x`. */
  predicate Describes(ep: EntryPoint, x: Triple) {
    x == Triple(ep.group, ep.name, EpDetails(ep.moduleName, ep.attr))
  }

  /**
    One more registered entry point: a table with the properties `Claimed`
    promises for `eps` keeps them for `eps + [ep]` when `ep` is stored if
    claimed and skipped otherwise.
  */
  lemma ClaimedStep(t: EpTable, eps: seq<EntryPoint>, ep: EntryPoint, main: string)
    requires ValidTable(t) && TablePairs(t) == ClaimedPairs(eps, main)
    requires forall x :: InTable(t, x) ==> exists e :: e in eps && Claims(main, e) && Describes(e, x)
    requires forall g :: g in t.items ==> t.items[g].keys != []
    ensures var r := if Claims(main, ep) then SetEntry(t, ep.group, ep.name, EpDetails(ep.moduleName, ep.attr)) else t;
            && ValidTable(r)
            && TablePairs(r) == ClaimedPairs(eps + [ep], main)
            && (forall x :: InTable(r, x) ==> exists e :: e in eps + [ep] && Claims(main, e) && Describes(e, x))
            && (forall g :: g in r.items ==> r.items[g].keys != [])
  {
    var all := eps + [ep];
    if Claims(main, ep) {
      var d := EpDetails(ep.moduleName, ep.attr);
      var r := SetEntry(t, ep.group, ep.name, d);
      SetEntryPairs(t, ep.group, ep.name, d);
      assert ClaimedPairs(all, main) == ClaimedPairs(eps, main) + {(ep.group, ep.name)};
      forall x | InTable(r, x) ensures exists e :: e in all && Claims(main, e) && Describes(e, x) {
        if Pair(x) == (ep.group, ep.name) {
          assert InTable(r, Triple(ep.group, ep.name, d));
          assert ep in all && Describes(ep, x);
        } else {
          assert InTable(t, x);
          var e :| e in eps && Claims(main, e) && Describes(e, x);
          assert e in all;
        }
      }
      forall g | g in r.items ensures r.items[g].keys != [] {
        if g == ep.group {
          assert HasName(r, ep.group, ep.name);
        }
      }
    } else {
      assert ClaimedPairs(all, main) == ClaimedPairs(eps, main);
      forall x | InTable(t, x) ensures exists e :: e in all && Claims(main, e) && Describes(e, x) {
        var e :| e in eps && Claims(main, e) && Describes(e, x);
        assert e in all;
      }
    }
  }

  // ---------------------------------------------------------------------------
  // Build properties of one package (core.py:376-428)

  datatype BuildProps = BuildProps(resources: set<string>, hiddenImports: set<string>, entryPoints: EpTable)

  /**
    `set(value)` for the shapes the model accepts: a list of strings, a
    string (its characters) and a mapping (its keys).
  */
  function StringSet(v: Value): (r: Option<set<string>>)
    ensures r.Some? <==> v.Str? || v.Dict? || (v.List? && forall i :: 0 <= i < |v.items| ==> v.items[i].Str?)
    ensures r.Some? && v.List? ==> forall s :: s in r.value <==> Str(s) in v.items
    ensures r.Some? && v.Str? ==> (forall c :: [c] in r.value <==> c in v.s) && forall s :: s in r.value ==> |s| == 1
    ensures r.Some? && v.Dict? ==> r.value == v.entries.Keys
  {
    match v
    case List(items) =>
      if forall i :: 0 <= i < |items| ==> items[i].Str? then Some(set i | 0 <= i < |items| :: items[i].s) else None
    case Str(s) => Some(set c | c in s :: [c])
    case Dict(entries) => Some(entries.Keys)
    case _ => None
  }

  /** `set(build_properties.get(prop, []))` */
  function DeclaredSet(buildProperties: map<string, Value>, prop: string): Result<set<string>> {
    if prop !in buildProperties then Ok({})
    else match StringSet(buildProperties[prop])
      case None => Err(InvalidBuildProperties(prop))
      case Some(s) => Ok(s)
  }

  /** The four well-known files next to the main module (core.py:399-419). */
  function ResourceCandidates(moduleFile: string): seq<string> {
    var parent := PathDirname(moduleFile);
    [ PathJoin(parent, "resources"),
      PathJoin(parent, "version.txt"),
      PathJoin(parent, "_frkl.json"),
      PathJoin(PathJoin(moduleFile, "_frkl"), "_frkl.json") ]
  }

  /** The build properties of package `main` whose metadata is `md`. */
  function BuildPropertiesOf(env: Env, main: string, md: Result<Meta>): (r: Result<BuildProps>)
    ensures r.Ok? ==> md.Ok? && Importable(env, main)
    ensures r.Ok? ==> main + ".defaults" in r.value.hiddenImports
    ensures r.Ok? ==> ValidTable(r.value.entryPoints)
    ensures r.Ok? ==> TablePairs(r.value.entryPoints) == ClaimedPairs(env.entryPoints, main)
    ensures r.Ok? ==> forall p :: p in r.value.resources && p !in ResourceCandidates(env.packages[main].moduleFile.value)
                                  ==> "build_properties" in md.value
  {
    if md.Err? then Err(md.error)
    else
      var pd := BuildPropertiesEntry(md.value);
      if !pd.Dict? then Err(InvalidBuildProperties("build_properties"))
      else
        var resources := DeclaredSet(pd.entries, "resources");
        var hidden := DeclaredSet(pd.entries, "hidden_imports");
        if resources.Err? then Err(resources.error)
        else if hidden.Err? then Err(hidden.error)
        else if !Importable(env, main) then Err(ImportFailed(main))
        else
          var file := env.packages[main].moduleFile.value;
          Ok(BuildProps(resources.value + (set p | p in ResourceCandidates(file) && p in env.existingPaths),
                        hidden.value + {main + ".defaults"},
                        Claimed(env.entryPoints, main)))
  }

  /** `self.metadata.get("build_properties", {})` */
  function BuildPropertiesEntry(m: Meta): Value {
    if "build_properties" in m then m["build_properties"] else Dict(map[])
  }

  /**
    The set logic of `find_build_properties`: it fails exactly when the
    metadata fails, the `build_properties` entry is not a mapping, one of
    its two declared sets cannot be built, or the module does not import.
    On success the resources are the declared ones plus every candidate
    path that exists, and the hidden imports are the declared ones plus
    `<main>.defaults`.
  */
  lemma BuildPropertiesSpec(env: Env, main: string, md: Result<Meta>)
    ensures var r := BuildPropertiesOf(env, main, md);
            && (md.Err? ==> r == Err(md.error))
            && (md.Ok? ==>
                  var pd := BuildPropertiesEntry(md.value);
                  && (r.Err? <==> !pd.Dict? || DeclaredSet(pd.entries, "resources").Err?
                                  || DeclaredSet(pd.entries, "hidden_imports").Err? || !Importable(env, main))
                  && (r.Err? ==> r.error.InvalidBuildProperties? || r.error == ImportFailed(main))
                  && (r.Ok? ==>
                        var file := env.packages[main].moduleFile.value;
                        && (forall p :: p in r.value.resources <==>
                              p in DeclaredSet(pd.entries, "resources").value
                              || (p in ResourceCandidates(file) && p in env.existingPaths))
                        && r.value.hiddenImports == DeclaredSet(pd.entries, "hidden_imports").value + {main + ".defaults"}))
  {
  }

  // ---------------------------------------------------------------------------
  // Merging entry points (core.py:436-466)

  datatype Merged = Merged(entryPoints: EpTable, hiddenImports: set<string>)

  /** One entry into the merged table: a name already in its group is a hard error. */
  function MergeStep(acc: Result<Merged>, x: Triple): Result<Merged> {
    match acc
    case Err(e) => Err(e)
    case Ok(m) =>
      if HasName(m.entryPoints, x.group, x.name) then Err(DuplicateEntryPoint(x.group, x.name))
      else Ok(Merged(SetEntry(m.entryPoints, x.group, x.name, x.details), m.hiddenImports + {x.details.moduleName}))
  }

  function MergeAll(acc: Result<Merged>, ts: seq<Triple>): Result<Merged>
    decreases |ts|
  {
    if ts == [] then acc else MergeStep(MergeAll(acc, ts[..|ts| - 1]), ts[|ts| - 1])
  }

  lemma {:induction false} MergeAllErr(e: Error, ts: seq<Triple>)
    ensures MergeAll(Err(e), ts) == Err(e)
    decreases |ts|
  {
    if ts != [] {
      MergeAllErr(e, ts[..|ts| - 1]);
    }
  }

  lemma {:induction false} MergeAllConcat(acc: Result<Merged>, a: seq<Triple>, b: seq<Triple>)
    ensures MergeAll(acc, a + b) == MergeAll(MergeAll(acc, a), b)
    decreases |b|
  {
    if b == [] {
      assert a + b == a;
    } else {
      var b' := b[..|b| - 1];
      assert (a + b)[..|a + b| - 1] == a + b';
      MergeAllConcat(acc, a, b');
    }
  }

  lemma PairsOfSnoc(ts: seq<Triple>, x: Triple)
    ensures PairsOf(ts + [x]) == PairsOf(ts) + {Pair(x)}
    ensures ModulesOf(ts + [x]) == ModulesOf(ts) + {x.details.moduleName}
    ensures NoDupPairs(ts + [x]) <==> NoDupPairs(ts) && Pair(x) !in PairsOf(ts)
  {
    var s := ts + [x];
    if NoDupPairs(s) {
      assert NoDupPairs(ts) by {
        forall i, j | 0 <= i < j < |ts| ensures Pair(ts[i]) != Pair(ts[j]) {
          assert s[i] == ts[i] && s[j] == ts[j];
        }
      }
      assert Pair(x) !in PairsOf(ts) by {
        forall y | y in ts ensures Pair(y) != Pair(x) {
          var i :| 0 <= i < |ts| && ts[i] == y;
          assert s[i] == y && s[|ts|] == x;
        }
      }
    }
    if NoDupPairs(ts) && Pair(x) !in PairsOf(ts) {
      forall i, j | 0 <= i < j < |s| ensures Pair(s[i]) != Pair(s[j]) {
        if j == |ts| {
          assert s[i] == ts[i] && s[j] == x;
          assert Pair(ts[i]) in PairsOf(ts);
        } else {
          assert s[i] == ts[i] && s[j] == ts[j];
        }
      }
    }
  }

  /**
    Merging a sequence of entries into a well-formed table succeeds exactly
    when no entry's (group, name) is already present or repeated; then every
    entry is stored, nothing present is lost, and every entry's module is a
    hidden import. Otherwise the error names a duplicate entry point.
  */
  lemma {:induction false} MergeAllSpec(m: Merged, ts: seq<Triple>)
    requires ValidTable(m.entryPoints)
    ensures var r := MergeAll(Ok(m), ts);
            && (r.Ok? <==> PairsOf(ts) !! TablePairs(m.entryPoints) && NoDupPairs(ts))
            && (r.Err? ==> r.error.DuplicateEntryPoint?)
            && (r.Ok? ==>
                  && ValidTable(r.value.entryPoints)
                  && TablePairs(r.value.entryPoints) == TablePairs(m.entryPoints) + PairsOf(ts)
                  && r.value.hiddenImports == m.hiddenImports + ModulesOf(ts)
                  && (forall x :: x in ts ==> InTable(r.value.entryPoints, x))
                  && (forall x :: InTable(m.entryPoints, x) ==> InTable(r.value.entryPoints, x)))
    decreases |ts|
  {
    if ts != [] {
      var ts', x := ts[..|ts| - 1], ts[|ts| - 1];
      assert ts == ts' + [x];
      MergeAllSpec(m, ts');
      PairsOfSnoc(ts', x);
      var r' := MergeAll(Ok(m), ts');
      if r'.Ok? {
        MergeStepSpec(m, r'.value, ts', x);
      } else {
        MergeAllErr(r'.error, [x]);
      }
    }
  }

  /** The induction step of `MergeAllSpec`: one more entry merged into the merge of `ts`. */
  lemma MergeStepSpec(m: Merged, m': Merged, ts: seq<Triple>, x: Triple)
    requires ValidTable(m'.entryPoints)
    requires TablePairs(m'.entryPoints) == TablePairs(m.entryPoints) + PairsOf(ts)
    requires forall y :: y in ts ==> InTable(m'.entryPoints, y)
    requires forall y :: InTable(m.entryPoints, y) ==> InTable(m'.entryPoints, y)
    ensures var r := MergeStep(Ok(m'), x);
            && (r.Ok? <==> Pair(x) !in TablePairs(m'.entryPoints))
            && (r.Err? ==> r.error.DuplicateEntryPoint?)
            && (r.Ok? ==>
                  && ValidTable(r.value.entryPoints)
                  && TablePairs(r.value.entryPoints) == TablePairs(m'.entryPoints) + {Pair(x)}
                  && r.value.hiddenImports == m'.hiddenImports + {x.details.moduleName}
                  && (forall y :: y in ts + [x] ==> InTable(r.value.entryPoints, y))
                  && (forall y :: InTable(m.entryPoints, y) ==> InTable(r.value.entryPoints, y)))
  {
    TablePairsMember(m'.entryPoints, x.group, x.name);
    if !HasName(m'.entryPoints, x.group, x.name) {
      SetEntryPairs(m'.entryPoints, x.group, x.name, x.details);
      var r := MergeStep(Ok(m'), x);
      forall y | y in ts + [x] ensures InTable(r.value.entryPoints, y) {
        if y != x {
          assert y in ts;
          assert Pair(y) != Pair(x) by {
            assert Pair(y) in PairsOf(ts);
          }
        }
      }
      forall y | InTable(m.entryPoints, y) ensures InTable(r.value.entryPoints, y) {
        assert Pair(y) != Pair(x) by {
          TablePairsMember(m.entryPoints, y.group, y.name);
        }
      }
    }
  }

  lemma MergeAllSnoc(acc: Result<Merged>, ts: seq<Triple>, x: Triple)
    ensures MergeAll(acc, ts + [x]) == MergeStep(MergeAll(acc, ts), x)
  {
    assert (ts + [x])[..|ts|] == ts;
  }

  /** The inner loop of core.py:441-448 (and 460-466): one group's entries merged in order. */
  method MergeGroup(acc: Merged, g: string, group: EpGroup) returns (r: Result<Merged>)
    requires group.Valid()
    ensures r == MergeAll(Ok(acc), GroupTriples(g, group, group.keys))
  {
    var state := acc;
    for i := 0 to |group.keys|
      invariant MergeAll(Ok(acc), GroupTriples(g, group, group.keys[..i])) == Ok(state)
    {
      var name := group.keys[i];
      MergeGroupStep(acc, g, group, i, state);
      if HasName(state.entryPoints, g, name) {
        MergeGroupFails(acc, g, group, i, DuplicateEntryPoint(g, name));
        return Err(DuplicateEntryPoint(g, name));
      }
      var d := group.items[name];
      state := Merged(SetEntry(state.entryPoints, g, name, d), state.hiddenImports + {d.moduleName});
    }
    assert group.keys[..|group.keys|] == group.keys;
    r := Ok(state);
  }

  /**
    The `i`-th name of a group continues the merge of the names before it:
    a name not yet present is stored ...
  */
  lemma MergeGroupStep(acc: Merged, g: string, group: EpGroup, i: nat, state: Merged)
    requires group.Valid() && i < |group.keys|
    requires MergeAll(Ok(acc), GroupTriples(g, group, group.keys[..i])) == Ok(state)
    ensures group.keys[i] in group.items
    ensures MergeAll(Ok(acc), GroupTriples(g, group, group.keys[..i + 1]))
            == MergeStep(Ok(state), Triple(g, group.keys[i], group.items[group.keys[i]]))
  {
    GroupTriplesNext(g, group, i);
    MergeAllSnoc(Ok(acc), GroupTriples(g, group, group.keys[..i]), Triple(g, group.keys[i], group.items[group.keys[i]]));
  }

  lemma GroupTriplesNext(g: string, group: EpGroup, i: nat)
    requires group.Valid() && i < |group.keys|
    ensures group.keys[i] in group.items
    ensures GroupTriples(g, group, group.keys[..i + 1])
            == GroupTriples(g, group, group.keys[..i]) + [Triple(g, group.keys[i], group.items[group.keys[i]])]
  {
    assert group.keys[i] in group.items;
    assert group.keys[..i + 1][..i] == group.keys[..i];
  }

  /** ... and a name already present fails the merge of the whole group. */
  lemma MergeGroupFails(acc: Merged, g: string, group: EpGroup, i: nat, e: Error)
    requires group.Valid() && i < |group.keys|
    requires MergeAll(Ok(acc), GroupTriples(g, group, group.keys[..i + 1])) == Err(e)
    ensures MergeAll(Ok(acc), GroupTriples(g, group, group.keys)) == Err(e)
  {
    GroupTriplesPrefix(g, group, group.keys, i + 1);
    MergeFailsEarly(Ok(acc), GroupTriples(g, group, group.keys), |GroupTriples(g, group, group.keys[..i + 1])|, e);
  }

  /** Visiting a prefix of the names yields a prefix of the entries. */
  lemma {:induction false} GroupTriplesPrefix(g: string, group: EpGroup, ns: seq<string>, k: nat)
    requires k <= |ns|
    ensures var pre := GroupTriples(g, group, ns[..k]);
            |pre| <= |GroupTriples(g, group, ns)| && GroupTriples(g, group, ns)[..|pre|] == pre
    decreases |ns| - k
  {
    if k < |ns| {
      GroupTriplesPrefix(g, group, ns, k + 1);
      assert ns[..k + 1][..k] == ns[..k];
    } else {
      assert ns[..k] == ns;
    }
  }

  /** Visiting a prefix of the groups yields a prefix of the entries. */
  lemma {:induction false} TableTriplesPrefix(t: EpTable, gs: seq<string>, k: nat)
    requires k <= |gs|
    ensures var pre := TableTriples(t, gs[..k]);
            |pre| <= |TableTriples(t, gs)| && TableTriples(t, gs)[..|pre|] == pre
    decreases |gs| - k
  {
    if k < |gs| {
      TableTriplesPrefix(t, gs, k + 1);
      assert gs[..k + 1][..k] == gs[..k];
    } else {
      assert gs[..k] == gs;
    }
  }

  /** A failure while visiting a prefix is the failure of the whole merge. */
  lemma MergeFailsEarly(acc: Result<Merged>, ts: seq<Triple>, k: nat, e: Error)
    requires k <= |ts| && MergeAll(acc, ts[..k]) == Err(e)
    ensures MergeAll(acc, ts) == Err(e)
  {
    assert ts == ts[..k] + ts[k..];
    MergeAllConcat(acc, ts[..k], ts[k..]);
    MergeAllErr(e, ts[k..]);
  }

  /**
    Merging the `i`-th group of `add` continues the merge of the groups before
    it, and a failure there is the failure of the whole merge.
  */
  lemma MergeTableStep(acc: Merged, add: EpTable, i: nat, state: Merged, next: Result<Merged>)
    requires i < |add.keys| && add.keys[i] in add.items
    requires MergeAll(Ok(acc), TableTriples(add, add.keys[..i])) == Ok(state)
    requires next == MergeAll(Ok(state), GroupTriples(add.keys[i], add.items[add.keys[i]], add.items[add.keys[i]].keys))
    ensures MergeAll(Ok(acc), TableTriples(add, add.keys[..i + 1])) == next
  {
    var g := add.keys[i];
    TableTriplesNext(add, i);
    MergeAllConcat(Ok(acc), TableTriples(add, add.keys[..i]), GroupTriples(g, add.items[g], add.items[g].keys));
  }

  lemma TableTriplesNext(add: EpTable, i: nat)
    requires i < |add.keys| && add.keys[i] in add.items
    ensures TableTriples(add, add.keys[..i + 1])
            == TableTriples(add, add.keys[..i]) + GroupTriples(add.keys[i], add.items[add.keys[i]], add.items[add.keys[i]].keys)
  {
    assert add.keys[..i + 1][..i] == add.keys[..i];
  }

  /** A group whose merge fails aborts the merge of the whole table. */
  lemma MergeTableFails(acc: Merged, add: EpTable, i: nat, e: Error)
    requires i < |add.keys|
    requires MergeAll(Ok(acc), TableTriples(add, add.keys[..i + 1])) == Err(e)
    ensures MergeAll(Ok(acc), Triples(add)) == Err(e)
  {
    TableTriplesPrefix(add, add.keys, i + 1);
    MergeFailsEarly(Ok(acc), Triples(add), |TableTriples(add, add.keys[..i + 1])|, e);
  }

  /**
    The nested loops of core.py:439-448: every entry of `add`, group by group,
    merged into `acc`; the first repeated name aborts the merge.
  */
  method MergeEntryPoints(acc: Merged, add: EpTable) returns (r: Result<Merged>)
    requires ValidTable(add)
    ensures r == MergeAll(Ok(acc), Triples(add))
  {
    var state := acc;
    for i := 0 to |add.keys|
      invariant MergeAll(Ok(acc), TableTriples(add, add.keys[..i])) == Ok(state)
    {
      var g := add.keys[i];
      assert g in add.items;
      var next := MergeGroup(state, g, add.items[g]);
      MergeTableStep(acc, add, i, state, next);
      if next.Err? {
        MergeTableFails(acc, add, i, next.error);
        return next;
      }
      state := next.value;
    }
    assert add.keys[..|add.keys|] == add.keys;
    r := Ok(state);
  }

  // ---------------------------------------------------------------------------
  // Aggregating the main package and its siblings (core.py:430-466)

  datatype Aggregate = Aggregate(resources: map<string, set<string>>, merged: Merged)

  /**
    One package's contribution: its resources under its name, its hidden
    imports, then its entry points merged in.
  */
  function AddPackage(acc: Result<Aggregate>, name: string, bp: BuildProps): Result<Aggregate> {
    match acc
    case Err(e) => Err(e)
    case Ok(a) =>
      var m := MergeAll(Ok(Merged(a.merged.entryPoints, a.merged.hiddenImports + bp.hiddenImports)),
                        Triples(bp.entryPoints));
      if m.Err? then Err(m.error) else Ok(Aggregate(a.resources[name := bp.resources], m.value))
  }

  /** The packages in processing order: the main package first, then each sibling. */
  function AggregateAll(pkgs: seq<(string, BuildProps)>): Result<Aggregate>
    decreases |pkgs|
  {
    if pkgs == [] then Ok(Aggregate(map[], Merged(EmptyDict(), {})))
    else AddPackage(AggregateAll(pkgs[..|pkgs| - 1]), pkgs[|pkgs| - 1].0, pkgs[|pkgs| - 1].1)
  }

  /** What one package contributes to the hidden imports. */
  ghost function PackageImports(bp: BuildProps): set<string> {
    bp.hiddenImports + ModulesOf(Triples(bp.entryPoints))
  }

  ghost function UnionImports(pkgs: seq<(string, BuildProps)>): set<string>
    decreases |pkgs|
  {
    if pkgs == [] then {} else UnionImports(pkgs[..|pkgs| - 1]) + PackageImports(pkgs[|pkgs| - 1].1)
  }

  ghost function UnionPairs(pkgs: seq<(string, BuildProps)>): set<(string, string)>
    decreases |pkgs|
  {
    if pkgs == [] then {} else UnionPairs(pkgs[..|pkgs| - 1]) + TablePairs(pkgs[|pkgs| - 1].1.entryPoints)
  }

  ghost predicate AllValid(pkgs: seq<(string, BuildProps)>) {
    forall i :: 0 <= i < |pkgs| ==> ValidTable(pkgs[i].1.entryPoints)
  }

  /** No (group, name) pair is registered by two different packages. */
  ghost predicate PairwiseDisjoint(pkgs: seq<(string, BuildProps)>) {
    forall i, j :: 0 <= i < j < |pkgs| ==> TablePairs(pkgs[i].1.entryPoints) !! TablePairs(pkgs[j].1.entryPoints)
  }

  function Names(pkgs: seq<(string, BuildProps)>): set<string> {
    set i | 0 <= i < |pkgs| :: pkgs[i].0
  }

  lemma {:induction false} UnionMember(pkgs: seq<(string, BuildProps)>)
    ensures forall p :: p in UnionPairs(pkgs) <==> exists i :: 0 <= i < |pkgs| && p in TablePairs(pkgs[i].1.entryPoints)
    ensures forall s :: s in UnionImports(pkgs) <==> exists i :: 0 <= i < |pkgs| && s in PackageImports(pkgs[i].1)
    decreases |pkgs|
  {
    if pkgs != [] {
      var pre := pkgs[..|pkgs| - 1];
      UnionMember(pre);
      forall i | 0 <= i < |pre| ensures pre[i] == pkgs[i] { }
    }
  }

  /** One package added to a well-formed aggregate. */
  lemma AddPackageSpec(a: Aggregate, name: string, bp: BuildProps)
    requires ValidTable(a.merged.entryPoints) && ValidTable(bp.entryPoints)
    ensures var r := AddPackage(Ok(a), name, bp);
            && (r.Ok? <==> TablePairs(bp.entryPoints) !! TablePairs(a.merged.entryPoints))
            && (r.Err? ==> r.error.DuplicateEntryPoint?)
            && (r.Ok? ==>
                  && ValidTable(r.value.merged.entryPoints)
                  && TablePairs(r.value.merged.entryPoints) == TablePairs(a.merged.entryPoints) + TablePairs(bp.entryPoints)
                  && r.value.merged.hiddenImports == a.merged.hiddenImports + PackageImports(bp)
                  && r.value.resources == a.resources[name := bp.resources]
                  && (forall x :: x in Triples(bp.entryPoints) ==> InTable(r.value.merged.entryPoints, x))
                  && (forall x :: InTable(a.merged.entryPoints, x) ==> InTable(r.value.merged.entryPoints, x)))
  {
    var start := Merged(a.merged.entryPoints, a.merged.hiddenImports + bp.hiddenImports);
    MergeAllSpec(start, Triples(bp.entryPoints));
    TriplesSpec(bp.entryPoints);
  }

  lemma PairwiseDisjointSnoc(pkgs: seq<(string, BuildProps)>)
    requires pkgs != []
    ensures var pre := pkgs[..|pkgs| - 1];
            PairwiseDisjoint(pkgs) <==>
              PairwiseDisjoint(pre) && TablePairs(pkgs[|pkgs| - 1].1.entryPoints) !! UnionPairs(pre)
  {
    var pre, last := pkgs[..|pkgs| - 1], pkgs[|pkgs| - 1];
    assert forall i :: 0 <= i < |pre| ==> pre[i] == pkgs[i];
    UnionMember(pre);
    if PairwiseDisjoint(pkgs) {
      forall p | p in TablePairs(last.1.entryPoints) ensures p !in UnionPairs(pre) {
      }
    }
    if PairwiseDisjoint(pre) && TablePairs(last.1.entryPoints) !! UnionPairs(pre) {
      forall i, j | 0 <= i < j < |pkgs|
        ensures TablePairs(pkgs[i].1.entryPoints) !! TablePairs(pkgs[j].1.entryPoints)
      {
        if j == |pkgs| - 1 {
          forall p | p in TablePairs(pkgs[i].1.entryPoints) ensures p !in TablePairs(last.1.entryPoints) {
            assert p in TablePairs(pre[i].1.entryPoints);
          }
        } else {
          assert pkgs[i] == pre[i] && pkgs[j] == pre[j];
        }
      }
    }
  }

  lemma NamesSnoc(pkgs: seq<(string, BuildProps)>)
    requires pkgs != []
    ensures Names(pkgs) == Names(pkgs[..|pkgs| - 1]) + {pkgs[|pkgs| - 1].0}
  {
    var pre := pkgs[..|pkgs| - 1];
    forall s | s in Names(pkgs) ensures s in Names(pre) + {pkgs[|pkgs| - 1].0} {
      var i :| 0 <= i < |pkgs| && pkgs[i].0 == s;
      if i < |pre| { assert pre[i].0 == s; }
    }
    forall s | s in Names(pre) ensures s in Names(pkgs) {
      var i :| 0 <= i < |pre| && pre[i].0 == s;
      assert pkgs[i].0 == s;
    }
  }

  /**
    The aggregate of well-formed packages succeeds exactly when no two
    packages share a (group, name); it then holds one resource entry per
    package name, every package's hidden imports and entry-point modules,
    and exactly the (group, name) pairs of all packages. A failure is always
    a duplicate entry point.
  */
  lemma {:induction false} AggregateAllSpec(pkgs: seq<(string, BuildProps)>)
    requires AllValid(pkgs)
    ensures var r := AggregateAll(pkgs);
            && (r.Ok? <==> PairwiseDisjoint(pkgs))
            && (r.Err? ==> r.error.DuplicateEntryPoint?)
            && (r.Ok? ==>
                  && ValidTable(r.value.merged.entryPoints)
                  && TablePairs(r.value.merged.entryPoints) == UnionPairs(pkgs)
                  && r.value.merged.hiddenImports == UnionImports(pkgs)
                  && r.value.resources.Keys == Names(pkgs))
    decreases |pkgs|
  {
    if pkgs != [] {
      var pre, last := pkgs[..|pkgs| - 1], pkgs[|pkgs| - 1];
      assert forall i :: 0 <= i < |pre| ==> pre[i] == pkgs[i];
      AggregateAllSpec(pre);
      PairwiseDisjointSnoc(pkgs);
      NamesSnoc(pkgs);
      var acc := AggregateAll(pre);
      if acc.Ok? {
        AddPackageSpec(acc.value, last.0, last.1);
      }
    }
  }

  /** A successful aggregate stores every entry point of every package unchanged. */
  lemma {:induction false} AggregateAllKeepsEntries(pkgs: seq<(string, BuildProps)>)
    requires AllValid(pkgs)
    requires AggregateAll(pkgs).Ok?
    ensures ValidTable(AggregateAll(pkgs).value.merged.entryPoints)
    ensures forall i, x :: 0 <= i < |pkgs| && x in Triples(pkgs[i].1.entryPoints)
                           ==> InTable(AggregateAll(pkgs).value.merged.entryPoints, x)
    decreases |pkgs|
  {
    if pkgs != [] {
      var pre := pkgs[..|pkgs| - 1];
      assert forall i :: 0 <= i < |pre| ==> pre[i] == pkgs[i];
      AggregateAllKeepsEntries(pre);
      KeepsStep(pkgs, AggregateAll(pre).value);
    }
  }

  lemma KeepsStep(pkgs: seq<(string, BuildProps)>, a: Aggregate)
    requires pkgs != [] && ValidTable(a.merged.entryPoints) && ValidTable(pkgs[|pkgs| - 1].1.entryPoints)
    requires forall i, x :: 0 <= i < |pkgs| - 1 && x in Triples(pkgs[i].1.entryPoints) ==> InTable(a.merged.entryPoints, x)
    requires AddPackage(Ok(a), pkgs[|pkgs| - 1].0, pkgs[|pkgs| - 1].1).Ok?
    ensures var t := AddPackage(Ok(a), pkgs[|pkgs| - 1].0, pkgs[|pkgs| - 1].1).value.merged.entryPoints;
            && ValidTable(t)
            && forall i, x :: 0 <= i < |pkgs| && x in Triples(pkgs[i].1.entryPoints) ==> InTable(t, x)
  {
    var last := pkgs[|pkgs| - 1];
    AddPackageSpec(a, last.0, last.1);
    var t := AddPackage(Ok(a), last.0, last.1).value.merged.entryPoints;
    forall i, x | 0 <= i < |pkgs| && x in Triples(pkgs[i].1.entryPoints)
      ensures InTable(t, x)
    {
      if i < |pkgs| - 1 {
        assert InTable(a.merged.entryPoints, x);
      }
    }
  }

  // ---------------------------------------------------------------------------
  // The packages of create_package_data (core.py:432-466)

  /**
    The build properties of the packages `names`, in order, each computed
    from its metadata, which its cache in `cached` holds or which is
    normalised afresh.
  */
  function PackageProps(env: Env, names: seq<string>, cached: seq<Option<Meta>>): (bps: seq<Result<BuildProps>>)
    requires |names| == |cached|
    ensures |bps| == |names|
  {
    seq(|names|, k requires 0 <= k < |names| => BuildPropertiesOf(env, names[k], MetadataFrom(env, names[k], cached[k])))
  }

  /** The build properties of two lists of packages, one after the other. */
  lemma PackagePropsConcat(env: Env, n1: seq<string>, c1: seq<Option<Meta>>, n2: seq<string>, c2: seq<Option<Meta>>)
    requires |n1| == |c1| && |n2| == |c2|
    ensures PackageProps(env, n1 + n2, c1 + c2) == PackageProps(env, n1, c1) + PackageProps(env, n2, c2)
  {
    var all, left, right := PackageProps(env, n1 + n2, c1 + c2), PackageProps(env, n1, c1), PackageProps(env, n2, c2);
    forall k | 0 <= k < |all| ensures all[k] == (left + right)[k] {
      if k < |n1| {
        assert (n1 + n2)[k] == n1[k] && (c1 + c2)[k] == c1[k];
      } else {
        assert (n1 + n2)[k] == n2[k - |n1|] && (c1 + c2)[k] == c2[k - |n1|];
      }
    }
  }

  /**
    The aggregate of the packages `names` with the build properties `bps`,
    in order. The first failure stops the scan: one package's build
    properties, then its merge, then the next package's build properties.
  */
  function PackagesFold(names: seq<string>, bps: seq<Result<BuildProps>>): Result<Aggregate>
    requires |names| == |bps|
    decreases |names|
  {
    if names == [] then AggregateAll([])
    else
      var n := |names| - 1;
      match PackagesFold(names[..n], bps[..n])
      case Err(e) => Err(e)
      case Ok(a) =>
        match bps[n]
        case Err(e) => Err(e)
        case Ok(bp) => AddPackage(Ok(a), names[n], bp)
  }

  /** One more package: its build properties, then its merge. */
  lemma PackagesFoldStep(names: seq<string>, bps: seq<Result<BuildProps>>, k: nat, state: Aggregate)
    requires |names| == |bps| && k < |names|
    requires PackagesFold(names[..k], bps[..k]) == Ok(state)
    ensures PackagesFold(names[..k + 1], bps[..k + 1])
            == if bps[k].Err? then Err(bps[k].error) else AddPackage(Ok(state), names[k], bps[k].value)
  {
    assert names[..k + 1][..k] == names[..k] && bps[..k + 1][..k] == bps[..k];
  }

  /** The build properties of every package are found. */
  predicate AllFound(bps: seq<Result<BuildProps>>) {
    forall k :: 0 <= k < |bps| ==> bps[k].Ok?
  }

  /** The packages with their build properties, when all of them are found. */
  function FoundPackages(names: seq<string>, bps: seq<Result<BuildProps>>): (pkgs: seq<(string, BuildProps)>)
    requires |names| == |bps| && AllFound(bps)
    ensures |pkgs| == |names| && forall k :: 0 <= k < |names| ==> pkgs[k] == (names[k], bps[k].value)
  {
    seq(|names|, k requires 0 <= k < |names| => (names[k], bps[k].value))
  }

  /**
    The scan succeeds only when every package's build properties are found;
    once they are, it is the aggregate of the found packages, and a failing
    package's build properties give the error of the first failing one
    unless a merge failed before it.
  */
  lemma {:induction false} PackagesFoldAggregate(names: seq<string>, bps: seq<Result<BuildProps>>)
    requires |names| == |bps|
    ensures PackagesFold(names, bps).Ok? ==> AllFound(bps)
    ensures AllFound(bps) ==> PackagesFold(names, bps) == AggregateAll(FoundPackages(names, bps))
    decreases |names|
  {
    if names != [] {
      var n := |names| - 1;
      PackagesFoldAggregate(names[..n], bps[..n]);
      var prefix := PackagesFold(names[..n], bps[..n]);
      if PackagesFold(names, bps).Ok? {
        assert prefix.Ok? && bps[n].Ok?;
        forall k | 0 <= k < |bps| ensures bps[k].Ok? {
          if k < n { assert bps[..n][k] == bps[k]; }
        }
      }
      if AllFound(bps) {
        assert AllFound(bps[..n]) by {
          forall k | 0 <= k < n ensures bps[..n][k].Ok? { assert bps[..n][k] == bps[k]; }
        }
        var pre, pkgs := FoundPackages(names[..n], bps[..n]), FoundPackages(names, bps);
        assert pkgs[..n] == pre;
        assert AggregateAll(pkgs) == AddPackage(AggregateAll(pre), names[n], bps[n].value);
      }
    }
  }

  /**
    Once every package's build properties are found, the scan succeeds
    exactly when no two packages register the same (group, name); it then
    holds one resource entry per package, every hidden import and
    entry-point module, and exactly the pairs of all packages. A failure is
    then always a duplicate entry point.
  */
  lemma PackagesFoldSpec(names: seq<string>, bps: seq<Result<BuildProps>>)
    requires |names| == |bps| && AllFound(bps)
    requires forall k :: 0 <= k < |bps| ==> ValidTable(bps[k].value.entryPoints)
    ensures var pkgs := FoundPackages(names, bps);
            var r := PackagesFold(names, bps);
            && (r.Ok? <==> PairwiseDisjoint(pkgs))
            && (r.Err? ==> r.error.DuplicateEntryPoint?)
            && (r.Ok? ==>
                  && TablePairs(r.value.merged.entryPoints) == UnionPairs(pkgs)
                  && r.value.merged.hiddenImports == UnionImports(pkgs)
                  && r.value.resources.Keys == (set n | n in names))
  {
    var pkgs := FoundPackages(names, bps);
    PackagesFoldAggregate(names, bps);
    AggregateAllSpec(pkgs);
    assert Names(pkgs) == (set n | n in names) by {
      forall s | s in Names(pkgs) ensures s in names {
        var i :| 0 <= i < |pkgs| && pkgs[i].0 == s;
      }
      forall s | s in names ensures s in Names(pkgs) {
        var i :| 0 <= i < |names| && names[i] == s;
        assert pkgs[i].0 == s;
      }
    }
  }

  /**
    A successful scan's hidden imports hold every package's own hidden
    imports and the module of every entry point the package claims.
  */
  lemma PackagesFoldImports(names: seq<string>, bps: seq<Result<BuildProps>>)
    requires |names| == |bps|
    requires forall k :: 0 <= k < |bps| && bps[k].Ok? ==> ValidTable(bps[k].value.entryPoints)
    ensures var r := PackagesFold(names, bps);
            r.Ok? ==> AllFound(bps) && forall k :: 0 <= k < |bps| ==>
                        && bps[k].value.hiddenImports <= r.value.merged.hiddenImports
                        && forall x :: InTable(bps[k].value.entryPoints, x) ==> x.details.moduleName in r.value.merged.hiddenImports
  {
    PackagesFoldAggregate(names, bps);
    if PackagesFold(names, bps).Ok? {
      PackagesFoldSpec(names, bps);
      var pkgs := FoundPackages(names, bps);
      UnionMember(pkgs);
      forall k | 0 <= k < |bps|
        ensures bps[k].value.hiddenImports <= UnionImports(pkgs)
        ensures forall x :: InTable(bps[k].value.entryPoints, x) ==> x.details.moduleName in UnionImports(pkgs)
      {
        TriplesSpec(bps[k].value.entryPoints);
        assert pkgs[k].1 == bps[k].value;
      }
    }
  }

  /**
    End to end: when the scan of the main package and its siblings
    succeeds, every package's `.defaults` module and every entry-point
    module it claims is among the hidden imports handed to PyInstaller.
  */
  lemma ScanHiddenImports(env: Env, names: seq<string>, cached: seq<Option<Meta>>)
    requires |names| == |cached|
    ensures var bps := PackageProps(env, names, cached);
            var r := PackagesFold(names, bps);
            r.Ok? ==> AllFound(bps) && forall k :: 0 <= k < |names| ==>
                        && names[k] + ".defaults" in r.value.merged.hiddenImports
                        && forall x :: InTable(bps[k].value.entryPoints, x) ==> x.details.moduleName in r.value.merged.hiddenImports
  {
    var bps := PackageProps(env, names, cached);
    forall k | 0 <= k < |bps| && bps[k].Ok?
      ensures ValidTable(bps[k].value.entryPoints) && names[k] + ".defaults" in bps[k].value.hiddenImports
    {
      assert bps[k] == BuildPropertiesOf(env, names[k], MetadataFrom(env, names[k], cached[k]));
    }
    PackagesFoldImports(names, bps);
  }
}
