/**
  `ProjectMetadata` (core.py): the record of one frkl package. Every memoised
  property is a method that fills its cache on first success; its contract
  says that the result is what the matching `...Now` function gives in the
  state before the call, and what the cache holds afterwards. The process
  facts are the `Env` argument.
*/
module Core {
  import opened Values
  import opened Text
  import opened Environment
  import opened Discovery
  import opened MetadataRules
  import opened BuildRules
  import opened ProjectRules

  /** The content of a bundle's `app.json`. */
  datatype AppFile = AppFile(metadata: Meta, version: Value, buildInfo: Value, otherVersions: map<string, Value>)

  /** `to_dict()`, with `build_info` as `create_package_data` adds it. */
  datatype AppDetails = AppDetails(mainModule: Value, metadata: Meta, runtime: Runtime,
                                   otherVersions: map<string, Value>, version: Value,
                                   buildTime: Option<string>)

  /** The dictionary `create_package_data` returns. */
  datatype PackageData = PackageData(appDetails: AppDetails, hiddenImports: set<string>,
                                     resources: map<string, set<string>>, entryPoints: EpTable)

  /** Whether `<name>._frkl` and `<name>` both import, as `discover_installed_modules` tests. */
  function MarkerTest(env: Env): string -> bool {
    n => HasMarker(env, n)
  }

  /** One scan of `dir(module)` (core.py:140-151 and 290-298). */
  method CollectAttributes(attrs: ODict<Attr>, f: AttrFilter) returns (d: ODict<Value>)
    ensures d == Collected(attrs, attrs.keys, f)
  {
    d := EmptyDict();
    for i := 0 to |attrs.keys|
      invariant d == Collected(attrs, attrs.keys[..i], f)
    {
      var k := attrs.keys[i];
      assert attrs.keys[..i + 1][..i] == attrs.keys[..i];
      if StartsWith(k, "_") || k !in attrs.items {
        continue;
      }
      var a := attrs.items[k];
      if !Keeps(f, k, a) {
        continue;
      }
      d := d.Put(k, a.value);
    }
    assert attrs.keys[..|attrs.keys|] == attrs.keys;
  }

  /** The main modules of `ps`, in order. */
  function MainModules(ps: seq<ProjectMetadata>): (names: seq<string>)
    ensures |names| == |ps| && forall i :: 0 <= i < |ps| ==> names[i] == ps[i].mainModule
    decreases |ps|
  {
    if ps == [] then [] else MainModules(ps[..|ps| - 1]) + [ps[|ps| - 1].mainModule]
  }

  /** The names of a sequence, as a set. */
  function Elements(s: seq<string>): (r: set<string>)
    ensures forall n :: n in r <==> n in s
  {
    set n | n in s
  }

  /** The version caches of `ps`, in order. */
  ghost function CachedVersions(ps: seq<ProjectMetadata>): (cached: seq<Value>)
    reads (set p | p in ps)`cachedVersion
    ensures |cached| == |ps| && forall i :: 0 <= i < |ps| ==> cached[i] == ps[i].cachedVersion
    decreases |ps|
  {
    if ps == [] then [] else CachedVersions(ps[..|ps| - 1]) + [ps[|ps| - 1].cachedVersion]
  }

  /** `version` of a record whose cache holds `cached` (`Null` for none). */
  ghost function VersionFrom(env: Env, main: string, cached: Value): Result<Value> {
    if cached != Null then Ok(cached) else VersionOf(env, main)
  }

  /** The versions of the records with these main modules and caches, in order; the first failure stops the scan. */
  ghost function VersionsFrom(names: seq<string>, cached: seq<Value>, env: Env): Result<map<string, Value>>
    requires |names| == |cached|
    decreases |names|
  {
    if names == [] then Ok(map[])
    else
      var n := |names| - 1;
      match VersionsFrom(names[..n], cached[..n], env)
      case Err(e) => Err(e)
      case Ok(m) =>
        match VersionFrom(env, names[n], cached[n])
        case Err(e) => Err(e)
        case Ok(v) => Ok(m[names[n] := v])
  }

  ghost function VersionsOf(ps: seq<ProjectMetadata>, env: Env): Result<map<string, Value>>
    reads (set p | p in ps)`cachedVersion
  {
    VersionsFrom(MainModules(ps), CachedVersions(ps), env)
  }

  /** A successful scan has exactly one key per main module. */
  lemma {:induction false} VersionsFromKeys(names: seq<string>, cached: seq<Value>, env: Env)
    requires |names| == |cached|
    ensures VersionsFrom(names, cached, env).Ok? ==> VersionsFrom(names, cached, env).value.Keys == Elements(names)
    decreases |names|
  {
    if names != [] {
      var k := |names| - 1;
      VersionsFromKeys(names[..k], cached[..k], env);
      assert names == names[..k] + [names[k]];
      assert Elements(names) == Elements(names[..k]) + {names[k]};
    }
  }

  /** The versions of records that hold no version yet: the reported version of each importable name. */
  ghost function FreshVersions(names: set<string>, env: Env): map<string, Value> {
    map n | n in names && Importable(env, n) :: ReportedVersion(env.packages[n].getVersion)
  }

  /** Records that hold no version report the version of each module, in any order. */
  lemma {:induction false} VersionsFromFresh(names: seq<string>, cached: seq<Value>, env: Env)
    requires |names| == |cached|
    requires forall i :: 0 <= i < |names| ==> cached[i] == Null && Importable(env, names[i])
    ensures VersionsFrom(names, cached, env) == Ok(FreshVersions(Elements(names), env))
    decreases |names|
  {
    if names != [] {
      var k := |names| - 1;
      VersionsFromFresh(names[..k], cached[..k], env);
      var pre := Elements(names[..k]);
      assert Elements(names) == pre + {names[k]} by {
        assert names == names[..k] + [names[k]];
      }
      assert FreshVersions(pre + {names[k]}, env)
             == FreshVersions(pre, env)[names[k] := ReportedVersion(env.packages[names[k]].getVersion)];
    }
  }

  /** A failure among the first `k` records is the failure of the whole scan. */
  lemma {:induction false} VersionsPrefixFails(names: seq<string>, cached: seq<Value>, k: nat, env: Env)
    requires |names| == |cached| && 0 < k <= |names|
    requires VersionsFrom(names[..k], cached[..k], env).Err?
    ensures VersionsFrom(names, cached, env) == VersionsFrom(names[..k], cached[..k], env)
    decreases |names| - k
  {
    if k < |names| {
      assert names[..k + 1][..k] == names[..k];
      assert cached[..k + 1][..k] == cached[..k];
      VersionsPrefixFails(names, cached, k + 1, env);
    } else {
      assert names[..k] == names && cached[..k] == cached;
    }
  }

  /** Records that hold no version yet, one per name of `names`, report the fresh versions of those names. */
  lemma FreshSiblingVersions(ps: seq<ProjectMetadata>, names: set<string>, env: Env)
    requires Elements(MainModules(ps)) == names
    requires forall p :: p in ps ==> p.cachedVersion == Null
    requires forall n :: n in names ==> Importable(env, n)
    ensures VersionsOf(ps, env) == Ok(FreshVersions(names, env))
  {
    var ns, cached := MainModules(ps), CachedVersions(ps);
    forall i | 0 <= i < |ns| ensures cached[i] == Null && Importable(env, ns[i]) {
      assert ps[i] in ps;
      assert ns[i] in Elements(ns);
    }
    VersionsFromFresh(ns, cached, env);
  }

  /** The dictionary comprehension of core.py:257-259: each record's `version`, in order. */
  method CollectVersions(ps: seq<ProjectMetadata>, env: Env) returns (r: Result<map<string, Value>>)
    requires forall i, j :: 0 <= i < j < |ps| ==> ps[i].mainModule != ps[j].mainModule
    modifies (set p | p in ps)`cachedVersion
    ensures r == old(VersionsOf(ps, env))
    ensures r.Ok? ==> forall p :: p in ps ==> p.mainModule in r.value && p.cachedVersion == r.value[p.mainModule]
  {
    ghost var names, cached := MainModules(ps), CachedVersions(ps);
    assert names[..0] == [] && cached[..0] == [];
    r := CollectVersionsFrom(ps, env, names, cached, 0, map[]);
  }

  /**
    The comprehension from the `i`-th record on: `versions` holds the
    versions of the records before it, which now hold them in their caches.
  */
  method CollectVersionsFrom(ps: seq<ProjectMetadata>, env: Env, ghost names: seq<string>, ghost cached: seq<Value>,
                             i: nat, versions: map<string, Value>)
    returns (r: Result<map<string, Value>>)
    requires |names| == |cached| == |ps| && i <= |ps|
    requires names == MainModules(ps)
    requires forall i, j :: 0 <= i < j < |ps| ==> ps[i].mainModule != ps[j].mainModule
    requires forall k :: i <= k < |ps| ==> ps[k].cachedVersion == cached[k]
    requires VersionsFrom(names[..i], cached[..i], env) == Ok(versions)
    requires forall j :: 0 <= j < i ==> ps[j].mainModule in versions && ps[j].cachedVersion == versions[ps[j].mainModule]
    modifies (set p | p in ps)`cachedVersion
    ensures r == VersionsFrom(names, cached, env)
    ensures r.Ok? ==> forall p :: p in ps ==> p.mainModule in r.value && p.cachedVersion == r.value[p.mainModule]
    decreases |ps| - i
  {
    if i == |ps| {
      assert names[..i] == names && cached[..i] == cached;
      forall p | p in ps ensures p.mainModule in versions && p.cachedVersion == versions[p.mainModule] {
        var j :| 0 <= j < |ps| && ps[j] == p;
      }
      return Ok(versions);
    }
    var v := VersionStep(ps, env, names, cached, i, versions);
    if v.Err? {
      return Err(v.error);
    }
    r := CollectVersionsFrom(ps, env, names, cached, i + 1, versions[ps[i].mainModule := v.value]);
  }

  /** One record of the comprehension: its `version`, which only its own cache keeps. */
  method VersionStep(ps: seq<ProjectMetadata>, env: Env, ghost names: seq<string>, ghost cached: seq<Value>,
                     i: nat, versions: map<string, Value>)
    returns (v: Result<Value>)
    requires |names| == |cached| == |ps| && i < |ps|
    requires names == MainModules(ps)
    requires forall i, j :: 0 <= i < j < |ps| ==> ps[i].mainModule != ps[j].mainModule
    requires forall k :: i <= k < |ps| ==> ps[k].cachedVersion == cached[k]
    requires VersionsFrom(names[..i], cached[..i], env) == Ok(versions)
    requires forall j :: 0 <= j < i ==> ps[j].mainModule in versions && ps[j].cachedVersion == versions[ps[j].mainModule]
    modifies {ps[i]}`cachedVersion
    ensures forall k :: i + 1 <= k < |ps| ==> ps[k].cachedVersion == cached[k]
    ensures v.Err? ==> VersionsFrom(names, cached, env) == Err(v.error)
    ensures v.Ok? ==> VersionsFrom(names[..i + 1], cached[..i + 1], env) == Ok(versions[ps[i].mainModule := v.value])
    ensures v.Ok? ==> forall j :: 0 <= j < i + 1 ==>
                        && ps[j].mainModule in versions[ps[i].mainModule := v.value]
                        && ps[j].cachedVersion == versions[ps[i].mainModule := v.value][ps[j].mainModule]
  {
    var p := ps[i];
    forall k | 0 <= k < |ps| && k != i ensures ps[k] != p && ps[k].mainModule != p.mainModule {
      if k < i { assert ps[k].mainModule != ps[i].mainModule; } else { assert ps[i].mainModule != ps[k].mainModule; }
    }
    assert names[..i + 1][..i] == names[..i] && cached[..i + 1][..i] == cached[..i];
    v := p.Version(env);
    assert v == VersionFrom(env, names[i], cached[i]);
    if v.Err? {
      VersionsPrefixFails(names, cached, i + 1, env);
    }
  }

  /** The loop of core.py:388-397: the registered entry points whose value starts with `main`. */
  method ClaimEntryPoints(eps: seq<EntryPoint>, main: string) returns (table: EpTable)
    ensures table == Claimed(eps, main)
  {
    table := EmptyDict();
    for i := 0 to |eps|
      invariant table == Claimed(eps[..i], main)
    {
      var ep := eps[i];
      assert eps[..i + 1][..i] == eps[..i];
      if !StartsWith(ep.value, main) {
        continue;
      }
      table := SetEntry(table, ep.group, ep.name, EpDetails(ep.moduleName, ep.attr));
    }
    assert eps[..|eps|] == eps;
  }

  /** core.py:401-419: each candidate path that exists is added to the resources. */
  method AddExisting(declared: set<string>, candidates: seq<string>, existing: set<string>)
    returns (found: set<string>)
    ensures found == declared + (set p | p in candidates && p in existing)
  {
    found := declared;
    for i := 0 to |candidates|
      invariant found == declared + (set p | p in candidates[..i] && p in existing)
    {
      assert candidates[..i + 1] == candidates[..i] + [candidates[i]];
      if candidates[i] in existing && candidates[i] !in found {
        found := found + {candidates[i]};
      }
    }
    assert candidates[..|candidates|] == candidates;
  }

  /** One more record, for a module still to visit, keeps the collected names distinct and complete. */
  lemma NextName(others: seq<ProjectMetadata>, p: ProjectMetadata, modules: set<string>, remaining: set<string>, main: string)
    requires Elements(MainModules(others)) == (modules - remaining) - {main} && Distinct(MainModules(others))
    requires remaining <= modules && p.mainModule in remaining && p.mainModule != main
    ensures Elements(MainModules(others + [p])) == (modules - (remaining - {p.mainModule})) - {main}
    ensures Distinct(MainModules(others + [p]))
  {
    var names := MainModules(others);
    assert (others + [p])[..|others|] == others;
    assert MainModules(others + [p]) == names + [p.mainModule];
    assert p.mainModule !in Elements(names);
    assert Elements(names + [p.mainModule]) == Elements(names) + {p.mainModule};
  }

  /** A record for a discovered module, created with nothing computed yet. */
  method NewSibling(m: string) returns (p: ProjectMetadata)
    ensures fresh(p) && p.Initial() && !p.frozen && p.mainModule == m
  {
    p := new ProjectMetadata(m, None);
  }

  /**
    The loop of core.py:241-246: one fresh record per discovered module,
    except the main module itself, in the (unspecified) order of the set.
  */
  method CreateSiblings(modules: set<string>, main: string) returns (others: seq<ProjectMetadata>)
    ensures Elements(MainModules(others)) == modules - {main}
    ensures forall p :: p in others ==> fresh(p) && p.Initial() && !p.frozen && p.mainModule != main
    ensures Distinct(MainModules(others))
  {
    others := [];
    var remaining := modules;
    while remaining != {}
      invariant remaining <= modules
      invariant Elements(MainModules(others)) == (modules - remaining) - {main} && Distinct(MainModules(others))
      invariant forall p :: p in others ==> fresh(p) && p.Initial() && !p.frozen && p.mainModule != main
      decreases |remaining|
    {
      var m :| m in remaining;
      if m != main {
        var p := NewSibling(m);
        NextName(others, p, modules, remaining, main);
        others := others + [p];
      }
      remaining := remaining - {m};
    }
  }

  /**
    One package's share of `create_package_data` (core.py:437-449 for the
    main package, core.py:454-466 for each sibling): its resources, its
    hidden imports, then each of its entry points, refusing a name already
    taken in the same group.
  */
  method AddPackageData(acc: Aggregate, name: string, bp: BuildProps) returns (r: Result<Aggregate>)
    requires ValidTable(bp.entryPoints)
    ensures r == AddPackage(Ok(acc), name, bp)
  {
    var merged := MergeEntryPoints(Merged(acc.merged.entryPoints, acc.merged.hiddenImports + bp.hiddenImports),
                                   bp.entryPoints);
    if merged.Err? {
      return Err(merged.error);
    }
    r := Ok(Aggregate(acc.resources[name := bp.resources], merged.value));
  }

  /** The metadata caches of `ps`, in order. */
  ghost function CachedMetadatas(ps: seq<ProjectMetadata>): (cached: seq<Option<Meta>>)
    reads (set p | p in ps)`cachedMetadata
    ensures |cached| == |ps| && forall i :: 0 <= i < |ps| ==> cached[i] == ps[i].cachedMetadata
    decreases |ps|
  {
    if ps == [] then [] else CachedMetadatas(ps[..|ps| - 1]) + [ps[|ps| - 1].cachedMetadata]
  }

  /** A failure among the first `k` packages is the failure of the whole scan. */
  lemma {:induction false} PackagesPrefixFails(names: seq<string>, bps: seq<Result<BuildProps>>, k: nat)
    requires |names| == |bps| && k <= |names|
    requires PackagesFold(names[..k], bps[..k]).Err?
    ensures PackagesFold(names, bps) == PackagesFold(names[..k], bps[..k])
    decreases |names| - k
  {
    if k < |names| {
      assert names[..k + 1][..k] == names[..k] && bps[..k + 1][..k] == bps[..k];
      PackagesPrefixFails(names, bps, k + 1);
    } else {
      assert names[..k] == names && bps[..k] == bps;
    }
  }

  /**
    One step of the package scan: the `k`-th package, `p`, has its build
    properties found and merged into `state`, the aggregate of the packages
    before it. A failure here fails the whole scan.
  */
  method AddSibling(p: ProjectMetadata, env: Env, state: Aggregate,
                    ghost names: seq<string>, ghost bps: seq<Result<BuildProps>>, ghost k: nat)
    returns (r: Result<Aggregate>)
    requires |names| == |bps| && k < |names| && names[k] == p.mainModule
    requires bps[k] == BuildPropertiesOf(env, p.mainModule, MetadataFrom(env, p.mainModule, p.cachedMetadata))
    requires PackagesFold(names[..k], bps[..k]) == Ok(state)
    modifies p`cachedMetadata
    ensures r == PackagesFold(names[..k + 1], bps[..k + 1])
    ensures r.Err? ==> r == PackagesFold(names, bps)
  {
    var found := p.FindBuildProperties(env);
    PackagesFoldStep(names, bps, k, state);
    if found.Err? {
      r := Err(found.error);
    } else {
      r := AddPackageData(state, p.mainModule, found.value);
    }
    if r.Err? {
      PackagesPrefixFails(names, bps, k + 1);
    }
  }

  /** The `i`-th sibling of the loop below is the package `start + i` of the scan. */
  lemma SiblingAt(ps: seq<ProjectMetadata>, env: Env, names: seq<string>, bps: seq<Result<BuildProps>>,
                  start: nat, cached: seq<Option<Meta>>, i: nat)
    requires i < |ps| && |cached| == |ps| && |names| == |bps| == start + |ps|
    requires names[start..] == MainModules(ps)
    requires bps[start..] == PackageProps(env, MainModules(ps), cached)
    ensures names[start + i] == ps[i].mainModule
    ensures bps[start + i] == BuildPropertiesOf(env, ps[i].mainModule, MetadataFrom(env, ps[i].mainModule, cached[i]))
  {
    assert names[start + i] == names[start..][i];
    assert bps[start + i] == bps[start..][i];
  }

  /** Records with distinct main modules are distinct objects. */
  lemma LaterSiblingsDiffer(ps: seq<ProjectMetadata>, i: nat)
    requires i < |ps| && forall i, j :: 0 <= i < j < |ps| ==> ps[i].mainModule != ps[j].mainModule
    ensures forall k :: i < k < |ps| ==> ps[k] != ps[i]
  {
  }

  /**
    One iteration of the loop below: the `i`-th sibling's build properties
    are found and merged, and only its own cache changes.
  */
  method SiblingStep(ps: seq<ProjectMetadata>, env: Env, state: Aggregate,
                     ghost names: seq<string>, ghost bps: seq<Result<BuildProps>>, ghost start: nat,
                     ghost cached: seq<Option<Meta>>, i: nat)
    returns (r: Result<Aggregate>)
    requires |names| == |bps| == start + |ps| && |cached| == |ps| && i < |ps|
    requires names[start..] == MainModules(ps)
    requires bps[start..] == PackageProps(env, MainModules(ps), cached)
    requires forall i, j :: 0 <= i < j < |ps| ==> ps[i].mainModule != ps[j].mainModule
    requires forall k :: i <= k < |ps| ==> ps[k].cachedMetadata == cached[k]
    requires PackagesFold(names[..start + i], bps[..start + i]) == Ok(state)
    modifies {ps[i]}`cachedMetadata
    ensures forall k :: i + 1 <= k < |ps| ==> ps[k].cachedMetadata == cached[k]
    ensures r == PackagesFold(names[..start + (i + 1)], bps[..start + (i + 1)])
    ensures r.Err? ==> r == PackagesFold(names, bps)
  {
    LaterSiblingsDiffer(ps, i);
    SiblingAt(ps, env, names, bps, start, cached, i);
    r := AddSibling(ps[i], env, state, names, bps, start + i);
  }

  /**
    The loop over the siblings in `create_package_data` (core.py:452-466),
    from the `i`-th sibling on: the packages `names[..start + i]` are
    already aggregated into `state`, and the siblings `ps` are the packages
    `names[start..]`, in order.
  */
  method CollectSiblingPackages(ps: seq<ProjectMetadata>, env: Env, state: Aggregate,
                                ghost names: seq<string>, ghost bps: seq<Result<BuildProps>>, ghost start: nat,
                                ghost cached: seq<Option<Meta>>, i: nat)
    returns (r: Result<Aggregate>)
    requires |names| == |bps| == start + |ps| && |cached| == |ps| && i <= |ps|
    requires names[start..] == MainModules(ps)
    requires bps[start..] == PackageProps(env, MainModules(ps), cached)
    requires forall i, j :: 0 <= i < j < |ps| ==> ps[i].mainModule != ps[j].mainModule
    requires forall k :: i <= k < |ps| ==> ps[k].cachedMetadata == cached[k]
    requires PackagesFold(names[..start + i], bps[..start + i]) == Ok(state)
    modifies (set p | p in ps)`cachedMetadata
    ensures r == PackagesFold(names, bps)
    decreases |ps| - i
  {
    if i == |ps| {
      assert names[..start + i] == names && bps[..start + i] == bps;
      return Ok(state);
    }
    var next := SiblingStep(ps, env, state, names, bps, start, cached, i);
    if next.Err? {
      return next;
    }
    r := CollectSiblingPackages(ps, env, next.value, names, bps, start, cached, i + 1);
  }

  /**
    The scan of the main package `main`, whose metadata cache held `c0`,
    continued with the siblings `ps`, given the aggregate `acc` of the main
    package alone.
  */
  method ScanSiblings(ps: seq<ProjectMetadata>, env: Env, acc: Aggregate, ghost main: string, ghost c0: Option<Meta>)
    returns (r: Result<Aggregate>)
    requires ScanFold(env, main, c0, [], []) == Ok(acc)
    requires forall i, j :: 0 <= i < j < |ps| ==> ps[i].mainModule != ps[j].mainModule
    modifies (set p | p in ps)`cachedMetadata
    ensures r == ScanFold(env, main, c0, MainModules(ps), old(CachedMetadatas(ps)))
  {
    ghost var names, cached := [main] + MainModules(ps), [c0] + CachedMetadatas(ps);
    ghost var props := PackageProps(env, names, cached);
    ScanStart(env, main, c0, MainModules(ps), CachedMetadatas(ps), acc);
    r := CollectSiblingPackages(ps, env, acc, names, props, 1, CachedMetadatas(ps), 0);
  }

  /** The scan of the main package followed by the siblings `siblings`, whose metadata caches held `cached`. */
  ghost function ScanFold(env: Env, main: string, c0: Option<Meta>, siblings: seq<string>, cached: seq<Option<Meta>>): Result<Aggregate>
    requires |siblings| == |cached|
  {
    PackagesFold([main] + siblings, PackageProps(env, [main] + siblings, [c0] + cached))
  }

  /** The scan of the main package alone is the first step of the scan of the main package and its siblings. */
  lemma ScanStart(env: Env, main: string, c0: Option<Meta>, ns: seq<string>, cs: seq<Option<Meta>>, acc: Aggregate)
    requires |ns| == |cs|
    requires PackagesFold([main], PackageProps(env, [main], [c0])) == Ok(acc)
    ensures var names, props := [main] + ns, PackageProps(env, [main] + ns, [c0] + cs);
            && names[1..] == ns && props[1..] == PackageProps(env, ns, cs)
            && PackagesFold(names[..1 + 0], props[..1 + 0]) == Ok(acc)
  {
    var names, props := [main] + ns, PackageProps(env, [main] + ns, [c0] + cs);
    PackagePropsConcat(env, [main], [c0], ns, cs);
    assert names[..1 + 0] == [main];
    assert props[..1 + 0] == PackageProps(env, [main], [c0]);
  }

  class ProjectMetadata {
    const mainModule: string
    /** `hasattr(sys, "frozen")` when the record was created. */
    const frozen: bool

    var cachedRuntimeDetails: Option<Runtime>
    var buildInfo: Value
    var cachedMetadata: Option<Meta>
    var cachedVersion: Value
    var cachedOthers: Option<seq<ProjectMetadata>>
    var cachedOtherVersions: Option<map<string, Value>>
    var cachedDefaults: Option<ODict<Value>>
    var globals: map<string, Value>
    var singletons: map<string, Obj>

    /** Sibling records: distinct main modules, none of them this record's, none frozen. */
    ghost predicate SiblingsWellFormed(ps: seq<ProjectMetadata>) {
      && (forall i :: 0 <= i < |ps| ==> ps[i] != this && ps[i].mainModule != mainModule && !ps[i].frozen)
      && (forall i, j :: 0 <= i < j < |ps| ==> ps[i].mainModule != ps[j].mainModule)
    }

    /**
      The invariant: the cached defaults are a well-formed dictionary,
      metadata this record normalised itself names its main module, and the
      sibling records are well formed.
    */
    ghost predicate Valid()
      reads this`cachedOthers, this`cachedMetadata, this`cachedDefaults
    {
      && (cachedDefaults.Some? ==> cachedDefaults.value.Valid())
      && (!frozen && cachedMetadata.Some? ==>
            "project_main_module" in cachedMetadata.value
            && cachedMetadata.value["project_main_module"] == Str(mainModule))
      && (cachedOthers.Some? ==> SiblingsWellFormed(cachedOthers.value))
    }

    /** Nothing computed, nothing registered. */
    ghost predicate Initial()
      reads this
    {
      && cachedRuntimeDetails.None? && buildInfo == Null && cachedMetadata.None? && cachedVersion == Null
      && cachedOthers.None? && cachedOtherVersions.None? && cachedDefaults.None?
      && globals == map[] && singletons == map[]
    }

    ghost function Siblings(): set<ProjectMetadata>
      reads this`cachedOthers
    {
      if cachedOthers.Some? then set p | p in cachedOthers.value else {}
    }

    /**
      `__init__` (core.py:41-81). In a bundle, the caches are filled from the
      bundle's `app.json`, given here as `appFile`.
    */
    constructor (mainModule: string, appFile: Option<AppFile>)
      ensures this.mainModule == mainModule && frozen == appFile.Some?
      ensures appFile.None? ==> Initial()
      ensures appFile.Some? ==>
                && cachedMetadata == Some(appFile.value.metadata)
                && cachedVersion == appFile.value.version
                && buildInfo == appFile.value.buildInfo
                && cachedOtherVersions == Some(appFile.value.otherVersions)
                && cachedRuntimeDetails.None? && cachedOthers.None? && cachedDefaults.None?
                && globals == map[] && singletons == map[]
      ensures Valid()
    {
      this.mainModule := mainModule;
      frozen := appFile.Some?;
      cachedRuntimeDetails := None;
      cachedOthers := None;
      cachedDefaults := None;
      globals := map[];
      singletons := map[];
      if appFile.Some? {
        cachedMetadata := Some(appFile.value.metadata);
        cachedVersion := appFile.value.version;
        buildInfo := appFile.value.buildInfo;
        cachedOtherVersions := Some(appFile.value.otherVersions);
      } else {
        cachedMetadata := None;
        cachedVersion := Null;
        buildInfo := Null;
        cachedOtherVersions := None;
      }
    }

    // -------------------------------------------------------------------------
    // metadata (core.py:111-174)

    ghost function MetadataNow(env: Env): Result<Meta>
      reads this`cachedMetadata
    {
      MetadataFrom(env, mainModule, cachedMetadata)
    }

    method Metadata(env: Env) returns (r: Result<Meta>)
      modifies this`cachedMetadata
      ensures r == old(MetadataNow(env))
      ensures cachedMetadata == if r.Ok? then Some(r.value) else old(cachedMetadata)
      ensures old(Valid()) ==> Valid()
    {
      if cachedMetadata.Some? {
        return Ok(cachedMetadata.value);
      }
      if mainModule == "" {
        return Err(NotInitialized);
      }
      if !(mainModule in env.packages && env.packages[mainModule].markerImports) {
        return Err(NoMarkerModule(mainModule));
      }
      var facts := env.packages[mainModule];
      if facts.metadataFile.None? {
        return Err(MetadataFileUnreadable(mainModule));
      }
      var attrs := CollectAttributes(facts.markerAttributes, MetadataAttributes);
      var pm := (facts.metadataFile.value + attrs.items)["project_main_module" := Str(mainModule)];
      assert pm == MetadataRules.Merged(facts.metadataFile.value, facts.markerAttributes, mainModule);
      var project := if "project" in pm then pm["project"] else Dict(map[]);
      if !project.Dict? {
        return Err(ProjectNotMapping);
      }
      var name := if "project_name" in project.entries then project.entries["project_name"] else Null;
      if !Truthy(name) {
        return Err(NoProjectName);
      }
      var entries := project.entries;
      if "exe_name" !in entries {
        entries := entries["exe_name" := Null];
      }
      if "project_slug" !in entries {
        if !name.Str? {
          return Err(ProjectNameNotString);
        }
        entries := entries["project_slug" := Str(Slug(name.s))];
      }
      pm := pm["project" := Dict(entries)];
      cachedMetadata := Some(pm);
      r := Ok(pm);
    }

    // -------------------------------------------------------------------------
    // version (core.py:262-276)

    ghost function VersionNow(env: Env): Result<Value>
      reads this`cachedVersion
    {
      VersionFrom(env, mainModule, cachedVersion)
    }

    method Version(env: Env) returns (r: Result<Value>)
      modifies this`cachedVersion
      ensures r == old(VersionNow(env))
      ensures cachedVersion == if r.Ok? then r.value else old(cachedVersion)
    {
      if cachedVersion != Null {
        return Ok(cachedVersion);
      }
      if !Importable(env, mainModule) {
        return Err(ImportFailed(mainModule));
      }
      var version := match env.packages[mainModule].getVersion
        case Raises => Str("n/a")
        case Returns(v) => v;
      cachedVersion := version;
      r := Ok(version);
    }

    // -------------------------------------------------------------------------
    // runtime_details (core.py:188-226)

    ghost function RuntimeNow(env: Env): Result<Runtime>
      reads this`cachedRuntimeDetails, this`cachedMetadata, this`buildInfo
    {
      if cachedRuntimeDetails.Some? then Ok(cachedRuntimeDetails.value)
      else match MetadataNow(env)
        case Err(e) => Err(e)
        case Ok(md) =>
          match ProjectEntry(md, "exe_name")
          case Err(e) => Err(e)
          case Ok(exe) => RuntimeOf(env.entryPoints, exe, frozen, buildInfo)
    }

    method RuntimeDetails(env: Env) returns (r: Result<Runtime>)
      modifies this`cachedRuntimeDetails, this`cachedMetadata
      ensures r == old(RuntimeNow(env))
      ensures cachedRuntimeDetails == if r.Ok? then Some(r.value) else old(cachedRuntimeDetails)
      ensures cachedMetadata ==
                if old(cachedRuntimeDetails).None? && old(MetadataNow(env)).Ok?
                then Some(old(MetadataNow(env)).value) else old(cachedMetadata)
      ensures old(Valid()) ==> Valid()
    {
      if cachedRuntimeDetails.Some? {
        return Ok(cachedRuntimeDetails.value);
      }
      var md := Metadata(env);
      if md.Err? {
        return Err(md.error);
      }
      var exe := ProjectEntry(md.value, "exe_name");
      if exe.Err? {
        return Err(exe.error);
      }
      var entry: Option<ConsoleEntry> := None;
      if Truthy(exe.value) {
        var eps := env.entryPoints;
        var i := 0;
        while i < |eps|
          invariant 0 <= i <= |eps|
          invariant forall j :: 0 <= j < i ==> !IsConsoleScript(eps[j], exe.value)
          invariant entry.None?
        {
          var cs := eps[i];
          if cs.group == "console_scripts" && exe.value == Str(cs.name) {
            if cs.attr == "" {
              assert i == FirstConsoleScript(eps, exe.value);
              return Err(NoEntryPointAttribute(cs.name));
            }
            entry := Some(ConsoleEntry(cs.name, cs.moduleName, BeforeFirst(cs.attr, '.')));
            assert i == FirstConsoleScript(eps, exe.value);
            break;
          }
          i := i + 1;
        }
      }
      var details := if frozen then Runtime(entry, "binary", buildInfo)
                     else Runtime(entry, "python-env", Dict(map[]));
      cachedRuntimeDetails := Some(details);
      r := Ok(details);
    }

    // -------------------------------------------------------------------------
    // other_frkl_projects (core.py:228-251)

    /** The main modules of the sibling records `other_frkl_projects` creates. */
    ghost function SiblingNames(env: Env): set<string> {
      Discovered(env.workingSet, None, None, env.defaultIgnore, MarkerTest(env)) - {mainModule}
    }

    method OtherFrklProjects(env: Env) returns (r: Result<seq<ProjectMetadata>>)
      modifies this`cachedOthers
      ensures old(cachedOthers).Some? ==> r == Ok(old(cachedOthers).value) && cachedOthers == old(cachedOthers)
      ensures old(cachedOthers).None? && frozen ==> r == Err(FrozenApplication) && cachedOthers.None?
      ensures old(cachedOthers).None? && !frozen ==>
                && r.Ok? && cachedOthers == Some(r.value)
                && SiblingsWellFormed(r.value)
                && Elements(MainModules(r.value)) == SiblingNames(env)
                && forall p :: p in r.value ==> fresh(p) && p.Initial()
      ensures old(Valid()) ==> Valid()
    {
      if cachedOthers.Some? {
        return Ok(cachedOthers.value);
      }
      if frozen {
        return Err(FrozenApplication);
      }
      var modules := DiscoverInstalledModules(env.workingSet, None, None, env.defaultIgnore, MarkerTest(env));
      var others := CreateSiblings(modules, mainModule);
      cachedOthers := Some(others);
      r := Ok(others);
    }

    // -------------------------------------------------------------------------
    // other_frkl_project_versions (core.py:253-260)

    ghost function OtherVersionsNow(env: Env): Result<map<string, Value>>
      reads this`cachedOtherVersions, this`cachedOthers, Siblings()`cachedVersion
    {
      if cachedOtherVersions.Some? then Ok(cachedOtherVersions.value)
      else if cachedOthers.Some? then VersionsOf(cachedOthers.value, env)
      else if frozen then Err(FrozenApplication)
      else Ok(FreshVersions(SiblingNames(env), env))
    }

    /** Every sibling name is an importable module. */
    lemma SiblingNamesImportable(env: Env)
      ensures forall n :: n in SiblingNames(env) ==> Importable(env, n)
    {
      forall n | n in SiblingNames(env) ensures Importable(env, n) {
        DiscoveredHasWitness(env.workingSet, None, None, env.defaultIgnore, MarkerTest(env), n);
      }
    }

    method OtherFrklProjectVersions(env: Env) returns (r: Result<map<string, Value>>)
      requires Valid()
      modifies this`cachedOtherVersions, this`cachedOthers, Siblings()`cachedVersion
      ensures Valid()
      ensures r == old(OtherVersionsNow(env))
      ensures cachedOtherVersions == if r.Ok? then Some(r.value) else old(cachedOtherVersions)
      ensures old(cachedOthers).Some? || old(cachedOtherVersions).Some? ==> cachedOthers == old(cachedOthers)
      ensures old(cachedOtherVersions).None? && r.Ok? ==>
                && cachedOthers.Some?
                && (forall p :: p in cachedOthers.value ==> p.mainModule in r.value && p.cachedVersion == r.value[p.mainModule])
                && r.value.Keys == Elements(MainModules(cachedOthers.value))
    {
      if cachedOtherVersions.Some? {
        return Ok(cachedOtherVersions.value);
      }
      ghost var wasCached := cachedOthers.Some?;
      var others := OtherFrklProjects(env);
      if others.Err? {
        return Err(others.error);
      }
      if !wasCached {
        SiblingNamesImportable(env);
        FreshSiblingVersions(others.value, SiblingNames(env), env);
      }
      r := SiblingVersions(env);
    }

    /** The versions of the listed siblings (core.py:257-259), kept in the cache when all are found. */
    method SiblingVersions(env: Env) returns (r: Result<map<string, Value>>)
      requires Valid() && cachedOthers.Some?
      modifies this`cachedOtherVersions, Siblings()`cachedVersion
      ensures Valid() && cachedOthers == old(cachedOthers)
      ensures r == old(VersionsOf(cachedOthers.value, env))
      ensures cachedOtherVersions == if r.Ok? then Some(r.value) else old(cachedOtherVersions)
      ensures r.Ok? ==> forall p :: p in cachedOthers.value ==> p.mainModule in r.value && p.cachedVersion == r.value[p.mainModule]
      ensures r.Ok? ==> r.value.Keys == Elements(MainModules(cachedOthers.value))
    {
      VersionsFromKeys(MainModules(cachedOthers.value), CachedVersions(cachedOthers.value), env);
      var versions := CollectVersions(cachedOthers.value, env);
      if versions.Err? {
        return versions;
      }
      cachedOtherVersions := Some(versions.value);
      r := versions;
    }

    // -------------------------------------------------------------------------
    // get_pkg_defaults (core.py:278-302)

    ghost function DefaultsNow(env: Env): ODict<Value>
      reads this`cachedDefaults
    {
      if cachedDefaults.Some? then cachedDefaults.value
      else if mainModule in env.packages && env.packages[mainModule].defaultsModule.Some? then
        var dm := env.packages[mainModule].defaultsModule.value;
        Collected(dm, dm.keys, DefaultsAttributes)
      else EmptyDict()
    }

    method GetPkgDefaults(env: Env) returns (r: ODict<Value>)
      modifies this`cachedDefaults
      ensures old(Valid()) ==> Valid() && r.Valid()
      ensures r == old(DefaultsNow(env))
      ensures cachedDefaults ==
                if old(cachedDefaults).None? && mainModule in env.packages && env.packages[mainModule].defaultsModule.Some?
                then Some(r) else old(cachedDefaults)
    {
      if cachedDefaults.Some? {
        return cachedDefaults.value;
      }
      if !(mainModule in env.packages && env.packages[mainModule].defaultsModule.Some?) {
        return EmptyDict();
      }
      r := CollectAttributes(env.packages[mainModule].defaultsModule.value, DefaultsAttributes);
      cachedDefaults := Some(r);
    }

    // -------------------------------------------------------------------------
    // get_pkg_metadata_value (core.py:304-317)

    method GetPkgMetadataValue(env: Env, key: string, default: Value) returns (r: Result<Value>)
      modifies this`cachedMetadata
      ensures r == match old(MetadataNow(env))
                   case Err(e) => Err(e)
                   case Ok(md) =>
                     var v := LookupValue(md, key, default);
                     if v.Err? && ProjectEntry(md, "project_name").Err? then Err(ProjectEntry(md, "project_name").error) else v
      ensures cachedMetadata == if old(MetadataNow(env)).Ok? then Some(old(MetadataNow(env)).value) else old(cachedMetadata)
      ensures old(Valid()) ==> Valid()
    {
      var md := Metadata(env);
      if md.Err? {
        return Err(md.error);
      }
      if key !in md.value {
        if default == RaiseSentinel {
          // The message names the project: reading its name may fail first.
          var name := ProjectEntry(md.value, "project_name");
          if name.Err? {
            return Err(name.error);
          }
          return Err(NoMetadataValue(key));
        }
        return Ok(default);
      }
      r := Ok(md.value[key]);
    }

    // -------------------------------------------------------------------------
    // get_resources_folder (core.py:328-338)

    method GetResourcesFolder(env: Env) returns (r: Result<Value>)
      requires Valid()
      modifies this`cachedDefaults, this`cachedMetadata
      ensures var folder := ResourcesFolderIn(old(DefaultsNow(env)));
              && (folder.Some? ==> r == Ok(folder.value))
              && (folder.None? ==>
                    r == match old(MetadataNow(env))
                         case Err(e) => Err(e)
                         case Ok(md) =>
                           if ProjectEntry(md, "project_name").Err? then Err(ProjectEntry(md, "project_name").error)
                           else Err(NoResourcesFolder))
      ensures Valid()
    {
      var defaults := GetPkgDefaults(env);
      var i := 0;
      while i < |defaults.keys|
        invariant 0 <= i <= |defaults.keys|
        invariant forall j :: 0 <= j < i ==> !IsFolderKey(defaults.keys[j])
      {
        var k := defaults.keys[i];
        if EndsWith(k, "RESOURCES_FOLDER") {
          assert i == FirstFolderKey(defaults.keys);
          return Ok(defaults.items[k]);
        }
        i := i + 1;
      }
      assert FirstFolderKey(defaults.keys) == |defaults.keys|;
      var md := Metadata(env);
      if md.Err? {
        return Err(md.error);
      }
      var name := ProjectEntry(md.value, "project_name");
      if name.Err? {
        return Err(name.error);
      }
      r := Err(NoResourcesFolder);
    }

    // -------------------------------------------------------------------------
    // Globals and singletons (core.py:340-368)

    method SetGlobal(key: string, value: Value)
      modifies this`globals
      ensures globals == old(globals)[key := value]
    {
      globals := globals[key := value];
    }

    /** A missing key gives `None`. */
    method GetGlobal(key: string) returns (r: Value)
      ensures key in globals ==> r == globals[key]
      ensures key !in globals ==> r == Null
    {
      r := if key in globals then globals[key] else Null;
    }

    method RegisterSingleton(obj: Obj, regCls: Option<string>, isSubclass: (string, string) -> bool,
                             differs: (Obj, Obj) -> bool)
      returns (r: Result<()>)
      modifies this`singletons
      ensures var reg := Register(old(singletons), obj, regCls, isSubclass, differs);
              && (r.Err? <==> reg.Err?)
              && (r.Err? ==> r.error == reg.error && singletons == old(singletons))
              && (r.Ok? ==> singletons == reg.value)
    {
      var key: string;
      if regCls.Some? {
        if !isSubclass(obj.cls, regCls.value) {
          return Err(NotASubclass(regCls.value));
        }
        key := regCls.value;
      } else {
        key := obj.cls;
      }
      if key in singletons && differs(singletons[key], obj) {
        return Err(SingletonAlreadySet(key));
      }
      singletons := singletons[key := obj];
      r := Ok(());
    }

    /** A class with no registered object gives `None`. */
    method GetSingleton(cls: string) returns (r: Option<Obj>)
      ensures r.Some? <==> cls in singletons
      ensures r.Some? ==> r.value == singletons[cls]
    {
      r := if cls in singletons then Some(singletons[cls]) else None;
    }

    // -------------------------------------------------------------------------
    // find_build_properties (core.py:376-428)

    method FindBuildProperties(env: Env) returns (r: Result<BuildProps>)
      modifies this`cachedMetadata
      ensures r == BuildPropertiesOf(env, mainModule, old(MetadataNow(env)))
      ensures cachedMetadata == if old(MetadataNow(env)).Ok? then Some(old(MetadataNow(env)).value) else old(cachedMetadata)
      ensures old(Valid()) ==> Valid()
    {
      var md := Metadata(env);
      if md.Err? {
        return Err(md.error);
      }
      var pd := if "build_properties" in md.value then md.value["build_properties"] else Dict(map[]);
      if !pd.Dict? {
        return Err(InvalidBuildProperties("build_properties"));
      }
      var resources := DeclaredSet(pd.entries, "resources");
      if resources.Err? {
        return Err(resources.error);
      }
      var hidden := DeclaredSet(pd.entries, "hidden_imports");
      if hidden.Err? {
        return Err(hidden.error);
      }
      var hiddenImports := hidden.value + {mainModule + ".defaults"};
      var table := ClaimEntryPoints(env.entryPoints, mainModule);
      if !Importable(env, mainModule) {
        return Err(ImportFailed(mainModule));
      }
      var found := AddExisting(resources.value, ResourceCandidates(env.packages[mainModule].moduleFile.value),
                               env.existingPaths);
      r := Ok(BuildProps(found, hiddenImports, table));
    }

    // -------------------------------------------------------------------------
    // to_dict (core.py:485-500)

    ghost function ToDictNow(env: Env): Result<AppDetails>
      reads this, Siblings()
    {
      match MetadataNow(env)
      case Err(e) => Err(e)
      case Ok(md) =>
        match RuntimeNow(env)
        case Err(e) => Err(e)
        case Ok(rt) =>
          match OtherVersionsNow(env)
          case Err(e) => Err(e)
          case Ok(ov) =>
            match VersionNow(env)
            case Err(e) => Err(e)
            case Ok(v) =>
              Ok(AppDetails(if "project_main_module" in md then md["project_main_module"] else Null,
                            md, rt, ov, v, None))
    }

    /** The first two entries of `to_dict`: the metadata, then the runtime details. */
    method MetadataAndRuntime(env: Env) returns (md: Result<Meta>, rt: Result<Runtime>)
      modifies this`cachedMetadata, this`cachedRuntimeDetails
      ensures md == old(MetadataNow(env))
      ensures md.Ok? ==> rt == old(RuntimeNow(env))
      ensures old(Valid()) ==> Valid()
    {
      ghost var runtime := RuntimeNow(env);
      md := Metadata(env);
      if md.Err? {
        return md, Err(md.error);
      }
      assert RuntimeNow(env) == runtime;
      rt := RuntimeDetails(env);
    }

    /** The next two entries of `to_dict`: the siblings' versions, then this record's version. */
    method VersionsAndVersion(env: Env) returns (ov: Result<map<string, Value>>, v: Result<Value>)
      requires Valid()
      modifies this`cachedOtherVersions, this`cachedOthers, this`cachedVersion, Siblings()`cachedVersion
      ensures Valid()
      ensures ov == old(OtherVersionsNow(env))
      ensures ov.Ok? ==> v == old(VersionNow(env))
      ensures old(cachedOthers).Some? ==> cachedOthers == old(cachedOthers)
    {
      ghost var version := VersionNow(env);
      ov := OtherFrklProjectVersions(env);
      if ov.Err? {
        return ov, Err(ov.error);
      }
      assert VersionNow(env) == version;
      v := Version(env);
    }

    method ToDict(env: Env) returns (r: Result<AppDetails>)
      requires Valid()
      modifies this`cachedMetadata, this`cachedRuntimeDetails, this`cachedOtherVersions, this`cachedOthers,
               this`cachedVersion, Siblings()`cachedVersion
      ensures Valid()
      ensures r == old(ToDictNow(env))
      ensures old(cachedOthers).Some? ==> cachedOthers == old(cachedOthers)
    {
      ghost var others, version := OtherVersionsNow(env), VersionNow(env);
      var md, rt := MetadataAndRuntime(env);
      if md.Err? {
        return Err(md.error);
      }
      if rt.Err? {
        return Err(rt.error);
      }
      assert OtherVersionsNow(env) == others && VersionNow(env) == version;
      var ov, v := VersionsAndVersion(env);
      if ov.Err? {
        return Err(ov.error);
      }
      if v.Err? {
        return Err(v.error);
      }
      var main := if "project_main_module" in md.value then md.value["project_main_module"] else Null;
      r := Ok(AppDetails(main, md.value, rt.value, ov.value, v.value, None));
    }

    // -------------------------------------------------------------------------
    // create_package_data (core.py:430-479)

    /** The scan of the main package alone: its build properties merged into an empty aggregate. */
    method MainPackage(env: Env) returns (r: Result<Aggregate>)
      modifies this`cachedMetadata
      ensures r == PackagesFold([mainModule], PackageProps(env, [mainModule], [old(cachedMetadata)]))
      ensures old(Valid()) ==> Valid()
    {
      ghost var names, cached := [mainModule], [cachedMetadata];
      var bp := FindBuildProperties(env);
      ghost var props := PackageProps(env, names, cached);
      assert props == [bp];
      var start := Aggregate(map[], Merged(EmptyDict(), {}));
      assert names[..0] == [] && props[..0] == [];
      assert names[..1] == names && props[..1] == props;
      PackagesFoldStep(names, props, 0, start);
      if bp.Err? {
        return Err(bp.error);
      }
      // `self.metadata["project_main_module"]` is this record's main module.
      r := AddPackageData(start, mainModule, bp.value);
    }

    /**
      The second part of the scan: the siblings listed by
      `other_frkl_projects`, whose main modules are `siblings` and whose
      metadata caches held `siblingCached`, after the main package, whose
      cache held `c0` and whose aggregate is `acc`.
    */
    method ScanOthers(env: Env, acc: Aggregate, ghost c0: Option<Meta>)
      returns (r: Result<Aggregate>, ghost siblings: seq<string>, ghost siblingCached: seq<Option<Meta>>)
      requires Valid()
      requires ScanFold(env, mainModule, c0, [], []) == Ok(acc)
      modifies this`cachedOthers, Siblings()`cachedMetadata
      ensures Valid()
      ensures old(cachedOthers).Some? ==> cachedOthers == old(cachedOthers)
      ensures old(cachedOthers).None? && cachedOthers.Some? ==> forall p :: p in cachedOthers.value ==> fresh(p)
      ensures |siblings| == |siblingCached|
      ensures r.Ok? || siblings != [] ==> cachedOthers.Some? && siblings == MainModules(cachedOthers.value)
      ensures old(cachedOthers).None? ==> forall k :: 0 <= k < |siblingCached| ==> siblingCached[k].None?
      ensures old(cachedOthers).Some? ==> siblingCached == old(CachedMetadatas(cachedOthers.value))
      ensures var fold := ScanFold(env, mainModule, c0, siblings, siblingCached);
              fold.Err? || r.Ok? ==> r == fold
    {
      var others;
      others, siblingCached := ListOthers(env);
      if others.Err? {
        siblings := [];
        return Err(others.error), siblings, siblingCached;
      }
      siblings := MainModules(others.value);
      r := ScanSiblings(others.value, env, acc, mainModule, c0);
    }

    /**
      The siblings to scan, from `other_frkl_projects`, and their metadata
      caches `cached` before the scan: none is set when the list is new.
    */
    method ListOthers(env: Env) returns (r: Result<seq<ProjectMetadata>>, ghost cached: seq<Option<Meta>>)
      requires Valid()
      modifies this`cachedOthers
      ensures Valid()
      ensures old(cachedOthers).Some? ==> cachedOthers == old(cachedOthers)
      ensures old(cachedOthers).None? && cachedOthers.Some? ==> forall p :: p in cachedOthers.value ==> fresh(p)
      ensures r.Err? ==> cached == []
      ensures r.Ok? ==> cachedOthers == Some(r.value) && cached == CachedMetadatas(r.value)
      ensures old(cachedOthers).None? ==> forall k :: 0 <= k < |cached| ==> cached[k].None?
      ensures old(cachedOthers).Some? ==> cached == old(CachedMetadatas(cachedOthers.value))
    {
      r := OtherFrklProjects(env);
      if r.Err? {
        return r, [];
      }
      var ps := r.value;
      cached := CachedMetadatas(ps);
      forall k | 0 <= k < |ps|
        ensures old(cachedOthers).None? ==> cached[k].None?
      {
        if old(cachedOthers).None? {
          assert ps[k] in ps && ps[k].Initial();
        }
      }
    }

    /**
      The scan of the main package and its siblings (core.py:432-466).
      `names` lists the packages scanned, the main package first, and
      `cached` their metadata caches when the scan reached them: the result
      is the scan `PackagesFold` of those packages, unless the siblings
      cannot be listed.
    */
    method ScanPackages(env: Env) returns (r: Result<Aggregate>, ghost names: seq<string>, ghost cached: seq<Option<Meta>>)
      requires Valid()
      modifies this`cachedMetadata, this`cachedOthers, Siblings()`cachedMetadata
      ensures Valid()
      ensures old(cachedOthers).Some? ==> cachedOthers == old(cachedOthers)
      ensures old(cachedOthers).None? && cachedOthers.Some? ==> forall p :: p in cachedOthers.value ==> fresh(p)
      ensures |names| == |cached| && names != [] && names[0] == mainModule && cached[0] == old(cachedMetadata)
      ensures |names| > 1 ==> cachedOthers.Some? && names[1..] == MainModules(cachedOthers.value)
      ensures |names| > 1 && old(cachedOthers).None? ==> forall k :: 1 <= k < |cached| ==> cached[k].None?
      ensures |names| > 1 && old(cachedOthers).Some? ==> cached[1..] == old(CachedMetadatas(cachedOthers.value))
      ensures var fold := PackagesFold(names, PackageProps(env, names, cached));
              && (fold.Err? ==> r == fold)
              && (r.Ok? ==> r == fold && cachedOthers.Some? && |names| == |cachedOthers.value| + 1)
    {
      ghost var before := if cachedOthers.Some? then CachedMetadatas(cachedOthers.value) else [];
      names, cached := [mainModule], [cachedMetadata];
      r := MainPackage(env);
      if r.Err? {
        return;
      }
      assert cachedOthers.Some? ==> this !in cachedOthers.value && CachedMetadatas(cachedOthers.value) == before;
      ghost var siblings, siblingCached;
      r, siblings, siblingCached := ScanOthers(env, r.value, old(cachedMetadata));
      names, cached := names + siblings, cached + siblingCached;
      assert names[1..] == siblings && cached[1..] == siblingCached;
    }

    /**
      The build data of the main package and its siblings: the aggregate of
      `ScanPackages`, then the application details of `to_dict` with the
      build time, which is `str(datetime.utcnow())`.
    */
    method CreatePackageData(env: Env, buildTime: string)
      returns (r: Result<PackageData>, ghost names: seq<string>, ghost cached: seq<Option<Meta>>)
      requires Valid()
      modifies this, Siblings()`cachedMetadata, Siblings()`cachedVersion
      ensures Valid()
      ensures |names| == |cached| && names != [] && names[0] == mainModule && cached[0] == old(cachedMetadata)
      ensures |names| > 1 ==> cachedOthers.Some? && names[1..] == MainModules(cachedOthers.value)
      ensures |names| > 1 && old(cachedOthers).None? ==> forall k :: 1 <= k < |cached| ==> cached[k].None?
      ensures old(cachedOthers).Some? ==> cachedOthers == old(cachedOthers)
      ensures |names| > 1 && old(cachedOthers).Some? ==> cached[1..] == old(CachedMetadatas(cachedOthers.value))
      ensures var fold := PackagesFold(names, PackageProps(env, names, cached));
              && (fold.Err? ==> r == Err(fold.error))
              && (r.Ok? ==>
                    && cachedOthers.Some? && |names| == |cachedOthers.value| + 1
                    && fold.Ok?
                    && r.value.hiddenImports == fold.value.merged.hiddenImports
                    && r.value.entryPoints == fold.value.merged.entryPoints
                    && r.value.resources == fold.value.resources
                    && r.value.appDetails.buildTime == Some(buildTime))
    {
      var all;
      all, names, cached := ScanPackages(env);
      if all.Err? {
        return Err(all.error), names, cached;
      }
      var state := all.value;
      var app := ToDict(env);
      if app.Err? {
        return Err(app.error), names, cached;
      }
      r := Ok(PackageData(app.value.(buildTime := Some(buildTime)), state.merged.hiddenImports, state.resources,
                          state.merged.entryPoints));
    }
  }
}
