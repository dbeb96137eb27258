/**
  The two helpers of pyinstaller.py that read the merged entry-point table of
  a build: the data of the runtime hook that answers
  `pkg_resources.iter_entry_points` inside a bundle, and the choice of the
  console scripts and the main entry point written into the generated
  `cli.py`.
*/
module Pyinstaller {
  import opened Values
  import opened Text
  import opened BuildRules

  /** The last element of a list of distinct strings occurs nowhere before it. */
  lemma DistinctInit(s: seq<string>)
    requires s != [] && Distinct(s)
    ensures Distinct(s[..|s| - 1]) && s[|s| - 1] !in s[..|s| - 1]
  {
    var init := s[..|s| - 1];
    forall i, j | 0 <= i < j < |init| ensures init[i] != init[j] {
      assert init[i] == s[i] && init[j] == s[j];
    }
    forall i | 0 <= i < |init| ensures init[i] != s[|s| - 1] {
      assert init[i] == s[i];
    }
  }

  /** Visiting every name of a group that holds all of them yields one entry per name, in order. */
  lemma {:induction false} GroupTriplesAll(g: string, d: EpGroup, ns: seq<string>)
    requires forall n :: n in ns ==> n in d.items
    ensures |GroupTriples(g, d, ns)| == |ns|
    ensures forall i :: 0 <= i < |ns| ==> GroupTriples(g, d, ns)[i] == Triple(g, ns[i], d.items[ns[i]])
    decreases |ns|
  {
    if ns != [] {
      var ns' := ns[..|ns| - 1];
      assert ns == ns' + [ns[|ns| - 1]];
      GroupTriplesAll(g, d, ns');
    }
  }

  // ---------------------------------------------------------------------------
  // The runtime hook's data (pyinstaller.py:23-39)

  /** `f"{ep_name} = {module_name}:{attr}"`, the form `EntryPoint.parse` reads back. */
  function EpLine(x: Triple): string {
    x.name + " = " + x.details.moduleName + ":" + x.details.attr
  }

  /** The lines of some entries, one per entry, in order. */
  function MapLines(ts: seq<Triple>): (ls: seq<string>)
    ensures |ls| == |ts|
  {
    seq(|ts|, i requires 0 <= i < |ts| => EpLine(ts[i]))
  }

  /** `hook_ep_packages` (group -> lines) and `hiddenimports`. */
  datatype Hook = Hook(packages: ODict<seq<string>>, hiddenImports: set<string>)

  /** One pass of the inner loop: `hiddenimports.add(...)`, then `setdefault(group, []).append(...)`. */
  function HookStep(h: Hook, x: Triple): Hook {
    var lines := if x.group in h.packages.items then h.packages.items[x.group] else [];
    Hook(h.packages.Put(x.group, lines + [EpLine(x)]), h.hiddenImports + {x.details.moduleName})
  }

  /** The hook data after visiting the entries `ts` in order. */
  function HookOf(ts: seq<Triple>): Hook
    decreases |ts|
  {
    if ts == [] then Hook(EmptyDict(), {}) else HookStep(HookOf(ts[..|ts| - 1]), ts[|ts| - 1])
  }

  /** Reference definition: the lines of the entries of group `g`, in the order of `ts`. */
  function LinesOf(ts: seq<Triple>, g: string): seq<string>
    decreases |ts|
  {
    if ts == [] then []
    else LinesOf(ts[..|ts| - 1], g) + (if ts[|ts| - 1].group == g then [EpLine(ts[|ts| - 1])] else [])
  }

  lemma HookOfSnoc(ts: seq<Triple>, x: Triple)
    ensures HookOf(ts + [x]) == HookStep(HookOf(ts), x)
  {
    assert (ts + [x])[..|ts|] == ts;
  }

  /**
    Visiting entries one by one keeps a well-formed dictionary whose groups are
    exactly those with at least one line, each holding its lines in visiting
    order, and collects exactly the entries' modules.
  */
  lemma {:induction false} HookOfSpec(ts: seq<Triple>)
    ensures HookOf(ts).packages.Valid()
    ensures HookOf(ts).hiddenImports == ModulesOf(ts)
    ensures forall g :: g in HookOf(ts).packages.items <==> LinesOf(ts, g) != []
    ensures forall g :: g in HookOf(ts).packages.items ==> HookOf(ts).packages.items[g] == LinesOf(ts, g)
    decreases |ts|
  {
    if ts != [] {
      var ts', x := ts[..|ts| - 1], ts[|ts| - 1];
      assert ts == ts' + [x];
      HookOfSpec(ts');
      HookStepSpec(HookOf(ts'), ts', x);
    }
  }

  /** One more entry keeps the hook data in step with the entries visited. */
  lemma HookStepSpec(h: Hook, ts: seq<Triple>, x: Triple)
    requires h.packages.Valid() && h.hiddenImports == ModulesOf(ts)
    requires forall g :: g in h.packages.items <==> LinesOf(ts, g) != []
    requires forall g :: g in h.packages.items ==> h.packages.items[g] == LinesOf(ts, g)
    ensures HookStep(h, x).packages.Valid() && HookStep(h, x).hiddenImports == ModulesOf(ts + [x])
    ensures forall g :: g in HookStep(h, x).packages.items <==> LinesOf(ts + [x], g) != []
    ensures forall g :: g in HookStep(h, x).packages.items ==> HookStep(h, x).packages.items[g] == LinesOf(ts + [x], g)
  {
    assert (ts + [x])[..|ts|] == ts && (ts + [x])[|ts|] == x;
    assert forall y :: y in ts + [x] <==> y in ts || y == x;
  }

  lemma {:induction false} LinesOfConcat(a: seq<Triple>, b: seq<Triple>, g: string)
    ensures LinesOf(a + b, g) == LinesOf(a, g) + LinesOf(b, g)
    decreases |b|
  {
    if b == [] {
      assert a + b == a;
    } else {
      var b' := b[..|b| - 1];
      assert (a + b)[..|a + b| - 1] == a + b';
      assert (a + b)[|a + b| - 1] == b[|b| - 1];
      LinesOfConcat(a, b', g);
    }
  }

  lemma MapLinesConcat(a: seq<Triple>, b: seq<Triple>)
    ensures MapLines(a + b) == MapLines(a) + MapLines(b)
  {
    var l, r := MapLines(a + b), MapLines(a) + MapLines(b);
    assert |l| == |r|;
    forall i | 0 <= i < |l| ensures l[i] == r[i] {
      if i < |a| {
        assert (a + b)[i] == a[i];
      } else {
        assert (a + b)[i] == b[i - |a|];
      }
    }
  }

  /** The entries of group `h` contribute all their lines to `h` and none to another group. */
  lemma {:induction false} LinesOfGroup(h: string, d: EpGroup, ns: seq<string>, g: string)
    ensures LinesOf(GroupTriples(h, d, ns), g) == if h == g then MapLines(GroupTriples(h, d, ns)) else []
    decreases |ns|
  {
    if ns != [] {
      var ns', n := ns[..|ns| - 1], ns[|ns| - 1];
      LinesOfGroup(h, d, ns', g);
      var front := GroupTriples(h, d, ns');
      var last := if n in d.items then [Triple(h, n, d.items[n])] else [];
      LinesOfConcat(front, last, g);
      assert last != [] ==> last[..0] == [];
      MapLinesConcat(front, last);
    }
  }

  /** Over a table visited in the order `gs`, group `g` receives the lines of its own entries. */
  lemma {:induction false} LinesOfTable(t: EpTable, gs: seq<string>, g: string)
    requires Distinct(gs)
    ensures LinesOf(TableTriples(t, gs), g) ==
              if g in gs && g in t.items then MapLines(GroupTriples(g, t.items[g], t.items[g].keys)) else []
    decreases |gs|
  {
    if gs != [] {
      var gs', h := gs[..|gs| - 1], gs[|gs| - 1];
      assert gs == gs' + [h];
      DistinctInit(gs);
      LinesOfTable(t, gs', g);
      var block := if h in t.items then GroupTriples(h, t.items[h], t.items[h].keys) else [];
      LinesOfConcat(TableTriples(t, gs'), block, g);
      if h in t.items {
        LinesOfGroup(h, t.items[h], t.items[h].keys, g);
      }
    }
  }

  /** For a well-formed table, the hidden imports are exactly the modules of its entry points. */
  lemma HookImportsOfTable(t: EpTable)
    requires ValidTable(t)
    ensures forall m :: m in HookOf(Triples(t)).hiddenImports <==> exists x :: InTable(t, x) && x.details.moduleName == m
  {
    HookOfSpec(Triples(t));
    TriplesSpec(t);
    forall m | m in HookOf(Triples(t)).hiddenImports ensures exists x :: InTable(t, x) && x.details.moduleName == m {
      var x :| x in Triples(t) && x.details.moduleName == m;
      assert InTable(t, x);
    }
    forall x | InTable(t, x) ensures x.details.moduleName in HookOf(Triples(t)).hiddenImports {
      assert x in Triples(t);
    }
  }

  /**
    For a well-formed table, group `g` appears in the hook dictionary exactly
    when it has at least one entry point, and then holds one line per entry
    point, in the group's order.
  */
  lemma HookGroupOfTable(t: EpTable, g: string)
    requires ValidTable(t)
    ensures var h := HookOf(Triples(t));
            && h.packages.Valid()
            && (g in h.packages.items <==> g in t.items && t.items[g].keys != [])
            && (g in h.packages.items ==>
                  var d := t.items[g];
                  && |h.packages.items[g]| == |d.keys|
                  && forall i :: 0 <= i < |d.keys| ==>
                       h.packages.items[g][i] == EpLine(Triple(g, d.keys[i], d.items[d.keys[i]])))
  {
    HookOfSpec(Triples(t));
    GroupLinesOfTable(t, g);
  }

  /** The lines of group `g` in a well-formed table: one per entry point, in the group's order. */
  lemma GroupLinesOfTable(t: EpTable, g: string)
    requires ValidTable(t)
    ensures g !in t.items ==> LinesOf(Triples(t), g) == []
    ensures g in t.items ==>
              var d := t.items[g];
              && |LinesOf(Triples(t), g)| == |d.keys|
              && forall i :: 0 <= i < |d.keys| ==> LinesOf(Triples(t), g)[i] == EpLine(Triple(g, d.keys[i], d.items[d.keys[i]]))
  {
    LinesOfTable(t, t.keys, g);
    if g in t.items {
      var d := t.items[g];
      GroupTriplesAll(g, d, d.keys);
    }
  }

  /** The inner loop over one group, from the hook data of the entries `pre` visited so far. */
  method AddGroupToHook(g: string, d: EpGroup, packages: ODict<seq<string>>, hidden: set<string>,
                        ghost pre: seq<Triple>)
    returns (packages': ODict<seq<string>>, hidden': set<string>)
    requires Hook(packages, hidden) == HookOf(pre)
    ensures Hook(packages', hidden') == HookOf(pre + GroupTriples(g, d, d.keys))
  {
    packages', hidden' := packages, hidden;
    assert d.keys[..0] == [];
    assert pre + GroupTriples(g, d, d.keys[..0]) == pre;
    for j := 0 to |d.keys|
      invariant Hook(packages', hidden') == HookOf(pre + GroupTriples(g, d, d.keys[..j]))
    {
      var n := d.keys[j];
      assert d.keys[..j + 1][..j] == d.keys[..j];
      if n in d.items {
        var x := Triple(g, n, d.items[n]);
        ghost var visited := pre + GroupTriples(g, d, d.keys[..j]);
        assert pre + GroupTriples(g, d, d.keys[..j + 1]) == visited + [x];
        HookOfSnoc(visited, x);
        hidden' := hidden' + {d.items[n].moduleName};
        var lines := if g in packages'.items then packages'.items[g] else [];
        packages' := packages'.Put(g, lines + [EpLine(x)]);
      } else {
        assert GroupTriples(g, d, d.keys[..j + 1]) == GroupTriples(g, d, d.keys[..j]);
      }
    }
    assert d.keys[..|d.keys|] == d.keys;
  }

  /**
    `get_entry_point_imports_hook`: `hook_ep_packages` and `hiddenimports` are
    the hook data of the table's entries in iteration order.
  */
  method EntryPointImportsHook(t: EpTable) returns (packages: ODict<seq<string>>, hidden: set<string>)
    ensures Hook(packages, hidden) == HookOf(Triples(t))
  {
    packages, hidden := EmptyDict(), {};
    assert t.keys[..0] == [];
    for i := 0 to |t.keys|
      invariant Hook(packages, hidden) == HookOf(TableTriples(t, t.keys[..i]))
    {
      var g := t.keys[i];
      assert t.keys[..i + 1][..i] == t.keys[..i];
      if g in t.items {
        assert TableTriples(t, t.keys[..i + 1]) ==
               TableTriples(t, t.keys[..i]) + GroupTriples(g, t.items[g], t.items[g].keys);
        packages, hidden := AddGroupToHook(g, t.items[g], packages, hidden, TableTriples(t, t.keys[..i]));
      } else {
        assert TableTriples(t, t.keys[..i + 1]) == TableTriples(t, t.keys[..i]);
      }
    }
    assert t.keys[..|t.keys|] == t.keys;
  }

  // ---------------------------------------------------------------------------
  // Choosing the scripts and the main entry point (pyinstaller.py:143-179)

  const ConsoleGroup := "console_scripts"

  /** What the template receives: every console script by name, and the main entry point. */
  datatype Selection = Selection(scripts: ODict<EpDetails>, main: EpDetails)

  /** A console script whose module name contains the main module's name (`main_module in ...`). */
  predicate IsMainCandidate(x: Triple, mainModule: string) {
    x.group == ConsoleGroup && Contains(x.details.moduleName, mainModule)
  }

  /** `console_scripts` after visiting `ts` from `acc`: every console entry stored under its name. */
  function ScriptsFrom(acc: ODict<EpDetails>, ts: seq<Triple>): ODict<EpDetails>
    decreases |ts|
  {
    if ts == [] then acc
    else
      var prev := ScriptsFrom(acc, ts[..|ts| - 1]);
      var x := ts[|ts| - 1];
      if x.group == ConsoleGroup then prev.Put(x.name, x.details) else prev
  }

  /** `main_entry_points` after visiting `ts`: the candidates' details, in order. */
  function CandidatesOf(ts: seq<Triple>, mainModule: string): seq<EpDetails>
    decreases |ts|
  {
    if ts == [] then []
    else
      var x := ts[|ts| - 1];
      CandidatesOf(ts[..|ts| - 1], mainModule) + if IsMainCandidate(x, mainModule) then [x.details] else []
  }

  /**
    `create_entry_point_from_template` up to the rendering: an empty table is
    refused; otherwise the console scripts are collected, and the first
    candidate is the main entry point, which must exist.
  */
  function SelectionOf(mainModule: string, t: EpTable): Result<Selection> {
    if t.items == map[] then Err(NoEntryPoints)
    else
      var candidates := CandidatesOf(Triples(t), mainModule);
      if candidates == [] then Err(NoMainEntryPoint)
      else Ok(Selection(ScriptsFrom(EmptyDict(), Triples(t)), candidates[0]))
  }

  lemma {:induction false} ScriptsConcat(acc: ODict<EpDetails>, a: seq<Triple>, b: seq<Triple>)
    ensures ScriptsFrom(acc, a + b) == ScriptsFrom(ScriptsFrom(acc, a), b)
    decreases |b|
  {
    if b == [] {
      assert a + b == a;
    } else {
      var b' := b[..|b| - 1];
      assert (a + b)[..|a + b| - 1] == a + b';
      assert (a + b)[|a + b| - 1] == b[|b| - 1];
      ScriptsConcat(acc, a, b');
    }
  }

  lemma {:induction false} CandidatesConcat(a: seq<Triple>, b: seq<Triple>, mainModule: string)
    ensures CandidatesOf(a + b, mainModule) == CandidatesOf(a, mainModule) + CandidatesOf(b, mainModule)
    decreases |b|
  {
    if b == [] {
      assert a + b == a;
    } else {
      var b' := b[..|b| - 1];
      assert (a + b)[..|a + b| - 1] == a + b';
      assert (a + b)[|a + b| - 1] == b[|b| - 1];
      CandidatesConcat(a, b', mainModule);
    }
  }

  lemma ScriptsSnoc(acc: ODict<EpDetails>, ts: seq<Triple>, x: Triple)
    ensures ScriptsFrom(acc, ts + [x]) ==
              if x.group == ConsoleGroup then ScriptsFrom(acc, ts).Put(x.name, x.details) else ScriptsFrom(acc, ts)
  {
    assert (ts + [x])[..|ts|] == ts;
  }

  /** The entries of a group other than `console_scripts` change neither the scripts nor the candidates. */
  lemma {:induction false} OtherGroupIgnored(acc: ODict<EpDetails>, g: string, d: EpGroup, ns: seq<string>,
                                             mainModule: string)
    requires g != ConsoleGroup
    ensures ScriptsFrom(acc, GroupTriples(g, d, ns)) == acc
    ensures CandidatesOf(GroupTriples(g, d, ns), mainModule) == []
    decreases |ns|
  {
    if ns != [] {
      var ns', n := ns[..|ns| - 1], ns[|ns| - 1];
      OtherGroupIgnored(acc, g, d, ns', mainModule);
      var front := GroupTriples(g, d, ns');
      var last := if n in d.items then [Triple(g, n, d.items[n])] else [];
      ScriptsConcat(acc, front, last);
      CandidatesConcat(front, last, mainModule);
      assert last != [] ==> last[..0] == [];
    }
  }

  /**
    Storing the distinct names `ns` of a group one by one from nothing builds
    the group restricted to those names, in their order: no store replaces an
    earlier one.
  */
  lemma {:induction false} ScriptsOfConsoleGroup(d: EpGroup, ns: seq<string>)
    requires Distinct(ns) && forall n :: n in ns ==> n in d.items
    ensures var s := ScriptsFrom(EmptyDict(), GroupTriples(ConsoleGroup, d, ns));
            && s.keys == ns
            && (forall n :: n in s.items <==> n in ns)
            && (forall n :: n in s.items ==> s.items[n] == d.items[n])
    decreases |ns|
  {
    if ns != [] {
      var ns', n := ns[..|ns| - 1], ns[|ns| - 1];
      DistinctInit(ns);
      assert ns == ns' + [n];
      ScriptsOfConsoleGroup(d, ns');
      var x := Triple(ConsoleGroup, n, d.items[n]);
      var front := GroupTriples(ConsoleGroup, d, ns');
      assert GroupTriples(ConsoleGroup, d, ns) == front + [x];
      ScriptsSnoc(EmptyDict(), front, x);
      StoreNewName(ScriptsFrom(EmptyDict(), front), d, ns', n);
      assert ns == ns' + [n];
    }
  }

  /** Storing a name not stored yet appends it and keeps the other entries. */
  lemma StoreNewName(prev: ODict<EpDetails>, d: EpGroup, ns: seq<string>, n: string)
    requires n in d.items && n !in ns && forall m :: m in ns ==> m in d.items
    requires prev.keys == ns && (forall m :: m in prev.items <==> m in ns)
    requires forall m :: m in prev.items ==> prev.items[m] == d.items[m]
    ensures var s := prev.Put(n, d.items[n]);
            && s.keys == ns + [n]
            && (forall m :: m in s.items <==> m in ns + [n])
            && (forall m :: m in s.items ==> s.items[m] == d.items[m])
  {
  }

  /** Collecting a well-formed `console_scripts` group alone gives back that group. */
  lemma ConsoleGroupRebuilt(d: EpGroup)
    requires d.Valid()
    ensures ScriptsFrom(EmptyDict(), GroupTriples(ConsoleGroup, d, d.keys)) == d
  {
    ScriptsOfConsoleGroup(d, d.keys);
    var s := ScriptsFrom(EmptyDict(), GroupTriples(ConsoleGroup, d, d.keys));
    assert s.items.Keys == d.items.Keys;
    assert s.items == d.items;
  }

  /** Over a table visited in the distinct order `gs`, the scripts are the `console_scripts` group when visited. */
  lemma {:induction false} ScriptsOfTable(t: EpTable, gs: seq<string>)
    requires ValidTable(t) && Distinct(gs)
    ensures ScriptsFrom(EmptyDict(), TableTriples(t, gs)) ==
              if ConsoleGroup in gs && ConsoleGroup in t.items then t.items[ConsoleGroup] else EmptyDict()
    decreases |gs|
  {
    if gs != [] {
      var gs', h := gs[..|gs| - 1], gs[|gs| - 1];
      assert gs == gs' + [h];
      DistinctInit(gs);
      ScriptsOfTable(t, gs');
      if h in t.items {
        var d := t.items[h];
        assert TableTriples(t, gs) == TableTriples(t, gs') + GroupTriples(h, d, d.keys);
        ScriptsConcat(EmptyDict(), TableTriples(t, gs'), GroupTriples(h, d, d.keys));
        if h == ConsoleGroup {
          ConsoleGroupRebuilt(d);
        } else {
          OtherGroupIgnored(ScriptsFrom(EmptyDict(), TableTriples(t, gs')), h, d, d.keys, "");
        }
      } else {
        assert TableTriples(t, gs) == TableTriples(t, gs');
      }
    }
  }

  /** The first candidate, in visiting order, is the head of the candidates; there is none exactly when no entry qualifies. */
  lemma {:induction false} CandidatesFirst(ts: seq<Triple>, mainModule: string)
    ensures CandidatesOf(ts, mainModule) == [] <==> forall k :: 0 <= k < |ts| ==> !IsMainCandidate(ts[k], mainModule)
    ensures CandidatesOf(ts, mainModule) != [] ==>
              exists k :: 0 <= k < |ts| && IsMainCandidate(ts[k], mainModule)
                          && CandidatesOf(ts, mainModule)[0] == ts[k].details
                          && forall j :: 0 <= j < k ==> !IsMainCandidate(ts[j], mainModule)
    decreases |ts|
  {
    if ts != [] {
      var ts' := ts[..|ts| - 1];
      CandidatesFirst(ts', mainModule);
      assert forall k :: 0 <= k < |ts'| ==> ts'[k] == ts[k];
      if CandidatesOf(ts', mainModule) != [] {
        var k :| 0 <= k < |ts'| && IsMainCandidate(ts'[k], mainModule)
                 && CandidatesOf(ts', mainModule)[0] == ts'[k].details
                 && forall j :: 0 <= j < k ==> !IsMainCandidate(ts'[j], mainModule);
        assert CandidatesOf(ts, mainModule)[0] == ts[k].details;
      }
    }
  }

  /**
    The selection fails with `NoEntryPoints` exactly on an empty table, with
    `NoMainEntryPoint` exactly when the table is not empty but no console
    script's module contains the main module, and in no other way.
  */
  lemma SelectionFails(mainModule: string, t: EpTable)
    requires ValidTable(t)
    ensures var r := SelectionOf(mainModule, t);
            && (r == Err(NoEntryPoints) <==> t.items == map[])
            && (r == Err(NoMainEntryPoint) <==>
                  t.items != map[] && forall x :: InTable(t, x) ==> !IsMainCandidate(x, mainModule))
            && (r.Err? ==> r == Err(NoEntryPoints) || r == Err(NoMainEntryPoint))
  {
    var ts := Triples(t);
    TriplesSpec(t);
    CandidatesFirst(ts, mainModule);
    if forall x :: InTable(t, x) ==> !IsMainCandidate(x, mainModule) {
      forall k | 0 <= k < |ts| ensures !IsMainCandidate(ts[k], mainModule) {
        assert ts[k] in ts;
      }
    } else {
      var x :| InTable(t, x) && IsMainCandidate(x, mainModule);
      assert x in ts;
    }
  }

  /**
    The scripts handed to the template are the table's `console_scripts` group
    itself, names and order included (empty when it has none): storing them by
    name never replaces one.
  */
  lemma SelectionScripts(mainModule: string, t: EpTable)
    requires ValidTable(t)
    ensures var r := SelectionOf(mainModule, t);
            r.Ok? ==> r.value.scripts == if ConsoleGroup in t.items then t.items[ConsoleGroup] else EmptyDict()
  {
    ScriptsOfTable(t, t.keys);
  }

  /** The main entry point is the first console script, in iteration order, whose module contains the main module. */
  lemma SelectionMain(mainModule: string, t: EpTable)
    requires ValidTable(t)
    ensures var r := SelectionOf(mainModule, t);
            r.Ok? ==> exists k :: 0 <= k < |Triples(t)| && InTable(t, Triples(t)[k])
                                  && IsMainCandidate(Triples(t)[k], mainModule)
                                  && r.value.main == Triples(t)[k].details
                                  && forall j :: 0 <= j < k ==> !IsMainCandidate(Triples(t)[j], mainModule)
  {
    var ts := Triples(t);
    TriplesSpec(t);
    CandidatesFirst(ts, mainModule);
    if SelectionOf(mainModule, t).Ok? {
      var k :| 0 <= k < |ts| && IsMainCandidate(ts[k], mainModule)
               && CandidatesOf(ts, mainModule)[0] == ts[k].details
               && forall j :: 0 <= j < k ==> !IsMainCandidate(ts[j], mainModule);
      assert ts[k] in ts;
    }
  }

  /** The `j`-th name of the `console_scripts` group, visited after the entries `pre` and the names before it. */
  lemma ConsoleStep(mainModule: string, d: EpGroup, pre: seq<Triple>, j: nat)
    requires j < |d.keys|
    ensures var visited, n := pre + GroupTriples(ConsoleGroup, d, d.keys[..j]), d.keys[j];
            var after := pre + GroupTriples(ConsoleGroup, d, d.keys[..j + 1]);
            && (n !in d.items ==> after == visited)
            && (n in d.items ==>
                  && ScriptsFrom(EmptyDict(), after) == ScriptsFrom(EmptyDict(), visited).Put(n, d.items[n])
                  && CandidatesOf(after, mainModule)
                     == CandidatesOf(visited, mainModule) + if Contains(d.items[n].moduleName, mainModule) then [d.items[n]] else [])
  {
    var visited, n := pre + GroupTriples(ConsoleGroup, d, d.keys[..j]), d.keys[j];
    assert d.keys[..j + 1][..j] == d.keys[..j];
    if n in d.items {
      var x := Triple(ConsoleGroup, n, d.items[n]);
      assert pre + GroupTriples(ConsoleGroup, d, d.keys[..j + 1]) == visited + [x];
      assert (visited + [x])[..|visited|] == visited;
    }
  }

  /** The inner loop over the `console_scripts` group, from the state after the entries `pre`. */
  method AddConsoleGroup(mainModule: string, d: EpGroup, scripts: ODict<EpDetails>, mains: seq<EpDetails>,
                         ghost pre: seq<Triple>)
    returns (scripts': ODict<EpDetails>, mains': seq<EpDetails>)
    requires scripts == ScriptsFrom(EmptyDict(), pre) && mains == CandidatesOf(pre, mainModule)
    ensures scripts' == ScriptsFrom(EmptyDict(), pre + GroupTriples(ConsoleGroup, d, d.keys))
    ensures mains' == CandidatesOf(pre + GroupTriples(ConsoleGroup, d, d.keys), mainModule)
  {
    scripts', mains' := scripts, mains;
    assert d.keys[..0] == [];
    assert pre + GroupTriples(ConsoleGroup, d, d.keys[..0]) == pre;
    for j := 0 to |d.keys|
      invariant scripts' == ScriptsFrom(EmptyDict(), pre + GroupTriples(ConsoleGroup, d, d.keys[..j]))
      invariant mains' == CandidatesOf(pre + GroupTriples(ConsoleGroup, d, d.keys[..j]), mainModule)
    {
      var n := d.keys[j];
      ConsoleStep(mainModule, d, pre, j);
      if n in d.items {
        scripts' := scripts'.Put(n, d.items[n]);
        if Contains(d.items[n].moduleName, mainModule) {
          mains' := mains' + [d.items[n]];
        }
      }
    }
    assert d.keys[..|d.keys|] == d.keys;
  }

  /** The loops of pyinstaller.py:152-168 over the whole table. */
  method CollectConsoleScripts(mainModule: string, t: EpTable) returns (scripts: ODict<EpDetails>, mains: seq<EpDetails>)
    ensures scripts == ScriptsFrom(EmptyDict(), Triples(t))
    ensures mains == CandidatesOf(Triples(t), mainModule)
  {
    scripts, mains := EmptyDict(), [];
    assert t.keys[..0] == [];
    for i := 0 to |t.keys|
      invariant scripts == ScriptsFrom(EmptyDict(), TableTriples(t, t.keys[..i]))
      invariant mains == CandidatesOf(TableTriples(t, t.keys[..i]), mainModule)
    {
      var g := t.keys[i];
      ghost var pre := TableTriples(t, t.keys[..i]);
      assert t.keys[..i + 1][..i] == t.keys[..i];
      if g in t.items {
        assert TableTriples(t, t.keys[..i + 1]) == pre + GroupTriples(g, t.items[g], t.items[g].keys);
        if g == ConsoleGroup {
          scripts, mains := AddConsoleGroup(mainModule, t.items[g], scripts, mains, pre);
        } else {
          OtherGroupIgnored(scripts, g, t.items[g], t.items[g].keys, mainModule);
          ScriptsConcat(EmptyDict(), pre, GroupTriples(g, t.items[g], t.items[g].keys));
          CandidatesConcat(pre, GroupTriples(g, t.items[g], t.items[g].keys), mainModule);
        }
      } else {
        assert TableTriples(t, t.keys[..i + 1]) == pre;
      }
    }
    assert t.keys[..|t.keys|] == t.keys;
  }

  /**
    `create_entry_point_from_template` up to the rendering: the console scripts
    and the main entry point handed to the template, or the error raised.
  */
  method CreateEntryPointSelection(mainModule: string, t: EpTable) returns (r: Result<Selection>)
    ensures r == SelectionOf(mainModule, t)
  {
    if t.items == map[] {
      return Err(NoEntryPoints);
    }
    var scripts, mains := CollectConsoleScripts(mainModule, t);
    if mains == [] {
      return Err(NoMainEntryPoint);
    }
    r := Ok(Selection(scripts, mains[0]));
  }
}
