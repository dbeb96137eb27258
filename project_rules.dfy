/**
  The value-level rules behind the remaining accessors of `ProjectMetadata`
  (core.py): the console entry point and application type of
  `runtime_details`, the outcome of `version`, the resources folder found
  among the package defaults, and the singleton registry.
*/
module ProjectRules {
  import opened Values
  import opened Text
  import opened Environment
  import opened MetadataRules

  // ---------------------------------------------------------------------------
  // Runtime details (core.py:188-226)

  /** `{"name": ..., "module": ..., "attr": ...}` of the console script running the app. */
  datatype ConsoleEntry = ConsoleEntry(name: string, moduleName: string, attr: string)

  datatype Runtime = Runtime(entryPoint: Option<ConsoleEntry>, appType: string, buildInfo: Value)

  /** `metadata["project"][key]`, as the `exe_name` and `project_name` properties read it. */
  function ProjectEntry(md: Meta, key: string): (r: Result<Value>)
    ensures r.Ok? <==> "project" in md && md["project"].Dict? && key in md["project"].entries
    ensures r.Ok? ==> r.value == md["project"].entries[key]
  {
    if "project" !in md then Err(MissingKey("project"))
    else if !md["project"].Dict? then Err(ProjectNotMapping)
    else if key !in md["project"].entries then Err(MissingKey(key))
    else Ok(md["project"].entries[key])
  }

  /** Normalised metadata always has both entries. */
  lemma ProjectEntriesPresent(env: Env, main: string)
    requires MetadataOf(env, main).Ok?
    ensures ProjectEntry(MetadataOf(env, main).value, "exe_name").Ok?
    ensures ProjectEntry(MetadataOf(env, main).value, "project_name").Ok?
  {
    MetadataOfShape(env, main);
  }

  /** A `console_scripts` entry point whose name equals the executable name. */
  predicate IsConsoleScript(ep: EntryPoint, exe: Value) {
    ep.group == "console_scripts" && exe == Str(ep.name)
  }

  /** The position of the first matching console script, `|eps|` when there is none. */
  function FirstConsoleScript(eps: seq<EntryPoint>, exe: Value): (r: nat)
    ensures r <= |eps|
    ensures r < |eps| ==> IsConsoleScript(eps[r], exe)
    ensures forall i :: 0 <= i < r ==> !IsConsoleScript(eps[i], exe)
    decreases |eps|
  {
    if eps == [] then 0
    else if IsConsoleScript(eps[0], exe) then 0
    else 1 + FirstConsoleScript(eps[1..], exe)
  }

  /**
    The details recorded for the entry point: its first attribute component
    (`cs.attrs[0]`), which is missing when the entry point names no attribute.
  */
  function EntryDetails(ep: EntryPoint): (r: Result<ConsoleEntry>)
    ensures r.Err? <==> ep.attr == ""
    ensures r.Err? ==> r.error == NoEntryPointAttribute(ep.name)
    ensures r.Ok? ==> r.value.name == ep.name && r.value.moduleName == ep.moduleName
    ensures r.Ok? ==> StartsWith(ep.attr, r.value.attr) && '.' !in r.value.attr
    ensures r.Ok? ==> (r.value.attr == ep.attr <==> '.' !in ep.attr)
  {
    if ep.attr == "" then Err(NoEntryPointAttribute(ep.name))
    else Ok(ConsoleEntry(ep.name, ep.moduleName, BeforeFirst(ep.attr, '.')))
  }

  /** What `runtime_details` computes on a cache miss, from the executable name. */
  function RuntimeOf(eps: seq<EntryPoint>, exe: Value, frozen: bool, buildInfo: Value): Result<Runtime> {
    var entry :=
      if !Truthy(exe) then Ok(None)
      else
        var i := FirstConsoleScript(eps, exe);
        if i == |eps| then Ok(None)
        else match EntryDetails(eps[i])
          case Err(e) => Err(e)
          case Ok(c) => Ok(Some(c));
    match entry
    case Err(e) => Err(e)
    case Ok(c) =>
      if frozen then Ok(Runtime(c, "binary", buildInfo))
      else Ok(Runtime(c, "python-env", Dict(map[])))
  }

  /**
    The runtime details name a console script exactly when the executable name
    is set and some console script carries it; it is then the first one. A
    bundle reports "binary" and its recorded build info, anything else
    "python-env" and an empty build info.
  */
  lemma RuntimeOfSpec(eps: seq<EntryPoint>, exe: Value, frozen: bool, buildInfo: Value)
    ensures var r := RuntimeOf(eps, exe, frozen, buildInfo);
            && (r.Err? <==> Truthy(exe) && exists i :: 0 <= i < |eps| && IsConsoleScript(eps[i], exe)
                                                       && eps[i].attr == "" && forall j :: 0 <= j < i ==> !IsConsoleScript(eps[j], exe))
            && (r.Ok? ==> (r.value.entryPoint.Some? <==> Truthy(exe) && exists i :: 0 <= i < |eps| && IsConsoleScript(eps[i], exe)))
            && (r.Ok? && r.value.entryPoint.Some? ==>
                  exists i :: 0 <= i < |eps| && IsConsoleScript(eps[i], exe)
                              && (forall j :: 0 <= j < i ==> !IsConsoleScript(eps[j], exe))
                              && r.value.entryPoint.value.moduleName == eps[i].moduleName)
            && (r.Ok? ==> (r.value.appType == "binary" <==> frozen))
            && (r.Ok? ==> r.value.buildInfo == if frozen then buildInfo else Dict(map[]))
  {
    var i := FirstConsoleScript(eps, exe);
    if Truthy(exe) && i < |eps| {
      assert IsConsoleScript(eps[i], exe);
    }
    if exists k :: 0 <= k < |eps| && IsConsoleScript(eps[k], exe) {
      var k :| 0 <= k < |eps| && IsConsoleScript(eps[k], exe);
      assert i <= k;
    }
    if Truthy(exe) && (exists k :: 0 <= k < |eps| && IsConsoleScript(eps[k], exe)
                         && eps[k].attr == "" && forall j :: 0 <= j < k ==> !IsConsoleScript(eps[j], exe)) {
      var k :| 0 <= k < |eps| && IsConsoleScript(eps[k], exe)
               && eps[k].attr == "" && forall j :: 0 <= j < k ==> !IsConsoleScript(eps[j], exe);
      assert i == k;
    }
  }

  // ---------------------------------------------------------------------------
  // Version (core.py:262-276)

  /** A successful `get_version()` call gives its value; any exception gives "n/a". */
  function ReportedVersion(call: VersionCall): (v: Value)
    ensures call.Raises? ==> v == Str("n/a")
    ensures call.Returns? ==> v == call.result
  {
    match call
    case Raises => Str("n/a")
    case Returns(v) => v
  }

  /** What `version` computes on a cache miss: only a failing import escapes. */
  function VersionOf(env: Env, main: string): (r: Result<Value>)
    ensures r.Err? <==> !Importable(env, main)
    ensures r.Err? ==> r.error == ImportFailed(main)
    ensures r.Ok? ==> r.value == ReportedVersion(env.packages[main].getVersion)
  {
    if !Importable(env, main) then Err(ImportFailed(main))
    else Ok(ReportedVersion(env.packages[main].getVersion))
  }

  /** Every module with a marker has a version, so the versions of discovered siblings never fail. */
  lemma MarkedModuleHasVersion(env: Env, main: string)
    requires HasMarker(env, main)
    ensures VersionOf(env, main).Ok?
  {
  }

  // ---------------------------------------------------------------------------
  // Resources folder (core.py:328-338)

  predicate IsFolderKey(k: string) {
    EndsWith(k, "RESOURCES_FOLDER")
  }

  /** The position of the first key ending in `RESOURCES_FOLDER`, `|ks|` if none. */
  function FirstFolderKey(ks: seq<string>): (r: nat)
    ensures r <= |ks|
    ensures r < |ks| ==> IsFolderKey(ks[r])
    ensures forall i :: 0 <= i < r ==> !IsFolderKey(ks[i])
    decreases |ks|
  {
    if ks == [] then 0
    else if IsFolderKey(ks[0]) then 0
    else 1 + FirstFolderKey(ks[1..])
  }

  /** The value of the first defaults entry, in order, whose key ends in `RESOURCES_FOLDER`. */
  function ResourcesFolderIn(defaults: ODict<Value>): (r: Option<Value>)
    requires defaults.Valid()
    ensures r.None? <==> forall k :: k in defaults.items ==> !IsFolderKey(k)
    ensures r.Some? ==> exists i :: 0 <= i < |defaults.keys| && IsFolderKey(defaults.keys[i])
                                    && r.value == defaults.items[defaults.keys[i]]
                                    && forall j :: 0 <= j < i ==> !IsFolderKey(defaults.keys[j])
  {
    var i := FirstFolderKey(defaults.keys);
    if i == |defaults.keys| then None else Some(defaults.items[defaults.keys[i]])
  }

  // ---------------------------------------------------------------------------
  // Singletons (core.py:350-368)

  /** An object (its identity) and the name of its class. */
  datatype Obj = Obj(id: nat, cls: string)

  /** The class an object is registered under. */
  function RegistrationClass(obj: Obj, regCls: Option<string>): string {
    if regCls.Some? then regCls.value else obj.cls
  }

  /**
    Registering checks the requested class against the object's class, then
    refuses to replace an object already registered for it that compares
    unequal. `isSubclass(c, d)` is Python's `issubclass(c, d)` and
    `differs(a, b)` is Python's `a != b`, which a class may redefine.
  */
  function Register(singletons: map<string, Obj>, obj: Obj, regCls: Option<string>,
                    isSubclass: (string, string) -> bool, differs: (Obj, Obj) -> bool): (r: Result<map<string, Obj>>)
    ensures regCls.Some? && !isSubclass(obj.cls, regCls.value) ==> r == Err(NotASubclass(regCls.value))
    ensures r.Err? <==> || (regCls.Some? && !isSubclass(obj.cls, regCls.value))
                        || (RegistrationClass(obj, regCls) in singletons
                            && differs(singletons[RegistrationClass(obj, regCls)], obj))
    ensures r.Ok? ==> r.value.Keys == singletons.Keys + {RegistrationClass(obj, regCls)}
    ensures r.Ok? ==> r.value[RegistrationClass(obj, regCls)] == obj
    ensures r.Ok? ==> forall c :: c in singletons && c != RegistrationClass(obj, regCls) ==> r.value[c] == singletons[c]
  {
    if regCls.Some? && !isSubclass(obj.cls, regCls.value) then Err(NotASubclass(regCls.value))
    else
      var key := RegistrationClass(obj, regCls);
      if key in singletons && differs(singletons[key], obj) then Err(SingletonAlreadySet(key))
      else Ok(singletons[key := obj])
  }

  /** Registering the same object again under the same class changes nothing, unless it compares unequal to itself. */
  lemma RegisterIdempotent(singletons: map<string, Obj>, obj: Obj, regCls: Option<string>,
                           isSubclass: (string, string) -> bool, differs: (Obj, Obj) -> bool)
    requires Register(singletons, obj, regCls, isSubclass, differs).Ok?
    requires !differs(obj, obj)
    ensures var s := Register(singletons, obj, regCls, isSubclass, differs).value;
            Register(s, obj, regCls, isSubclass, differs) == Ok(s)
  {
    var s := Register(singletons, obj, regCls, isSubclass, differs).value;
    assert s[RegistrationClass(obj, regCls) := obj] == s;
  }

  /**
    A registered object is replaced only by an object that compares equal to
    it; every other class keeps its object.
  */
  lemma RegisterKeepsFirst(singletons: map<string, Obj>, cls: string, obj: Obj, regCls: Option<string>,
                           isSubclass: (string, string) -> bool, differs: (Obj, Obj) -> bool)
    requires cls in singletons
    ensures var r := Register(singletons, obj, regCls, isSubclass, differs);
            r.Ok? ==> if cls == RegistrationClass(obj, regCls) then !differs(singletons[cls], r.value[cls])
                      else r.value[cls] == singletons[cls]
  {
  }

  /** With Python's default `!=`, which compares identities, a registered object is never replaced. */
  lemma RegisterKeepsFirstByIdentity(singletons: map<string, Obj>, cls: string, obj: Obj, regCls: Option<string>,
                                     isSubclass: (string, string) -> bool)
    requires cls in singletons
    ensures var r := Register(singletons, obj, regCls, isSubclass, (a: Obj, b: Obj) => a != b);
            r.Ok? ==> r.value[cls] == singletons[cls]
  {
    RegisterKeepsFirst(singletons, cls, obj, regCls, isSubclass, (a: Obj, b: Obj) => a != b);
  }

  /** `get_singleton(cls)` after a successful registration yields the object. */
  lemma RegisterThenGet(singletons: map<string, Obj>, obj: Obj, regCls: Option<string>,
                        isSubclass: (string, string) -> bool, differs: (Obj, Obj) -> bool)
    requires Register(singletons, obj, regCls, isSubclass, differs).Ok?
    ensures var s := Register(singletons, obj, regCls, isSubclass, differs).value;
            RegistrationClass(obj, regCls) in s && s[RegistrationClass(obj, regCls)] == obj
  {
  }
}
