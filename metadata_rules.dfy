/**
  The value-level rules behind `ProjectMetadata.metadata` and
  `get_pkg_metadata_value` (core.py): which module attributes are collected,
  how the `_frkl.json` content and the marker module's attributes are merged,
  how the `project` entry is completed, and how a value is looked up.
*/
module MetadataRules {
  import opened Values
  import opened Text
  import opened Environment

  /** A metadata dictionary. */
  type Meta = map<string, Value>

  /** The default of `get_pkg_metadata_value` that means "raise on a missing key". */
  const RaiseSentinel: Value := Str("__raise_exception__")

  // ---------------------------------------------------------------------------
  // The project slug

  predicate IsSlugSeparator(c: char) {
    c == '-' || c == '.' || c == ' '
  }

  /** `name.replace("-", "_").replace(".", "_").replace(" ", "_")` */
  function Slug(name: string): string {
    ReplaceChar(ReplaceChar(ReplaceChar(name, '-', '_'), '.', '_'), ' ', '_')
  }

  /** Exactly `-`, `.` and space become `_`; every other character is kept in place. */
  lemma SlugCharacters(name: string)
    ensures |Slug(name)| == |name|
    ensures forall i :: 0 <= i < |name| ==>
              Slug(name)[i] == if IsSlugSeparator(name[i]) then '_' else name[i]
  {
  }

  /** A slug contains none of the three separators. */
  lemma SlugHasNoSeparator(name: string)
    ensures forall i :: 0 <= i < |Slug(name)| ==> !IsSlugSeparator(Slug(name)[i])
  {
    SlugCharacters(name);
  }

  /** Deriving the slug of a slug changes nothing. */
  lemma SlugIdempotent(name: string)
    ensures Slug(Slug(name)) == Slug(name)
  {
    SlugCharacters(name);
    SlugCharacters(Slug(name));
    SlugHasNoSeparator(name);
  }

  // ---------------------------------------------------------------------------
  // Collecting module attributes (core.py:140-151 and core.py:290-298)

  /** The two attribute scans: the marker module's and the defaults module's. */
  datatype AttrFilter = MetadataAttributes | DefaultsAttributes

  /**
    An attribute is kept when its name is public and `str(attr)` does not start
    with `typing.`; the marker scan also drops modules, classes, callables and
    coroutines, the defaults scan only modules and classes.
  */
  predicate Keeps(f: AttrFilter, name: string, a: Attr) {
    && !StartsWith(name, "_")
    && !StartsWith(a.text, "typing.")
    && match f
       case MetadataAttributes => a.kind == PlainValue
       case DefaultsAttributes => a.kind != ModuleObject && a.kind != ClassObject
  }

  /** The kept attributes among the names `ks`, in the order of `ks`. */
  function Collected(attrs: ODict<Attr>, ks: seq<string>, f: AttrFilter): (d: ODict<Value>)
    ensures d.Valid()
    ensures forall k :: k in d.items <==> k in ks && k in attrs.items && Keeps(f, k, attrs.items[k])
    ensures forall k :: k in d.items ==> d.items[k] == attrs.items[k].value
    decreases |ks|
  {
    if ks == [] then EmptyDict()
    else
      var previous := Collected(attrs, ks[..|ks| - 1], f);
      var k := ks[|ks| - 1];
      assert ks == ks[..|ks| - 1] + [k];
      if k in attrs.items && Keeps(f, k, attrs.items[k]) then previous.Put(k, attrs.items[k].value)
      else previous
  }

  /** The names of `ks` whose attribute is kept, in the order of `ks`. */
  function KeptNames(attrs: ODict<Attr>, ks: seq<string>, f: AttrFilter): seq<string>
    decreases |ks|
  {
    if ks == [] then []
    else
      var k := ks[|ks| - 1];
      KeptNames(attrs, ks[..|ks| - 1], f) + if k in attrs.items && Keeps(f, k, attrs.items[k]) then [k] else []
  }

  /** Over distinct names, the collected dictionary lists the kept names in the order of `ks`. */
  lemma {:induction false} CollectedKeys(attrs: ODict<Attr>, ks: seq<string>, f: AttrFilter)
    requires forall i, j :: 0 <= i < j < |ks| ==> ks[i] != ks[j]
    ensures Collected(attrs, ks, f).keys == KeptNames(attrs, ks, f)
    decreases |ks|
  {
    if ks != [] {
      var ks', k := ks[..|ks| - 1], ks[|ks| - 1];
      assert ks == ks' + [k];
      CollectedKeys(attrs, ks', f);
      assert k !in ks';
    }
  }

  /** The scan over a module's own `dir()` lists the kept names in `dir()` order. */
  lemma CollectedInDirOrder(attrs: ODict<Attr>, f: AttrFilter)
    requires attrs.Valid()
    ensures Collected(attrs, attrs.keys, f).keys == KeptNames(attrs, attrs.keys, f)
  {
    CollectedKeys(attrs, attrs.keys, f);
  }

  // ---------------------------------------------------------------------------
  // Normalising the metadata (core.py:137-171)

  function PublicAttributes(attrs: ODict<Attr>): ODict<Value> {
    Collected(attrs, attrs.keys, MetadataAttributes)
  }

  /** The JSON content overwritten by the public attributes, then the main module injected. */
  function Merged(json: Meta, attrs: ODict<Attr>, main: string): (pm: Meta)
    ensures pm.Keys == json.Keys + PublicAttributes(attrs).items.Keys + {"project_main_module"}
    ensures pm["project_main_module"] == Str(main)
    ensures forall k :: k in PublicAttributes(attrs).items && k != "project_main_module"
                        ==> pm[k] == attrs.items[k].value
    ensures forall k :: k in json && k !in PublicAttributes(attrs).items && k != "project_main_module"
                        ==> pm[k] == json[k]
  {
    (json + PublicAttributes(attrs).items)["project_main_module" := Str(main)]
  }

  /** `project_metadata.get("project", {})` */
  function ProjectOf(pm: Meta): Value {
    if "project" in pm then pm["project"] else Dict(map[])
  }

  /** `project.get("project_name", None)` */
  function ProjectName(project: map<string, Value>): Value {
    if "project_name" in project then project["project_name"] else Null
  }

  /**
    Checks the project name and back-fills `exe_name` and `project_slug`;
    every other key, and every key the project already had, is left alone.
  */
  function Completed(pm: Meta): (r: Result<Meta>)
    ensures !ProjectOf(pm).Dict? ==> r == Err(ProjectNotMapping)
    ensures ProjectOf(pm).Dict? && !Truthy(ProjectName(ProjectOf(pm).entries)) ==> r == Err(NoProjectName)
    ensures r.Err? <==> || !ProjectOf(pm).Dict?
                        || !Truthy(ProjectName(ProjectOf(pm).entries))
                        || ("project_slug" !in ProjectOf(pm).entries && !ProjectName(ProjectOf(pm).entries).Str?)
    ensures r.Ok? ==> && "project" in pm && r.value.Keys == pm.Keys
                      && (forall k :: k in pm && k != "project" ==> r.value[k] == pm[k])
                      && r.value["project"].Dict?
    ensures r.Ok? ==>
              var before := pm["project"].entries;
              var after := r.value["project"].entries;
              && after.Keys == before.Keys + {"exe_name", "project_slug"}
              && (forall k :: k in before ==> after[k] == before[k])
              && ("exe_name" !in before ==> after["exe_name"] == Null)
              && ("project_slug" !in before ==> after["project_slug"] == Str(Slug(before["project_name"].s)))
  {
    var project := ProjectOf(pm);
    if !project.Dict? then Err(ProjectNotMapping)
    else
      var name := ProjectName(project.entries);
      if !Truthy(name) then Err(NoProjectName)
      else
        var withExe := if "exe_name" in project.entries then project.entries
                       else project.entries["exe_name" := Null];
        if "project_slug" in withExe then Ok(pm["project" := Dict(withExe)])
        else if !name.Str? then Err(ProjectNameNotString)
        else Ok(pm["project" := Dict(withExe["project_slug" := Str(Slug(name.s))])])
  }

  /** What `metadata` computes on a cache miss (core.py:118-171). */
  function MetadataOf(env: Env, main: string): Result<Meta> {
    if main == "" then Err(NotInitialized)
    else if !(main in env.packages && env.packages[main].markerImports) then Err(NoMarkerModule(main))
    else
      var facts := env.packages[main];
      if facts.metadataFile.None? then Err(MetadataFileUnreadable(main))
      else Completed(Merged(facts.metadataFile.value, facts.markerAttributes, main))
  }

  /** `metadata` of a record whose cache holds `cached`: the cached value, else the normalisation. */
  function MetadataFrom(env: Env, main: string, cached: Option<Meta>): (r: Result<Meta>)
    ensures cached.Some? ==> r == Ok(cached.value)
    ensures cached.None? ==> r == MetadataOf(env, main)
  {
    if cached.Some? then Ok(cached.value) else MetadataOf(env, main)
  }

  /** A successful normalisation always names the record's own main module and a complete project. */
  lemma MetadataOfShape(env: Env, main: string)
    requires MetadataOf(env, main).Ok?
    ensures var md := MetadataOf(env, main).value;
            && "project_main_module" in md && md["project_main_module"] == Str(main)
            && "project" in md && md["project"].Dict?
            && Truthy(ProjectName(md["project"].entries))
            && "exe_name" in md["project"].entries
            && "project_slug" in md["project"].entries
  {
    var facts := env.packages[main];
    var pm := Merged(facts.metadataFile.value, facts.markerAttributes, main);
    var md := MetadataOf(env, main).value;
    assert md["project"].entries["project_name"] == pm["project"].entries["project_name"];
  }

  /** The metadata fails exactly when one of the configuration errors of core.py:118-170 applies. */
  lemma MetadataOfFails(env: Env, main: string)
    ensures MetadataOf(env, main).Err? <==>
              || main == ""
              || main !in env.packages
              || !env.packages[main].markerImports
              || env.packages[main].metadataFile.None?
              || (var pm := Merged(env.packages[main].metadataFile.value, env.packages[main].markerAttributes, main);
                  || !ProjectOf(pm).Dict?
                  || !Truthy(ProjectName(ProjectOf(pm).entries))
                  || ("project_slug" !in ProjectOf(pm).entries && !ProjectName(ProjectOf(pm).entries).Str?))
  {
  }

  /** Completing an already completed dictionary changes nothing. */
  lemma CompletedIdempotent(pm: Meta)
    requires Completed(pm).Ok?
    ensures Completed(Completed(pm).value) == Completed(pm)
  {
    var md := Completed(pm).value;
    var p := md["project"].entries;
    assert p["project_name"] == pm["project"].entries["project_name"];
    assert md["project" := Dict(p)] == md;
  }

  // ---------------------------------------------------------------------------
  // Looking up a value (core.py:304-317)

  /**
    A present key yields its value; a missing key raises exactly when the
    default is the sentinel, and yields the default (also `None`) otherwise.
  */
  function LookupValue(md: Meta, key: string, default: Value): (r: Result<Value>)
    ensures r.Err? <==> key !in md && default == RaiseSentinel
    ensures r.Err? ==> r.error == NoMetadataValue(key)
    ensures r.Ok? ==> r.value == if key in md then md[key] else default
  {
    if key !in md then
      if default == RaiseSentinel then Err(NoMetadataValue(key)) else Ok(default)
    else Ok(md[key])
  }

  /** With an explicit default of `None`, a missing key yields `None`. */
  lemma LookupMissingWithNone(md: Meta, key: string)
    requires key !in md
    ensures LookupValue(md, key, Null) == Ok(Null)
  {
  }
}
