# frkl.project-meta — a Dafny model of the project-metadata core

`frkl.project-meta` works out, for an installed Python package that carries
a `_frkl` marker submodule, everything a build of that package needs. That
covers:

- the normalised project metadata;
- the version and the runtime classification;
- the sibling frkl packages installed beside it;
- the package defaults;
- the per-package build properties: resources, hidden imports and the entry
  points it claims.

It merges those build properties over the main package and its siblings, and
feeds the merged entry-point table to two PyInstaller helpers:

- one produces the data of a runtime hook that answers
  `pkg_resources.iter_entry_points` inside a bundle;
- one picks the console scripts and the main entry point written into the
  generated launcher.

Model layout, one module per file:

- `values.dfy` (`Values`): the Python values the code handles (`Value`),
  `Result`/`Option`, the error kinds, and `ODict`, a dictionary whose
  insertion order is kept because the code iterates it.
- `text.dfy` (`Text`): the string operations used (`startswith`,
  `endswith`, `in`, `replace`, POSIX `os.path.dirname`/`join`).
- `environment.dfy` (`Environment`): the facts about the running process
  that the code obtains by importing modules, by asking `pkg_resources`
  and `importlib_metadata`, and by probing the file system. They are plain
  data (`Env`), passed to every operation.
- `discovery.dfy` (`Discovery`): `discover_installed_modules`.
- `metadata_rules.dfy`, `project_rules.dfy`, `build_rules.dfy`: the value-level
  rules behind the accessors of `ProjectMetadata`, as functions with their
  lemmas.
- `core.dfy` (`Core`): the class `ProjectMetadata` itself. Its memoised
  properties are fields the methods fill on first success. Each accessor
  method is proved against a `...Now` ghost function of the state before the
  call. The sibling scans of `other_frkl_project_versions` and
  `create_package_data` walk the sibling records one at a time: a recursive
  method over the position, with one step method per record.
- `pyinstaller.dfy` (`Pyinstaller`): `get_entry_point_imports_hook` and the
  selection part of `create_entry_point_from_template`. Each is a method
  with nested loops, proved against a fold over the table's entries
  (`HookOf`, `ScriptsFrom`, `CandidatesOf`). Independent characterisations
  are proved about those folds.

## Model

| member | source | states |
|---|---|---|
| Discovery.DiscoverInstalledModules | src/frkl/project_meta/utils.py:29-58 | the modules found are exactly the admissible working-set keys (not ignored; allowed when an allow list is given; the default ignore list when none is given) whose `-`→`_` module name imports with its `_frkl` child. The loop computes the fold `Discovered`, which `DiscoveredStep` and `DiscoveredHasWitness` characterise |
| Discovery.DiscoveredStep | src/frkl/project_meta/utils.py:35-53 | one more working-set key adds its module name exactly when it passes both filters and the import test |
| Discovery.DiscoveredHasWitness | src/frkl/project_meta/utils.py:35-53 | every returned module passed the import test and comes from a key present in the working set, not ignored, and allowed |
| Discovery.DefaultIgnoreList | src/frkl/project_meta/utils.py:29-30 | giving no ignore list is the same as giving the default one |
| Discovery.IgnoredKeyNotReturned | src/frkl/project_meta/utils.py:38-39 | an ignored key whose module name no other key shares is never returned |
| Discovery.AllowListBounds | src/frkl/project_meta/utils.py:41-43 | with an allow list, every returned module is the module name of an allowed key |
| Discovery.DiscoveredHasNoHyphen | src/frkl/project_meta/utils.py:48 | no returned module name contains `-` |
| Discovery.DiscoveredAtMostOnePerPackage | src/frkl/project_meta/utils.py:34-53 | the set holds at most one module per installed distribution |
| Text.ReplaceChar | src/frkl/project_meta/core.py:166-171 | `replace` of one character: same length, exactly the matching positions changed |
| Text.BeforeFirst | src/frkl/project_meta/core.py:207 | the part of an attribute path before the first `.`: a prefix without `.`, the whole text when there is none |
| Text.PathDirnameSpec | src/frkl/project_meta/core.py:398 | POSIX `os.path.dirname` of the module file is a prefix of the path. It is empty iff the path has no `/`, and has no trailing `/` unless it is the root |
| Text.PathJoin | src/frkl/project_meta/core.py:399-415 | POSIX `os.path.join` of two path parts |
| MetadataRules.SlugCharacters | src/frkl/project_meta/core.py:165-171 | `Slug` keeps the name's length and turns exactly `-`, `.` and space into `_` |
| MetadataRules.SlugHasNoSeparator | src/frkl/project_meta/core.py:165-171 | a slug contains none of the three separators |
| MetadataRules.SlugIdempotent | src/frkl/project_meta/core.py:165-171 | the slug of a slug is itself |
| MetadataRules.Collected | src/frkl/project_meta/core.py:140-151 | a `dir()` scan keeps exactly the public names whose attribute passes the filter, with their values |
| MetadataRules.CollectedKeys | src/frkl/project_meta/core.py:140-151 | over distinct names, the collected keys are the names that pass, in the order the names are visited |
| MetadataRules.CollectedInDirOrder | src/frkl/project_meta/core.py:140-151 | a scan of a module's `dir()` keeps the passing names in `dir()` order |
| Core.CollectAttributes | src/frkl/project_meta/core.py:140-151 | the scan loop computes exactly `Collected` over the module's names in order |
| MetadataRules.Merged | src/frkl/project_meta/core.py:137-153 | keys are the JSON keys, the kept attributes and `project_main_module`; attributes override the JSON; `project_main_module` is the record's main module |
| MetadataRules.Completed | src/frkl/project_meta/core.py:155-171 | fails exactly when `project` is not a mapping, the name is falsy, or a slug must be derived from a non-string name. On success only `project` changes: `exe_name` defaults to None and `project_slug` to the slug of the name, and existing keys are kept |
| MetadataRules.MetadataFrom | src/frkl/project_meta/core.py:115-116 | a cached metadata dictionary is returned as is; otherwise it is normalised afresh |
| MetadataRules.MetadataOfShape | src/frkl/project_meta/core.py:153-171 | successful normalisation names the main module and has a truthy project name, an `exe_name` and a `project_slug` (`MetadataOf`) |
| MetadataRules.MetadataOfFails | src/frkl/project_meta/core.py:118-160 | the metadata fails exactly on one of the configuration errors: no main module, no marker module, unreadable JSON, bad project entry (`MetadataOf`) |
| MetadataRules.CompletedIdempotent | src/frkl/project_meta/core.py:162-171 | completing completed metadata changes nothing |
| MetadataRules.LookupValue | src/frkl/project_meta/core.py:308-317 | a present key gives its value; a missing key raises exactly when the default is the sentinel, and gives the default otherwise |
| MetadataRules.LookupMissingWithNone | src/frkl/project_meta/core.py:313-314 | an explicit default of None gives None for a missing key |
| ProjectRules.ProjectEntry | src/frkl/project_meta/core.py:177-186 | `metadata["project"][key]` succeeds exactly when `project` is a mapping holding the key |
| ProjectRules.ProjectEntriesPresent | src/frkl/project_meta/core.py:162-171 | normalised metadata always has `exe_name` and `project_name` |
| ProjectRules.FirstConsoleScript | src/frkl/project_meta/core.py:202-209 | the position of the first console script named like the executable, or the end |
| ProjectRules.EntryDetails | src/frkl/project_meta/core.py:204-208 | a console script's details carry its name and module and the first component of its attribute path; an empty attribute path fails |
| ProjectRules.RuntimeOfSpec | src/frkl/project_meta/core.py:200-223 | an entry point is reported iff the executable name is set and some console script carries it, and it is then the first one. A bundle reports "binary" and its build info; otherwise "python-env" with an empty build info (`RuntimeOf`) |
| ProjectRules.ReportedVersion | src/frkl/project_meta/core.py:269-273 | a failing `get_version()` gives "n/a"; otherwise its value |
| ProjectRules.VersionOf | src/frkl/project_meta/core.py:268-276 | only a failing import of the main module escapes |
| ProjectRules.MarkedModuleHasVersion | src/frkl/project_meta/core.py:268-276 | a module that passed discovery always has a version |
| ProjectRules.FirstFolderKey | src/frkl/project_meta/core.py:334-336 | the first key ending in `RESOURCES_FOLDER`, or the end |
| ProjectRules.ResourcesFolderIn | src/frkl/project_meta/core.py:334-336 | no folder iff no key ends in `RESOURCES_FOLDER`; otherwise the value under the first such key in order |
| ProjectRules.Register | src/frkl/project_meta/core.py:350-364 | fails exactly on a requested class the object's class does not subclass, or when the object already registered under the key compares unequal (`!=`, passed as `differs`) to the new one; otherwise the new object is stored under its class and nothing else changes |
| ProjectRules.RegisterIdempotent | src/frkl/project_meta/core.py:360-364 | registering the same object again succeeds and changes nothing, for an object that does not compare unequal to itself |
| ProjectRules.RegisterKeepsFirst | src/frkl/project_meta/core.py:360-362 | a registered object is replaced only by an object that does not compare unequal to it; objects under other classes are untouched |
| ProjectRules.RegisterKeepsFirstByIdentity | src/frkl/project_meta/core.py:360-364 | with Python's default `!=` (identity), a registered object is never replaced |
| ProjectRules.RegisterThenGet | src/frkl/project_meta/core.py:350-368 | after a registration, `get_singleton` of its class gives the object |
| BuildRules.TablePairsMember | src/frkl/project_meta/core.py:439-446 | a (group, name) pair is in a table iff the table holds that name in that group |
| BuildRules.GroupTriplesSpec | src/frkl/project_meta/core.py:441 | visiting a group yields exactly its entries, each once when the names are distinct |
| BuildRules.TableTriplesSpec | src/frkl/project_meta/core.py:439-441 | visiting the groups yields exactly the entries of the visited groups, each once when the groups are distinct |
| BuildRules.TriplesSpec | src/frkl/project_meta/core.py:439-441 | visiting a well-formed table yields each of its entries exactly once, and exactly its (group, name) pairs |
| BuildRules.SetEntry | src/frkl/project_meta/core.py:393-396 | `setdefault(group, {})[name] = details`: the entry is stored, every other entry and group is unchanged, and the table stays well formed |
| BuildRules.SetEntryPairs | src/frkl/project_meta/core.py:393-396 | storing an entry adds exactly its pair |
| BuildRules.Claimed | src/frkl/project_meta/core.py:388-396 | the claimed table is well formed, holds exactly the pairs of the entry points whose value starts with the main module, each one's details come from such an entry point, and it has no empty group |
| BuildRules.ClaimedStep | src/frkl/project_meta/core.py:388-396 | one more entry point, stored when its value starts with the main module, keeps the claimed table well formed, with exactly the claimed pairs and no empty group |
| Core.ClaimEntryPoints | src/frkl/project_meta/core.py:388-396 | the loop computes exactly `Claimed` |
| BuildRules.StringSet | src/frkl/project_meta/core.py:382-383 | `set(value)`: the strings of a list of strings, the characters of a string, the keys of a mapping; any other value fails |
| Core.AddExisting | src/frkl/project_meta/core.py:398-419 | the resources are the declared ones plus every candidate path that exists |
| BuildRules.BuildPropertiesOf | src/frkl/project_meta/core.py:376-428 | successful build properties need the metadata and an importable module. They then hold `<main>.defaults` as a hidden import and exactly the claimed pairs in a well-formed table. A resource that is not a candidate path can only come from a `build_properties` entry of the metadata |
| BuildRules.BuildPropertiesSpec | src/frkl/project_meta/core.py:376-419 | a metadata failure is passed on. Otherwise the call fails iff `build_properties` is not a dictionary, its `resources` or `hidden_imports` entry is not a list of strings, or the module cannot be imported, and the error is the matching one. On success the resources are exactly the declared ones plus the existing candidate paths, and the hidden imports exactly the declared ones plus `<main>.defaults` |
| Core.ProjectMetadata.FindBuildProperties | src/frkl/project_meta/core.py:376-428 | the method computes `BuildPropertiesOf` of the metadata before the call and fills the metadata cache |
| BuildRules.MergeAllErr | src/frkl/project_meta/core.py:443-445 | after a duplicate is raised nothing more happens |
| BuildRules.MergeAllConcat | src/frkl/project_meta/core.py:439-466 | merging two runs of entries is merging the first, then the second |
| BuildRules.PairsOfSnoc | src/frkl/project_meta/core.py:441-448 | one more entry adds its pair and its module, and keeps the pairs distinct iff its pair is new |
| BuildRules.MergeAllSpec | src/frkl/project_meta/core.py:439-448 | merging entries into a well-formed table succeeds iff no entry's pair is already present or repeated, and a failure is a duplicate. On success every entry is stored with its module as a hidden import, nothing present is lost, and the pairs are the union (`MergeAll`) |
| BuildRules.MergeStepSpec | src/frkl/project_meta/core.py:442-448 | one entry merged: fails iff its pair is taken, and a failure is a duplicate; otherwise it adds its pair and its module, stores it, and keeps what was stored |
| BuildRules.MergeAllSnoc | src/frkl/project_meta/core.py:441-448 | merging one more entry is one more merge step |
| BuildRules.MergeGroup | src/frkl/project_meta/core.py:441-448 | the inner loop merges one group's entries in order: exactly the fold `MergeAll` |
| BuildRules.MergeGroupStep | src/frkl/project_meta/core.py:441-448 | the group's next name continues the merge of the names before it by one merge step on its entry |
| BuildRules.MergeGroupFails | src/frkl/project_meta/core.py:443-445 | a duplicate among the first names of a group fails the merge of the whole group |
| BuildRules.GroupTriplesNext | src/frkl/project_meta/core.py:441 | in a well-formed group, one more name adds exactly its own entry |
| BuildRules.GroupTriplesPrefix | src/frkl/project_meta/core.py:441 | visiting a prefix of the names yields a prefix of the entries |
| BuildRules.TableTriplesPrefix | src/frkl/project_meta/core.py:439 | visiting a prefix of the groups yields a prefix of the entries |
| BuildRules.MergeFailsEarly | src/frkl/project_meta/core.py:443-445 | a duplicate while merging a prefix is the result of the whole merge |
| BuildRules.TableTriplesNext | src/frkl/project_meta/core.py:439-441 | one more group adds exactly that group's entries |
| BuildRules.MergeTableStep | src/frkl/project_meta/core.py:439-448 | merging the next group's entries continues the merge of the groups before it |
| BuildRules.MergeTableFails | src/frkl/project_meta/core.py:443-445 | a duplicate in one group fails the merge of the whole table |
| BuildRules.MergeEntryPoints | src/frkl/project_meta/core.py:439-448 | the nested loops merge the whole table in iteration order: exactly `MergeAll` over its entries |
| BuildRules.UnionMember | src/frkl/project_meta/core.py:432-466 | the pairs and the imports of several packages are those of some package |
| BuildRules.AddPackageSpec | src/frkl/project_meta/core.py:453-466 | adding a package succeeds iff its pairs are disjoint from those merged, and a failure is a duplicate. On success it adds its pairs, its hidden imports, its entry modules and its resources under its name, and keeps every earlier entry |
| BuildRules.PairwiseDisjointSnoc | src/frkl/project_meta/core.py:453-466 | the packages stay pairwise disjoint iff the new one is disjoint from the union of the earlier ones |
| BuildRules.NamesSnoc | src/frkl/project_meta/core.py:450-455 | one more package adds its name to the resource keys |
| BuildRules.AggregateAllSpec | src/frkl/project_meta/core.py:432-466 | aggregating well-formed packages succeeds iff no two share a (group, name), and a failure is a duplicate. On success the table is well formed with exactly the union of the pairs, the hidden imports are every package's imports and entry modules, and there is one resource entry per package name (`AggregateAll`) |
| BuildRules.AggregateAllKeepsEntries | src/frkl/project_meta/core.py:446-465 | a successful aggregate stores every entry point of every package unchanged |
| BuildRules.KeepsStep | src/frkl/project_meta/core.py:453-466 | the induction step of the previous row: one more package keeps all stored entries and stores its own |
| BuildRules.PackageProps | src/frkl/project_meta/core.py:432-454 | one build-property result per package, in order |
| BuildRules.PackagePropsConcat | src/frkl/project_meta/core.py:432-466 | the build properties of the main package followed by the siblings are the two lists concatenated |
| BuildRules.PackagesFoldStep | src/frkl/project_meta/core.py:453-466 | one more package: its build properties, then its merge; the first failure is kept |
| BuildRules.FoundPackages | src/frkl/project_meta/core.py:432-466 | the packages paired with their found build properties, in order |
| BuildRules.PackagesFoldAggregate | src/frkl/project_meta/core.py:432-466 | the scan succeeds only when every package's build properties were found, and is then exactly the aggregate of the found packages |
| BuildRules.PackagesFoldSpec | src/frkl/project_meta/core.py:432-466 | with every build property found, the scan succeeds iff no two packages share a (group, name), and a failure is a duplicate. On success the pairs, hidden imports and one resource key per package are those of all packages (`PackagesFold`) |
| BuildRules.PackagesFoldImports | src/frkl/project_meta/core.py:432-466 | a successful scan found every package, and its hidden imports hold each package's own hidden imports and the module of each entry point the package claims |
| BuildRules.ScanHiddenImports | src/frkl/project_meta/core.py:376-466 | when the scan of the main package and its siblings succeeds, every package's `<name>.defaults` and every entry-point module it claims is a hidden import of the result |
| Core.VersionsFromFresh | src/frkl/project_meta/core.py:257-259 | records holding no version report (`VersionsFrom`) exactly `FreshVersions`: the version of each importable module, in any order |
| Core.VersionsFromKeys | src/frkl/project_meta/core.py:257-259 | successful versions have exactly the records' module names as keys |
| Core.VersionsPrefixFails | src/frkl/project_meta/core.py:257-259 | the first failing `version` among the records is the failure of the whole comprehension |
| Core.FreshSiblingVersions | src/frkl/project_meta/core.py:257-259 | fresh sibling records, one per name, report the fresh versions of those names |
| Core.CollectVersions | src/frkl/project_meta/core.py:257-259 | the comprehension gives exactly the versions of the records before the call, and each record's version cache then holds its entry |
| Core.CollectVersionsFrom | src/frkl/project_meta/core.py:257-259 | from the `i`-th record on, the comprehension completes the versions of the records before it into the versions of all records |
| Core.VersionStep | src/frkl/project_meta/core.py:257-259 | the `i`-th record's `version` either fails the whole comprehension or adds its entry, and only its own cache changes |
| Core.NextName | src/frkl/project_meta/core.py:241-246 | one more record, for a module not yet visited, keeps the collected main modules distinct and equal to the modules visited, less the main module |
| Core.NewSibling | src/frkl/project_meta/core.py:245 | a record created for a discovered module starts with nothing computed |
| Core.CreateSiblings | src/frkl/project_meta/core.py:239-246 | one fresh, untouched record per discovered module except the main module, with distinct main modules |
| Core.AddPackageData | src/frkl/project_meta/core.py:437-466 | one package's resources, hidden imports and entries into the aggregate: exactly `AddPackage` |
| Core.PackagesPrefixFails | src/frkl/project_meta/core.py:432-466 | a failure among the first packages is the failure of the whole scan |
| Core.AddSibling | src/frkl/project_meta/core.py:454-466 | the next package's build properties found and merged continue the scan, and a failure there ends it |
| Core.SiblingAt | src/frkl/project_meta/core.py:453-454 | the `i`-th sibling of the loop is the package `start + i` of the scan, with its build properties from its metadata cache |
| Core.SiblingStep | src/frkl/project_meta/core.py:454-466 | the `i`-th sibling's build properties, found and merged, continue the scan by one package; a failure there is the failure of the whole scan, and only its own cache changes |
| Core.CollectSiblingPackages | src/frkl/project_meta/core.py:453-466 | from the `i`-th sibling on, the loop completes the scan of the packages before it into the scan of all packages, as their caches were before it |
| Core.ScanStart | src/frkl/project_meta/core.py:432-453 | the scan of the main package alone is the first step of the scan of the main package followed by the siblings |
| Core.ScanSiblings | src/frkl/project_meta/core.py:453-466 | the main package's aggregate continued with the siblings is the scan over the main package followed by the siblings |
| Core.ProjectMetadata.constructor | src/frkl/project_meta/core.py:41-109 | a new record keeps its main module and starts empty; in a bundle the metadata, version, build info and sibling versions come from `app.json` |
| Core.ProjectMetadata.Metadata | src/frkl/project_meta/core.py:111-174 | gives the cached metadata or `MetadataOf` of the state before, and caches a success |
| Core.ProjectMetadata.Version | src/frkl/project_meta/core.py:262-276 | gives the cached version or `VersionOf`, and caches it |
| Core.ProjectMetadata.RuntimeDetails | src/frkl/project_meta/core.py:188-226 | gives the cached runtime details or `RuntimeOf` from the executable name of the metadata, and caches both on success |
| Core.ProjectMetadata.OtherFrklProjects | src/frkl/project_meta/core.py:228-251 | cached siblings are returned unchanged. A bundle fails. Otherwise it makes fresh, well-formed records whose main modules are exactly the discovered modules except its own |
| Core.ProjectMetadata.SiblingNamesImportable | src/frkl/project_meta/core.py:241-246 | every sibling name is an importable module |
| Core.ProjectMetadata.SiblingVersions | src/frkl/project_meta/core.py:257-259 | the versions of the listed siblings as before the call, with exactly the siblings' main modules as keys, cached on success; the sibling list is kept |
| Core.ProjectMetadata.OtherFrklProjectVersions | src/frkl/project_meta/core.py:253-260 | gives the cached versions or the siblings' versions, and caches them; freshly computed versions have exactly the siblings' main modules as keys; the sibling list is not replaced once it exists |
| Core.ProjectMetadata.GetPkgDefaults | src/frkl/project_meta/core.py:278-302 | gives the cached defaults, the scan of the defaults module, or `{}` when it does not import; that last case is not cached |
| Core.ProjectMetadata.GetPkgMetadataValue | src/frkl/project_meta/core.py:304-317 | a metadata failure escapes. Otherwise `LookupValue`, except that a raise first reads the project name, whose failure escapes instead |
| Core.ProjectMetadata.GetResourcesFolder | src/frkl/project_meta/core.py:328-338 | the value of the first defaults entry ending in `RESOURCES_FOLDER`. Failing that, the failure of the metadata or of its project name, or else "no resources folder" |
| Core.ProjectMetadata.SetGlobal | src/frkl/project_meta/core.py:340-343 | the globals gain or replace exactly that key |
| Core.ProjectMetadata.GetGlobal | src/frkl/project_meta/core.py:345-348 | the stored value, or None |
| Core.ProjectMetadata.RegisterSingleton | src/frkl/project_meta/core.py:350-364 | succeeds exactly when `Register` does, leaving the registry as `Register` gives it, and unchanged on failure, with `differs` standing for `!=` |
| Core.ProjectMetadata.GetSingleton | src/frkl/project_meta/core.py:366-368 | the registered object, or None |
| Core.ProjectMetadata.MetadataAndRuntime | src/frkl/project_meta/core.py:487-493 | the metadata, then the runtime details, each as before the call |
| Core.ProjectMetadata.VersionsAndVersion | src/frkl/project_meta/core.py:495-498 | the siblings' versions, then the record's version, each as before the call |
| Core.ProjectMetadata.ToDict | src/frkl/project_meta/core.py:485-500 | the application details: metadata, runtime details, sibling versions and version, each as before the call, with the first failure escaping |
| Core.ProjectMetadata.MainPackage | src/frkl/project_meta/core.py:432-449 | the main package alone gives exactly the scan over the main package |
| Core.ProjectMetadata.ListOthers | src/frkl/project_meta/core.py:453 | the siblings to scan are those of `other_frkl_projects`, with their metadata caches before the scan; a new list has no cache set |
| Core.ProjectMetadata.ScanOthers | src/frkl/project_meta/core.py:453-466 | the siblings listed by `other_frkl_projects` continue the scan: a scan failure is the result, and a success is the scan over the main package and the siblings |
| Core.ProjectMetadata.ScanPackages | src/frkl/project_meta/core.py:432-466 | the main package, then every sibling in order, give exactly the scan over those packages and their caches before the call |
| Core.ProjectMetadata.CreatePackageData | src/frkl/project_meta/core.py:430-479 | a failing scan is the error. A success carries the scan's hidden imports, resources and merged entry points over the main package and all its siblings, and application details with the build time |
| Pyinstaller.GroupTriplesAll | src/frkl/project_meta/pyinstaller.py:32 | visiting a group's names gives one entry per name, in order |
| Pyinstaller.HookOfSnoc | src/frkl/project_meta/pyinstaller.py:32-39 | one more entry is one more pass of the inner loop |
| Pyinstaller.HookStepSpec | src/frkl/project_meta/pyinstaller.py:32-39 | one more entry keeps the hook data in step with the entries visited: groups, their lines in order, and the modules |
| Pyinstaller.HookOfSpec | src/frkl/project_meta/pyinstaller.py:27-39 | the hook dictionary stays well formed. A group is present iff it has a line, and then holds its lines in visiting order. The hidden imports are exactly the entries' modules (`HookOf`) |
| Pyinstaller.LinesOfConcat | src/frkl/project_meta/pyinstaller.py:30-39 | the lines of two runs of entries are concatenated |
| Pyinstaller.LinesOfGroup | src/frkl/project_meta/pyinstaller.py:32-39 | a group's entries give their lines to that group and none to another |
| Pyinstaller.LinesOfTable | src/frkl/project_meta/pyinstaller.py:30-39 | over distinct groups, a group receives exactly the lines of its own entries |
| Pyinstaller.HookImportsOfTable | src/frkl/project_meta/pyinstaller.py:35-36 | the hidden imports are exactly the modules of the table's entry points |
| Pyinstaller.GroupLinesOfTable | src/frkl/project_meta/pyinstaller.py:30-39 | in a well-formed table, a group's lines are one `name = module:attr` line per entry point, in the group's order; an absent group has none |
| Pyinstaller.HookGroupOfTable | src/frkl/project_meta/pyinstaller.py:30-39 | a group is in the hook dictionary iff it has an entry point. It then holds one `name = module:attr` line per entry point, in the group's order |
| Pyinstaller.AddGroupToHook | src/frkl/project_meta/pyinstaller.py:32-39 | the inner loop continues the hook data with the group's entries |
| Pyinstaller.EntryPointImportsHook | src/frkl/project_meta/pyinstaller.py:23-39 | the loops give exactly the hook data of the table's entries in iteration order |
| Pyinstaller.ScriptsConcat | src/frkl/project_meta/pyinstaller.py:154-162 | collecting two runs of entries is collecting the first, then the second |
| Pyinstaller.CandidatesConcat | src/frkl/project_meta/pyinstaller.py:154-168 | the candidates of two runs of entries are concatenated |
| Pyinstaller.ScriptsSnoc | src/frkl/project_meta/pyinstaller.py:156-162 | one more entry stores its details under its name iff it is a console script |
| Pyinstaller.OtherGroupIgnored | src/frkl/project_meta/pyinstaller.py:156-157 | a group other than `console_scripts` changes neither the scripts nor the candidates |
| Pyinstaller.ScriptsOfConsoleGroup | src/frkl/project_meta/pyinstaller.py:159-162 | storing a group's distinct names rebuilds that group in its order: no store replaces another |
| Pyinstaller.ConsoleGroupRebuilt | src/frkl/project_meta/pyinstaller.py:159-162 | collecting a well-formed `console_scripts` group alone gives back that group |
| Pyinstaller.StoreNewName | src/frkl/project_meta/pyinstaller.py:162 | storing a new name appends it and keeps the other entries |
| Pyinstaller.ScriptsOfTable | src/frkl/project_meta/pyinstaller.py:154-162 | over distinct groups, the scripts are the `console_scripts` group when it is visited, and empty otherwise (`ScriptsFrom`) |
| Pyinstaller.CandidatesFirst | src/frkl/project_meta/pyinstaller.py:163-168 | there are no candidates iff no entry qualifies; otherwise the first candidate is the first qualifying entry in visiting order (`CandidatesOf`) |
| Pyinstaller.SelectionFails | src/frkl/project_meta/pyinstaller.py:149-179 | fails with "no entry points" iff the table is empty, and with "no main entry point" iff it is not but no console script's module contains the main module; no other failure (`SelectionOf`) |
| Pyinstaller.SelectionScripts | src/frkl/project_meta/pyinstaller.py:154-162 | the scripts given to the template are the table's `console_scripts` group itself, names and order included (empty when absent) (`SelectionOf`) |
| Pyinstaller.SelectionMain | src/frkl/project_meta/pyinstaller.py:163-179 | the main entry point is the first console script of the table, in iteration order, whose module contains the main module (`SelectionOf`) |
| Pyinstaller.ConsoleStep | src/frkl/project_meta/pyinstaller.py:159-168 | the next name of the `console_scripts` group stores its details under its name, and adds them as a candidate iff its module contains the main module |
| Pyinstaller.AddConsoleGroup | src/frkl/project_meta/pyinstaller.py:159-168 | the inner loop continues the scripts and the candidates with the group's entries |
| Pyinstaller.CollectConsoleScripts | src/frkl/project_meta/pyinstaller.py:154-168 | the loops give exactly the scripts and the candidates of the table's entries in iteration order |
| Pyinstaller.CreateEntryPointSelection | src/frkl/project_meta/pyinstaller.py:143-179 | the method computes the selection whose failures, scripts and main entry point the three lemmas `SelectionFails`, `SelectionScripts` and `SelectionMain` state |

## Left out

- Reading files is left out: `app.json`, `_frkl.json` and the launcher template. Their parsed content is part of `Env`, or a constructor argument (`appFile`). A missing `app.json` in a bundle (core.py:100-101) is not modelled: the constructor receives the content or nothing.
- JSON parse errors and `KeyError`s on a malformed `app.json` are not modelled; a readable file is assumed to have the four keys.
- Rendering is left out: the Jinja template of the launcher, writing `cli.py` and the returned path (pyinstaller.py:170-186). The model stops at what is handed to the template.
- Pyinstaller.EntryPointImportsHook: returns `hook_ep_packages` and `hiddenimports` rather than the hook file text into which `hook_ep_packages` is formatted (pyinstaller.py:41-66). The text is a fixed string around that dictionary.
- Logging is left out, including the ambiguity warning of pyinstaller.py:164-167. The first candidate still wins, as in the source.
- `datetime.utcnow()` is the `buildTime` argument of `CreatePackageData`.
- `copy.deepcopy` in `to_dict` has no counterpart, because model values are immutable.
- The main package's resource key is `self.metadata["project_main_module"]` (core.py:451). The model uses the record's main module, which that entry holds for metadata the record normalised itself (`Valid`). Metadata read from a bundle's `app.json` is not checked for this.
- `hasattr(sys, "frozen")` is read once, when a record is created (`frozen`). The source reads it again in `runtime_details` and `other_frkl_projects`.
- Not part of this model, because they are outside the core: `get_app_dirs`, `module_path`, the `exe_name`/`project_name`/`project_slug` accessors (only as `ProjectEntry`), `create_analysis_args`, `get_datas`, the renderer class, the package `__init__` and the command line.
- Python runtime type checks are not modelled: `isinstance(project_main_module, ModuleType)` in `__init__`, and the attribute classification by `isinstance`, which is given as `AttrKind`.
- `set(...)` of a build property (core.py:383) is modelled for a list of strings, a string and a mapping; any other value, or a list with non-strings, is an error.
- utils.py:49 compares a module name with a set of module objects, so the `continue` is never taken. The set alone removes duplicates, and the model has no branch for it.
- `discover_installed_modules` returns module objects; the model returns their `__name__`s. `PROJECT_META_DEFAULT_IGNORE_MODULES` is the `defaultIgnore` field of `Env`, because frkl/project_meta/defaults.py is not part of this model.
- `other_frkl_projects` is a dictionary keyed by main module in the source. The model keeps a sequence of records with distinct main modules. The set of modules it comes from has no defined order, so `CreateSiblings` picks one.
- `dir()` order and the order of `entry_points()` are taken as given by `Env`.
- The sibling loop of core.py:453-466 and the comprehension of core.py:257-259 are written as recursion over the sibling position, not as `for` loops. Each call handles one record in place, in the same order.
- Core.ProjectMetadata.CreatePackageData: the application details are stated only through their build time; the rest is `ToDict`'s contract. Once the scan has succeeded, a `to_dict` failure is returned as the error, and the contract does not name which one.
- Core.ProjectMetadata.ScanOthers: when `other_frkl_projects` fails (only in a bundle) the error is returned, and the contract states only that it is not a success.
- A JSON number with a fraction is a `Float` holding a finite real; `nan`, the infinities and binary rounding are not modelled.
- Python's `!=` between two registered objects, which a class may redefine through `__eq__`, is the `differs` argument of `Register` and `RegisterSingleton`; `RegisterKeepsFirstByIdentity` states the default, identity.
