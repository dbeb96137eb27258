/**
  The facts about the running Python process that the modelled code obtains
  through imports, `pkg_resources`, `importlib_metadata` and the file system.
  The model receives them as plain data. Whether the process is a frozen
  bundle (`hasattr(sys, "frozen")`) is fixed when a record is created and is
  kept by the record itself.
*/
module Environment {
  import opened Values

  /** What `isinstance` finds an attribute of a module to be. */
  datatype AttrKind = PlainValue | ModuleObject | ClassObject | CallableObject | CoroutineObject

  /** One attribute of a module as `getattr` returns it; `text` is `str(attr)`. */
  datatype Attr = Attr(kind: AttrKind, value: Value, text: string)

  /**
    A registered entry point: its group, its name, the module and attribute
    it points at, and `value`, the `module:attr` text it was registered with.
  */
  datatype EntryPoint = EntryPoint(group: string, name: string, moduleName: string, attr: string, value: string)

  /** The outcome of calling `<main>.get_version()`. */
  datatype VersionCall = Raises | Returns(result: Value)

  /** What importing one top-level module and its conventional children yields. */
  datatype PackageFacts = PackageFacts(
    markerImports: bool,                        // `import <m>._frkl` succeeds
    metadataFile: Option<map<string, Value>>,   // the parsed `_frkl.json` beside the marker, if readable
    markerAttributes: ODict<Attr>,              // `dir(<m>._frkl)` in order, with the attributes
    moduleFile: Option<string>,                 // `<m>.__file__`, None when `import <m>` fails
    getVersion: VersionCall,                    // `getattr(<m>, "get_version")()`
    defaultsModule: Option<ODict<Attr>>)        // `dir(<m>.defaults)`, None when it does not import

  datatype Env = Env(
    workingSet: seq<string>,             // keys of `pkg_resources.working_set`, in order
    defaultIgnore: seq<string>,          // PROJECT_META_DEFAULT_IGNORE_MODULES
    packages: map<string, PackageFacts>, // modules that import; absent ones do not
    entryPoints: seq<EntryPoint>,        // every registered entry point, grouped order
    existingPaths: set<string>)          // paths for which `os.path.exists` is true

  /** `import <name>` succeeds. */
  predicate Importable(env: Env, name: string) {
    name in env.packages && env.packages[name].moduleFile.Some?
  }

  /** Both `import <name>._frkl` and `import <name>` succeed. */
  predicate HasMarker(env: Env, name: string) {
    Importable(env, name) && env.packages[name].markerImports
  }
}
