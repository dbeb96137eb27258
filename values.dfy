/**
  Values shared by the whole model: optional values, results carrying the
  errors the Python code raises, a JSON-like value type for the `Any` values
  of metadata dictionaries, and insertion-ordered dictionaries.
*/
module Values {

  datatype Option<T> = None | Some(value: T)

  /** The exceptions raised by the modelled code, one constructor per raise site. */
  datatype Error =
    | NotInitialized                          // core.py:118-121, empty main module
    | NoMarkerModule(moduleName: string)      // core.py:123-131, `<main>._frkl` does not import
    | MetadataFileUnreadable(moduleName: string) // core.py:133-135, `_frkl.json` missing or not JSON
    | ProjectNotMapping                       // core.py:155, `.get` on a non-dict `project`
    | NoProjectName                           // core.py:157-160
    | ProjectNameNotString                    // core.py:166-170, `.replace` on a non-string name
    | MissingKey(key: string)                 // a `KeyError` on a metadata dictionary
    | ImportFailed(moduleName: string)        // core.py:268, core.py:373, `import <main>` fails
    | FrozenApplication                       // core.py:234-237
    | NoMetadataValue(key: string)            // core.py:309-312
    | NoResourcesFolder                       // core.py:338
    | NotASubclass(cls: string)               // core.py:353-356
    | SingletonAlreadySet(cls: string)        // core.py:361-362
    | InvalidBuildProperties(prop: string)    // core.py:378-383, not a dict / not a list of strings
    | DuplicateEntryPoint(group: string, name: string)  // core.py:442-445, core.py:461-464
    | NoEntryPoints                           // pyinstaller.py:149-150
    | NoMainEntryPoint                        // pyinstaller.py:179, `main_entry_points[0]` on []
    | NoEntryPointAttribute(name: string)     // core.py:207, `cs.attrs[0]` on an empty tuple

  datatype Result<T> = Ok(value: T) | Err(error: Error)

  /**
    A Python value as it appears in metadata dictionaries (JSON values plus
    opaque objects). A JSON number with a fraction is a `Float`, taken as a
    finite real.
  */
  datatype Value =
    | Null
    | Bool(b: bool)
    | Int(i: int)
    | Float(r: real)
    | Str(s: string)
    | List(items: seq<Value>)
    | Dict(entries: map<string, Value>)
    | Object(id: nat)

  /** Python truthiness (`if x:`). */
  predicate Truthy(v: Value) {
    match v
    case Null => false
    case Bool(b) => b
    case Int(i) => i != 0
    case Float(r) => r != 0.0
    case Str(s) => s != []
    case List(xs) => xs != []
    case Dict(m) => m != map[]
    case Object(_) => true
  }

  /**
    A Python `dict` whose iteration order matters: `keys` is the insertion
    order, `items` the mapping.
  */
  datatype ODict<V> = ODict(keys: seq<string>, items: map<string, V>) {

    ghost predicate Valid() {
      && (forall i, j :: 0 <= i < j < |keys| ==> keys[i] != keys[j])
      && (forall k :: k in items <==> k in keys)
    }

    /** `d[k] = v`: a new key goes to the end, an existing key keeps its place. */
    function Put(k: string, v: V): (d: ODict<V>)
      ensures d.items == items[k := v]
      ensures Valid() ==> d.Valid()
      ensures k in items ==> d.keys == keys
      ensures k !in items ==> d.keys == keys + [k]
    {
      if k in items then ODict(keys, items[k := v]) else ODict(keys + [k], items[k := v])
    }
  }

  function EmptyDict<V>(): (d: ODict<V>)
    ensures d.Valid() && d.items == map[] && d.keys == []
  {
    ODict([], map[])
  }
}
