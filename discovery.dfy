/**
  Discovery of installed packages that carry a `_frkl` marker submodule
  (`discover_installed_modules` in utils.py). Whether `<name>._frkl` and
  `<name>` import is the uninterpreted predicate `hasMarker`. A module is
  identified by its `__name__`; the returned set holds those names.
*/
module Discovery {
  import opened Values
  import opened Text

  /** The module name tried for a distribution key: `-` becomes `_`, nothing else changes. */
  function ModuleName(key: string): string {
    ReplaceChar(key, '-', '_')
  }

  /** The ignore list in force: the default one when the caller gave none. */
  function IgnoreList(ignoreModules: Option<seq<string>>, defaultIgnore: seq<string>): seq<string> {
    if ignoreModules.None? then defaultIgnore else ignoreModules.value
  }

  /** A key survives both filters: not ignored, and allowed when an allow list is given. */
  predicate Considered(key: string, ignore: seq<string>, onlyModules: Option<seq<string>>) {
    key !in ignore && (onlyModules.None? || key in onlyModules.value)
  }

  /** The admissible keys of `workingSet`, mapped to their module names. */
  ghost function Discovered(workingSet: seq<string>, ignoreModules: Option<seq<string>>,
                            onlyModules: Option<seq<string>>, defaultIgnore: seq<string>,
                            hasMarker: string -> bool): set<string>
  {
    set key | key in workingSet
                && Considered(key, IgnoreList(ignoreModules, defaultIgnore), onlyModules)
                && hasMarker(ModuleName(key))
              :: ModuleName(key)
  }

  lemma DiscoveredStep(workingSet: seq<string>, i: nat, ignoreModules: Option<seq<string>>,
                       onlyModules: Option<seq<string>>, defaultIgnore: seq<string>,
                       hasMarker: string -> bool)
    requires i < |workingSet|
    ensures var key := workingSet[i];
            var keep := Considered(key, IgnoreList(ignoreModules, defaultIgnore), onlyModules)
                        && hasMarker(ModuleName(key));
            Discovered(workingSet[..i + 1], ignoreModules, onlyModules, defaultIgnore, hasMarker)
            == Discovered(workingSet[..i], ignoreModules, onlyModules, defaultIgnore, hasMarker)
               + (if keep then {ModuleName(key)} else {})
  {
    assert workingSet[..i + 1] == workingSet[..i] + [workingSet[i]];
  }

  method DiscoverInstalledModules(workingSet: seq<string>, ignoreModules: Option<seq<string>>,
                                  onlyModules: Option<seq<string>>, defaultIgnore: seq<string>,
                                  hasMarker: string -> bool)
    returns (found: set<string>)
    ensures found == Discovered(workingSet, ignoreModules, onlyModules, defaultIgnore, hasMarker)
  {
    var ignore := if ignoreModules.None? then defaultIgnore else ignoreModules.value;
    found := {};
    for i := 0 to |workingSet|
      invariant found == Discovered(workingSet[..i], ignoreModules, onlyModules, defaultIgnore, hasMarker)
    {
      DiscoveredStep(workingSet, i, ignoreModules, onlyModules, defaultIgnore, hasMarker);
      var key := workingSet[i];
      if key in ignore {
        continue;
      }
      if onlyModules.Some? && key !in onlyModules.value {
        continue;
      }
      // An import failure of either module only skips the key: nothing escapes.
      var name := ReplaceChar(key, '-', '_');
      if hasMarker(name) {
        found := found + {name};
      }
    }
    assert workingSet[..|workingSet|] == workingSet;
  }

  /** Every discovered module comes from one admissible key, so an ignored key never contributes. */
  lemma DiscoveredHasWitness(workingSet: seq<string>, ignoreModules: Option<seq<string>>,
                             onlyModules: Option<seq<string>>, defaultIgnore: seq<string>,
                             hasMarker: string -> bool, m: string)
    requires m in Discovered(workingSet, ignoreModules, onlyModules, defaultIgnore, hasMarker)
    ensures hasMarker(m)
    ensures exists key :: key in workingSet && ModuleName(key) == m
                          && key !in IgnoreList(ignoreModules, defaultIgnore)
                          && (onlyModules.Some? ==> key in onlyModules.value)
  {
  }

  /** With no ignore list the default one is used. */
  lemma DefaultIgnoreList(workingSet: seq<string>, onlyModules: Option<seq<string>>,
                          defaultIgnore: seq<string>, hasMarker: string -> bool)
    ensures Discovered(workingSet, None, onlyModules, defaultIgnore, hasMarker)
            == Discovered(workingSet, Some(defaultIgnore), onlyModules, defaultIgnore, hasMarker)
  {
  }

  /** A key that is ignored and whose module name no other admissible key shares is never returned. */
  lemma IgnoredKeyNotReturned(workingSet: seq<string>, ignoreModules: Option<seq<string>>,
                              onlyModules: Option<seq<string>>, defaultIgnore: seq<string>,
                              hasMarker: string -> bool, key: string)
    requires key in IgnoreList(ignoreModules, defaultIgnore)
    requires forall other :: other in workingSet && ModuleName(other) == ModuleName(key) ==> other == key
    ensures ModuleName(key) !in Discovered(workingSet, ignoreModules, onlyModules, defaultIgnore, hasMarker)
  {
  }

  /** An allow list that is given bounds the result to the module names of its keys. */
  lemma AllowListBounds(workingSet: seq<string>, ignoreModules: Option<seq<string>>,
                        only: seq<string>, defaultIgnore: seq<string>, hasMarker: string -> bool)
    ensures forall m :: m in Discovered(workingSet, ignoreModules, Some(only), defaultIgnore, hasMarker)
                        ==> exists key :: key in only && ModuleName(key) == m
  {
  }

  /** Module names never contain a hyphen. */
  lemma DiscoveredHasNoHyphen(workingSet: seq<string>, ignoreModules: Option<seq<string>>,
                              onlyModules: Option<seq<string>>, defaultIgnore: seq<string>,
                              hasMarker: string -> bool, m: string)
    requires m in Discovered(workingSet, ignoreModules, onlyModules, defaultIgnore, hasMarker)
    ensures forall i :: 0 <= i < |m| ==> m[i] != '-'
  {
  }

  /** At most one module per installed package: keys that resolve to the same name collapse. */
  lemma {:induction false} DiscoveredAtMostOnePerPackage(workingSet: seq<string>, ignoreModules: Option<seq<string>>,
                                                         onlyModules: Option<seq<string>>, defaultIgnore: seq<string>,
                                                         hasMarker: string -> bool)
    ensures |Discovered(workingSet, ignoreModules, onlyModules, defaultIgnore, hasMarker)| <= |workingSet|
    decreases |workingSet|
  {
    if workingSet != [] {
      var n := |workingSet| - 1;
      DiscoveredAtMostOnePerPackage(workingSet[..n], ignoreModules, onlyModules, defaultIgnore, hasMarker);
      DiscoveredStep(workingSet, n, ignoreModules, onlyModules, defaultIgnore, hasMarker);
      assert workingSet[..n + 1] == workingSet;
    }
  }
}
