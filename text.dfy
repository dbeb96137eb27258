/** The string operations of Python that the modelled code uses. */
module Text {

  /** `s.startswith(prefix)` */
  predicate StartsWith(s: string, prefix: string) {
    |prefix| <= |s| && s[..|prefix|] == prefix
  }

  /** `s.endswith(suffix)` */
  predicate EndsWith(s: string, suffix: string) {
    |suffix| <= |s| && s[|s| - |suffix|..] == suffix
  }

  /** `part in s` for two strings. */
  predicate Contains(s: string, part: string)
    decreases |s|
  {
    StartsWith(s, part) || (s != [] && Contains(s[1..], part))
  }

  /** `s.replace(c, d)` for one-character `c` and `d`. */
  function ReplaceChar(s: string, c: char, d: char): (r: string)
    ensures |r| == |s|
    ensures forall i :: 0 <= i < |s| ==> r[i] == if s[i] == c then d else s[i]
  {
    if s == [] then [] else [if s[0] == c then d else s[0]] + ReplaceChar(s[1..], c, d)
  }

  /** `s.rfind(c)`: the last position of `c`, or -1. */
  function LastIndexOf(s: string, c: char): (r: int)
    ensures -1 <= r < |s|
    ensures r >= 0 ==> s[r] == c
    ensures forall i :: r < i < |s| ==> s[i] != c
  {
    if s == [] then -1
    else if s[|s| - 1] == c then |s| - 1
    else LastIndexOf(s[..|s| - 1], c)
  }

  /** The part of `s` before the first `c` (all of `s` when there is none). */
  function BeforeFirst(s: string, c: char): (r: string)
    ensures |r| <= |s| && r == s[..|r|]
    ensures forall i :: 0 <= i < |r| ==> r[i] != c
    ensures |r| < |s| ==> s[|r|] == c
  {
    if s == [] || s[0] == c then [] else [s[0]] + BeforeFirst(s[1..], c)
  }

  // ---------------------------------------------------------------------------
  // The two `os.path` functions used on module paths (POSIX flavour)

  predicate AllSlashes(s: string) {
    forall i :: 0 <= i < |s| ==> s[i] == '/'
  }

  function StripTrailingSlashes(s: string): (r: string)
    ensures |r| <= |s| && r == s[..|r|]
    ensures r == [] || r[|r| - 1] != '/'
  {
    if s != [] && s[|s| - 1] == '/' then StripTrailingSlashes(s[..|s| - 1]) else s
  }

  /** `os.path.dirname(p)`: the part before the last `/`, trailing slashes removed unless it is all slashes. */
  function PathDirname(p: string): string {
    var head := p[..LastIndexOf(p, '/') + 1];
    if head != [] && !AllSlashes(head) then StripTrailingSlashes(head) else head
  }

  /**
    The directory part is a prefix of the path: empty when the path has no
    `/`, and otherwise without a trailing `/` unless it is the root.
  */
  lemma PathDirnameSpec(p: string)
    ensures |PathDirname(p)| <= |p| && PathDirname(p) == p[..|PathDirname(p)|]
    ensures (forall i :: 0 <= i < |p| ==> p[i] != '/') <==> PathDirname(p) == []
    ensures PathDirname(p) != [] && !AllSlashes(PathDirname(p)) ==> PathDirname(p)[|PathDirname(p)| - 1] != '/'
  {
    var k := LastIndexOf(p, '/');
    var head := p[..k + 1];
    if head != [] && !AllSlashes(head) {
      var d := StripTrailingSlashes(head);
      assert d == head[..|d|];
      StrippedAllSlashes(head);
      assert p[k] == '/';
    } else if head != [] {
      assert p[k] == '/';
    }
  }

  /** Stripping trailing slashes leaves nothing only from a run of slashes. */
  lemma {:induction false} StrippedAllSlashes(s: string)
    ensures StripTrailingSlashes(s) == [] ==> AllSlashes(s)
    decreases |s|
  {
    if s != [] && s[|s| - 1] == '/' {
      StrippedAllSlashes(s[..|s| - 1]);
      assert forall i :: 0 <= i < |s| - 1 ==> s[i] == s[..|s| - 1][i];
    }
  }

  /** `os.path.join(a, b)` for a relative `b`. */
  function PathJoin(a: string, b: string): (r: string)
    ensures r == a + b || r == a + "/" + b
  {
    if a == [] || a[|a| - 1] == '/' then a + b else a + "/" + b
  }
}
