/**
 * Filesystem paths as sequences of components. The empty sequence is the
 * filesystem root, the one path that has neither a parent nor a file name.
 */
module Paths {
  import opened Wrappers

  type Path = seq<string>

  /** `Path::parent`: the path without its final component. */
  function Parent(p: Path): (r: Option<Path>)
    ensures r.None? <==> p == []
    ensures r.Some? ==> |r.value| + 1 == |p| && r.value <= p
  {
    if p == [] then None else Some(p[..|p| - 1])
  }

  /** `Path::file_name`: the final component, which together with the parent gives back the path. */
  function FileName(p: Path): (r: Option<string>)
    ensures r.Some? <==> Parent(p).Some?
    ensures r.Some? ==> Parent(p).value + [r.value] == p
  {
    if p == [] then None else Some(p[|p| - 1])
  }

  /** The directory `k` hops above `p` (`k == 0` is `p` itself). */
  function Ancestor(p: Path, k: nat): Path
    requires k <= |p|
  {
    p[..|p| - k]
  }
}
