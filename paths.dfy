/** The parts of `std::path::Path` the core uses. A path is the sequence of
    its normal components (`a/b/c.mp3` is ["a", "b", "c.mp3"]); roots and
    `.`/`..` components are taken to be resolved already. */
module Paths {
  import opened Wrappers

  type Path = seq<string>

  /** `Path::file_name`: the last component. */
  function FileName(p: Path): (r: Option<string>)
    ensures r.Some? <==> |p| > 0
    ensures r.Some? ==> r.value == p[|p| - 1]
  {
    if |p| == 0 then None else Some(p[|p| - 1])
  }

  /** Index of the last '.' in a file name, if any. */
  function LastDot(name: string): (r: Option<nat>)
    ensures r.Some? ==>
              && r.value < |name| && name[r.value] == '.'
              && forall k :: r.value < k < |name| ==> name[k] != '.'
    ensures r.None? ==> forall k :: 0 <= k < |name| ==> name[k] != '.'
  {
    if |name| == 0 then None
    else if name[|name| - 1] == '.' then Some(|name| - 1)
    else LastDot(name[..|name| - 1])
  }

  /** Rust splits a file name at its last dot, except that a dot in first
      position (a hidden file such as ".mp3") and the name ".." give no
      extension. */
  predicate HasExtension(name: string) {
    name != ".." && LastDot(name).Some? && LastDot(name).value > 0
  }

  /** `Path::extension` of a one-component name. */
  function Extension(name: string): (r: Option<string>)
    ensures r.Some? <==> HasExtension(name)
    ensures r.Some? ==> forall k :: 0 <= k < |r.value| ==> r.value[k] != '.'
  {
    if HasExtension(name) then Some(name[LastDot(name).value + 1..]) else None
  }

  /** `Path::file_stem` of a one-component name (falling back to the name
      itself where Rust gives `None`, as the callers do). */
  function FileStem(name: string): (r: string)
    ensures HasExtension(name) ==> name == r + "." + Extension(name).value
    ensures !HasExtension(name) ==> r == name
  {
    if HasExtension(name) then name[..LastDot(name).value] else name
  }

  /** A name made of a stem, a dot and a dot-free extension splits back
      into those two parts. */
  lemma StemAndExtension(stem: string, ext: string)
    requires stem != [] && '.' !in ext && stem + "." + ext != ".."
    ensures FileStem(stem + "." + ext) == stem
    ensures Extension(stem + "." + ext) == Some(ext)
  {
    var name := stem + "." + ext;
    assert name[|stem|] == '.';
    forall k | |stem| < k < |name| ensures name[k] != '.' {
      assert name[k] == ext[k - |stem| - 1];
    }
    assert LastDot(name) == Some(|stem|);
    assert name[..|stem|] == stem && name[|stem| + 1..] == ext;
  }

  /** `Path::strip_prefix`: succeeds when `root`'s components begin `p`. */
  function StripPrefix(p: Path, root: Path): (r: Option<Path>)
    ensures r.Some? <==> |root| <= |p| && p[..|root|] == root
    ensures r.Some? ==> p == root + r.value
  {
    if |root| <= |p| && p[..|root|] == root then Some(p[|root|..]) else None
  }
}
