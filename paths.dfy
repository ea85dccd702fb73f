/**
 * The part of Node's `path` module the plugin relies on: splitting a
 * relative path into its directory and base name (`path.parse`) and
 * joining a directory with a file name (`path.join`).  Paths are
 * '/'-separated strings, relative to the project root.
 */
module Paths {
  import opened Wrappers

  type Path = string

  /** The index of the last '/' in `p`, if there is one. */
  function LastSlash(p: Path): (r: Option<nat>)
    ensures r.None? <==> forall k :: 0 <= k < |p| ==> p[k] != '/'
    ensures r.Some? ==> r.value < |p| && p[r.value] == '/'
    ensures r.Some? ==> forall k :: r.value < k < |p| ==> p[k] != '/'
    decreases |p|
  {
    if p == [] then None
    else if p[|p| - 1] == '/' then Some(|p| - 1)
    else LastSlash(p[..|p| - 1])
  }

  predicate HasNoSlash(s: string) {
    forall k :: 0 <= k < |s| ==> s[k] != '/'
  }

  /** `path.parse(p)` reduced to its `dir` and `base` fields. */
  datatype Parsed = Parsed(dir: Path, base: string)

  function Parse(p: Path): Parsed {
    match LastSlash(p)
    case None => Parsed("", p)
    case Some(i) => Parsed(p[..i], p[i + 1..])
  }

  /** The base name has no '/', and the directory, a '/' and the base give the path back. */
  lemma ParseParts(p: Path)
    ensures HasNoSlash(Parse(p).base)
    ensures HasNoSlash(p) ==> Parse(p) == Parsed("", p)
    ensures !HasNoSlash(p) ==> p == Parse(p).dir + "/" + Parse(p).base
  {
    match LastSlash(p)
    case None =>
    case Some(i) =>
      assert p == p[..i] + "/" + p[i + 1..];
  }

  /**
   * `path.join(dir, name)`: the directories "" and "." (the root itself)
   * contribute nothing, any other directory is followed by a '/'.
   */
  function Join(dir: Path, name: string): Path {
    if dir == "" || dir == "." then name else dir + "/" + name
  }

  /** The directory a path names the root by, "." and "" being the same. */
  function Canonical(dir: Path): Path {
    if dir == "." then "" else dir
  }

  /** The form in which a path is looked up: rebuilt from its own parse. */
  function Normalize(p: Path): Path {
    Join(Parse(p).dir, Parse(p).base)
  }

  /** Parsing a joined path gives back the name and the directory. */
  lemma ParseJoin(dir: Path, name: string)
    requires HasNoSlash(name)
    ensures Parse(Join(dir, name)) == Parsed(Canonical(dir), name)
  {
    if dir != "" && dir != "." {
      var p := dir + "/" + name;
      assert p[|dir|] == '/';
      assert forall k :: |dir| < k < |p| ==> p[k] == name[k - |dir| - 1];
      var i := LastSlash(p);
      assert i == Some(|dir|);
      assert p[..|dir|] == dir;
      assert p[|dir| + 1..] == name;
    }
  }

  /** A joined path is already in the form in which it is looked up. */
  lemma NormalizeJoin(dir: Path, name: string)
    requires HasNoSlash(name)
    ensures Normalize(Join(dir, name)) == Join(dir, name)
  {
    ParseJoin(dir, name);
  }

  /**
   * Re-joining the parts of a path gives the path back, unless the path
   * spells out the root as its directory ("./Podfile", "/Podfile").
   */
  lemma JoinParse(p: Path)
    requires HasNoSlash(p) || (Parse(p).dir != "" && Parse(p).dir != ".")
    ensures Normalize(p) == p
  {
    ParseParts(p);
  }
}
