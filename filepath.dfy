/**
 * The parts of Go's `path/filepath` package that the core relies on, for a
 * system whose path separator is `/`.
 */
module FilePath {
  import opened GoStrings

  function TrimTrailingSlashes(p: string): (r: string)
    ensures r == [] || r[|r| - 1] != '/'
  {
    if p != [] && p[|p| - 1] == '/' then TrimTrailingSlashes(p[..|p| - 1]) else p
  }

  /** The text after the last `/` of `p`. */
  function LastElement(p: string): (r: string)
    ensures '/' !in r
    ensures p != [] && p[|p| - 1] != '/' ==> r != []
  {
    if p == [] || p[|p| - 1] == '/' then [] else LastElement(p[..|p| - 1]) + [p[|p| - 1]]
  }

  /**
   * `filepath.Base`: the last element of the path, trailing slashes ignored;
   * "." for the empty path and "/" for a path of slashes only.
   */
  function Base(path: string): (r: string)
    ensures r != []
    ensures r == "/" || '/' !in r
  {
    if path == [] then "."
    else
      var t := TrimTrailingSlashes(path);
      if t == [] then "/" else LastElement(t)
  }

  /** The base of a path is the element after its last separator. */
  lemma {:induction false} BaseOfChild(dir: string, name: string)
    requires name != [] && '/' !in name
    ensures Base(dir + "/" + name) == name
  {
    var p := dir + "/" + name;
    assert p[|p| - 1] == name[|name| - 1];
    LastElementOfChild(dir, name);
  }

  lemma {:induction false} LastElementOfChild(dir: string, name: string)
    requires '/' !in name
    ensures LastElement(dir + "/" + name) == name
    decreases |name|
  {
    var p := dir + "/" + name;
    if name == [] {
      assert p[|p| - 1] == '/';
    } else {
      assert p[..|p| - 1] == dir + "/" + name[..|name| - 1];
      LastElementOfChild(dir, name[..|name| - 1]);
      assert name == name[..|name| - 1] + [name[|name| - 1]];
    }
  }

  /**
   * The elements kept by `Clean`, scanning `segs` left to right: empty and "."
   * elements vanish, ".." removes the element before it, and a ".." with
   * nothing to remove is dropped at the root and kept otherwise.
   */
  function Resolve(segs: seq<string>, rooted: bool): (r: seq<string>)
    ensures forall i :: 0 <= i < |r| ==> r[i] != "" && r[i] != "."
    ensures rooted ==> forall i :: 0 <= i < |r| ==> r[i] != ".."
  {
    if segs == [] then []
    else
      var kept := Resolve(segs[..|segs| - 1], rooted);
      var seg := segs[|segs| - 1];
      if seg == "" || seg == "." then kept
      else if seg == ".." then
        if kept != [] && kept[|kept| - 1] != ".." then kept[..|kept| - 1]
        else if rooted then kept
        else kept + [".."]
      else kept + [seg]
  }

  /** `filepath.Clean`: the shortest path equivalent to `path` by lexical rules. */
  function Clean(path: string): string {
    if path == [] then "."
    else
      var rooted := path[0] == '/';
      var joined := (if rooted then "/" else "") + Join(Resolve(Split(path, '/'), rooted), '/');
      if joined == [] then "." else joined
  }

  /** `filepath.Join` of two elements. */
  function JoinPath(a: string, b: string): string {
    if a != [] then Clean(a + "/" + b)
    else if b != [] then Clean(b)
    else ""
  }

  /** A path every element of which is a plain name. */
  ghost predicate Plain(p: string) {
    forall i :: 0 <= i < |Split(p, '/')| ==> var seg := Split(p, '/')[i]; seg != "" && seg != "." && seg != ".."
  }

  lemma {:induction false} ResolvePlain(segs: seq<string>, rooted: bool)
    requires forall i :: 0 <= i < |segs| ==> segs[i] != "" && segs[i] != "." && segs[i] != ".."
    ensures Resolve(segs, rooted) == segs
  {
    if segs != [] {
      ResolvePlain(segs[..|segs| - 1], rooted);
      assert segs[..|segs| - 1] + [segs[|segs| - 1]] == segs;
    }
  }

  /** Joining two plain paths only puts a separator between them. */
  lemma JoinPlain(a: string, b: string)
    requires Plain(a) && Plain(b)
    ensures JoinPath(a, b) == a + "/" + b
  {
    var p := a + "/" + b;
    SplitAround(a, b, '/');
    var segs := Split(p, '/');
    assert segs == Split(a, '/') + Split(b, '/');
    assert Split(a, '/')[0] != "";
    assert a != [] by { assert Split([], '/') == [""]; }
    assert forall i :: 0 <= i < |segs| ==> segs[i] != "" && segs[i] != "." && segs[i] != ".." by {
      forall i | 0 <= i < |segs| ensures segs[i] != "" && segs[i] != "." && segs[i] != ".." {
        if i < |Split(a, '/')| {
          assert segs[i] == Split(a, '/')[i];
        } else {
          assert segs[i] == Split(b, '/')[i - |Split(a, '/')|];
        }
      }
    }
    assert p[0] == a[0];
    ResolvePlain(segs, false);
    JoinSplit(p, '/');
  }
}
