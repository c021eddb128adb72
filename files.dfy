/** An abstract filesystem: the set of paths that exist, with the
    `os.path` and `shutil` operations the runner and the sandbox use. */
module Files {
  import opened PyStrings

  /** `tempfile.gettempdir()` on the hosts the evaluator targets. */
  const TempDir: string := "/tmp"

  /** `str.rfind(c)`: the last index of `c` in `s`, or -1. */
  function RFind(s: string, c: char): (i: int)
    ensures -1 <= i < |s|
    ensures i >= 0 ==> s[i] == c
    ensures forall j :: i < j < |s| ==> s[j] != c
  {
    if s == [] then -1
    else if s[|s| - 1] == c then |s| - 1
    else RFind(s[..|s| - 1], c)
  }

  /** `s.rstrip(c)` for one character. */
  function RStripChar(s: string, c: char): (r: string)
    ensures |r| <= |s| && r == s[..|r|]
    ensures r == [] || r[|r| - 1] != c
    ensures forall i :: |r| <= i < |s| ==> s[i] == c
  {
    if s != [] && s[|s| - 1] == c then RStripChar(s[..|s| - 1], c) else s
  }

  /** `posixpath.join(a, b)`: an absolute `b` replaces `a`; otherwise one `/`
      separates them unless `a` is empty or already ends with one. */
  function PathJoin(a: string, b: string): string
  {
    if b != [] && b[0] == '/' then b
    else if a == [] || a[|a| - 1] == '/' then a + b
    else a + "/" + b
  }

  /** `posixpath.dirname(p)`: everything up to the last `/`, with trailing
      slashes removed unless the head is made of slashes only. */
  function Dirname(p: string): string
  {
    var head := p[..RFind(p, '/') + 1];
    if head != [] && RStripChar(head, '/') != [] then RStripChar(head, '/') else head
  }

  /** `posixpath.basename(p)`: everything after the last `/`. */
  function Basename(p: string): (b: string)
    ensures '/' !in b
  {
    var i := RFind(p, '/') + 1;
    assert forall j :: 0 <= j < |p[i..]| ==> p[i..][j] == p[i + j];
    p[i..]
  }

  /** The prefix every path strictly inside `root` starts with. */
  function DirPrefix(root: string): string
  {
    if root != [] && root[|root| - 1] == '/' then root else root + "/"
  }

  /** `p` is `root` or lies somewhere below it. */
  predicate Within(p: string, root: string)
  {
    p == root || StartsWith(p, DirPrefix(root))
  }

  /** The directories `os.makedirs(p)` makes sure exist: `p` and every
      ancestor of it named by a prefix ending before a `/`. */
  function Ancestry(p: string): (dirs: set<string>)
    ensures p != [] ==> p in dirs
    ensures forall d :: d in dirs ==> d != [] && |d| <= |p| && d == p[..|d|]
  {
    var dirs := set i | 0 < i <= |p| && (i == |p| || p[i] == '/') :: p[..i];
    assert p != [] ==> p[..|p|] == p && p[..|p|] in dirs;
    assert forall i :: 0 < i <= |p| ==> |p[..i]| == i;
    dirs
  }

  /** A path relative to a non-empty root lands strictly inside it. */
  lemma JoinIsWithin(root: string, name: string)
    requires root != [] && name != [] && name[0] != '/'
    ensures Within(PathJoin(root, name), root) && PathJoin(root, name) != root
  {
    var p := PathJoin(root, name);
    assert p[..|DirPrefix(root)|] == DirPrefix(root);
  }

  /** A library at the absolute path `"/" + dir + "/" + file`, copied into
      `join(sandbox, dirname(lib)[1:])`, lands at `sandbox + lib`: the sandbox
      mirrors the library's own location. */
  lemma MirroredLocation(sandbox: string, dir: string, file: string)
    requires sandbox != [] && sandbox[|sandbox| - 1] != '/'
    requires dir != [] && dir[0] != '/' && dir[|dir| - 1] != '/'
    requires file != [] && '/' !in file
    ensures var lib := "/" + dir + "/" + file;
      PathJoin(PathJoin(sandbox, SliceFrom(Dirname(lib), 1)), Basename(lib)) == sandbox + lib
  {
    var lib := "/" + dir + "/" + file;
    LibraryDirname(dir, file);
    LibraryBasename(dir, file);
    assert SliceFrom("/" + dir, 1) == dir;
    assert PathJoin(sandbox, dir) == sandbox + "/" + dir;
  }

  /** The directory part of `"/" + dir + "/" + file` is `"/" + dir`. */
  lemma LibraryDirname(dir: string, file: string)
    requires dir != [] && dir[|dir| - 1] != '/'
    requires '/' !in file
    ensures Dirname("/" + dir + "/" + file) == "/" + dir
  {
    var lib := "/" + dir + "/" + file;
    var head := "/" + dir + "/";
    assert lib == head + file;
    RFindLast(head, file, '/');
    assert lib[..|head|] == head;
    StripOneChar("/" + dir, '/');
  }

  /** The file part of `"/" + dir + "/" + file` is `file`. */
  lemma LibraryBasename(dir: string, file: string)
    requires '/' !in file
    ensures Basename("/" + dir + "/" + file) == file
  {
    var lib := "/" + dir + "/" + file;
    var head := "/" + dir + "/";
    assert lib == head + file;
    RFindLast(head, file, '/');
    assert lib[|head|..] == file;
  }

  /** The last `c` of `head + tail`, when `head` ends with `c` and `tail`
      holds none, is the last character of `head`. */
  lemma {:induction false} RFindLast(head: string, tail: string, c: char)
    requires head != [] && head[|head| - 1] == c && c !in tail
    ensures RFind(head + tail, c) == |head| - 1
    decreases |tail|
  {
    var s := head + tail;
    if tail == [] {
      assert s == head;
    } else {
      assert s[|s| - 1] == tail[|tail| - 1];
      assert s[..|s| - 1] == head + tail[..|tail| - 1];
      RFindLast(head, tail[..|tail| - 1], c);
    }
  }

  /** Stripping `c` from `x + [c]` gives back `x` when `x` does not end with `c`. */
  lemma {:induction false} StripOneChar(x: string, c: char)
    requires x != [] && x[|x| - 1] != c
    ensures RStripChar(x + [c], c) == x
  {
    assert (x + [c])[..|x|] == x;
  }

  /** The host's files, as the set of paths that exist. */
  class FileSystem {
    var paths: set<string>

    constructor (initial: set<string>)
      ensures paths == initial
    {
      paths := initial;
    }

    /** `os.path.exists(p)`. */
    predicate Exists(p: string)
      reads this
    {
      p in paths
    }

    /** `os.makedirs(p, exist_ok=True)`. */
    method MakeDirs(p: string)
      modifies this
      ensures paths == old(paths) + Ancestry(p)
    {
      paths := paths + Ancestry(p);
    }

    /** `shutil.copy(src, dst_dir)` into an existing directory: the copy is
      `dst_dir/basename(src)`; a missing source raises, which is `ok == false`. */
    method Copy(src: string, dstDir: string) returns (ok: bool)
      modifies this
      ensures ok <==> src in old(paths)
      ensures paths == if ok then old(paths) + {PathJoin(dstDir, Basename(src))} else old(paths)
    {
      ok := src in paths;
      if ok {
        paths := paths + {PathJoin(dstDir, Basename(src))};
      }
    }

    /** `os.remove(p)`. */
    method Remove(p: string)
      modifies this
      ensures paths == old(paths) - {p}
    {
      paths := paths - {p};
    }

    /** `shutil.rmtree(root)`: `root` and everything below it disappear. */
    method RemoveTree(root: string)
      modifies this
      ensures paths == set q | q in old(paths) && !Within(q, root)
      ensures forall q :: q in paths ==> !Within(q, root)
    {
      paths := set q | q in paths && !Within(q, root);
    }

    /** The length of the longest existing path. */
    method LongestPath() returns (m: nat)
      ensures forall q :: q in paths ==> |q| <= m
      ensures paths != {} ==> exists q :: q in paths && |q| == m
    {
      m := 0;
      var rest := paths;
      while rest != {}
        invariant rest <= paths
        invariant forall q :: q in paths - rest ==> |q| <= m
        invariant paths - rest != {} ==> exists q :: q in paths - rest && |q| == m
        invariant paths - rest == {} ==> m == 0
        decreases rest
      {
        var q :| q in rest;
        if |q| > m {
          m := |q|;
        }
        rest := rest - {q};
      }
    }

    /** `tempfile.mkdtemp(prefix=prefix, dir=dir)` (and the file made by
      `NamedTemporaryFile(delete=False)`): a new entry named `prefix` plus a
      tag inside `dir` that did not exist before. The tag is random in the
      source; here it is a run of `x` longer than any existing path. */
    method CreateTemp(dir: string, prefix: string) returns (p: string)
      requires dir != [] && (prefix == [] || prefix[0] != '/')
      modifies this
      ensures p !in old(paths)
      ensures paths == old(paths) + {p}
      ensures Within(p, dir) && p != dir
      ensures StartsWith(p, DirPrefix(dir) + prefix)
    {
      var m := LongestPath();
      var name := prefix + seq(m + 1, _ => 'x');
      p := PathJoin(dir, name);
      JoinIsWithin(dir, name);
      assert p[..|DirPrefix(dir) + prefix|] == DirPrefix(dir) + prefix;
      paths := paths + {p};
    }
  }
}
