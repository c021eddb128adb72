/** The chroot sandbox: a base directory holding one directory per
    environment, laid out like a small root filesystem and stocked with the
    interpreter or compiler and the libraries it links against; commands run
    under `chroot` with a 5-second timeout, and cleanup removes the trees. */
module Sandbox {
  import opened Wrappers
  import opened PyStrings
  import opened Process
  import opened Files

  const SandboxPrefix: string := "coursero_sandbox_"
  /** `tempfile.mkdtemp`'s default name prefix. */
  const TempPrefix: string := "tmp"
  const PythonBinary: string := "/usr/bin/python3"
  const GccBinary: string := "/usr/bin/gcc"
  const LibcPaths: seq<string> := ["/lib/libc.so.6", "/lib64/libc.so.6"]
  const ChrootTimeout: int := 5
  const Arrow: string := "=>"
  const NotFound: string := "not found"
  /** What a `shutil.copy` of a missing file raises, before the path. */
  const MissingFilePrefix: string := "No such file or directory: "

  /** The directories made inside every new environment. */
  function LayoutDirs(sandbox: string): (dirs: seq<string>)
    ensures |dirs| == 6
  {
    [ PathJoin(sandbox, "bin"), PathJoin(sandbox, "lib"), PathJoin(sandbox, "lib64"),
      PathJoin(PathJoin(sandbox, "usr"), "bin"), PathJoin(PathJoin(sandbox, "usr"), "lib"),
      PathJoin(sandbox, "tmp") ]
  }

  /** The paths that exist once the environment directory and its layout are made. */
  function Laid(paths: set<string>, sandbox: string): set<string>
  {
    var d := LayoutDirs(sandbox);
    paths + {sandbox} + Ancestry(d[0]) + Ancestry(d[1]) + Ancestry(d[2])
      + Ancestry(d[3]) + Ancestry(d[4]) + Ancestry(d[5])
  }

  /** The directory the interpreter and the compiler are copied into. */
  function ToolDir(sandbox: string): string
  {
    PathJoin(sandbox, "usr/bin/")
  }

  /** Where a library at `lib` is copied: the sandbox joined with the
      library's directory minus its first character. */
  function LibraryDir(sandbox: string, lib: string): string
  {
    PathJoin(sandbox, SliceFrom(Dirname(lib), 1))
  }

  /** One library copy: when `lib` exists, its destination directory is made
      and the copy appears in it; otherwise nothing changes. */
  function CopyLibrary(paths: set<string>, sandbox: string, lib: string): (after: set<string>)
    ensures paths <= after
  {
    if lib in paths then
      paths + Ancestry(LibraryDir(sandbox, lib)) + {PathJoin(LibraryDir(sandbox, lib), Basename(lib))}
    else paths
  }

  /** The libraries copied in order. */
  function CopyLibraries(paths: set<string>, sandbox: string, libs: seq<string>): set<string>
  {
    if libs == [] then paths
    else CopyLibrary(CopyLibraries(paths, sandbox, libs[..|libs| - 1]), sandbox, libs[|libs| - 1])
  }

  /** The library path an `ldd` output line names: a line containing `=>`
      and not `not found` yields the text after the first `=>` (up to any
      further one), stripped, up to its first space. */
  function LddLibPath(line: string): (lib: Option<string>)
    ensures lib.Some? <==> Contains(line, Arrow) && !Contains(line, NotFound)
    ensures lib.Some? ==> ' ' !in lib.value && (lib.value == [] || !IsSpace(lib.value[0]))
  {
    if Contains(line, Arrow) && !Contains(line, NotFound) then
      var field := Strip(SecondField(line, Arrow));
      var path := Split(field, ' ')[0];
      assert field != [] && ' ' in field ==> path == field[..IndexOf(field, ' ')];
      Some(path)
    else None
  }

  /** One `ldd` line: a non-empty library path that exists is copied. */
  function CopyLine(paths: set<string>, sandbox: string, line: string): set<string>
  {
    match LddLibPath(line)
    case Some(lib) => if lib != [] then CopyLibrary(paths, sandbox, lib) else paths
    case None => paths
  }

  /** The `ldd` lines processed in order. */
  function CopyLddLines(paths: set<string>, sandbox: string, lines: seq<string>): set<string>
  {
    if lines == [] then paths
    else CopyLine(CopyLddLines(paths, sandbox, lines[..|lines| - 1]), sandbox, lines[|lines| - 1])
  }

  /** `execute_in_sandbox`: `chroot sandbox cmd...` with a 5-second timeout;
      a completed run passes through, a timeout and a failed launch become the
      sentinels -1 and -2 with an empty stdout. */
  function ExecuteInSandbox(sandboxDir: string, cmd: seq<string>, launch: (seq<string>, int) -> Outcome): (e: Execution)
    ensures var o := launch(["chroot", sandboxDir] + cmd, ChrootTimeout);
      && (o.Completed? ==> e == Execution(o.stdout, o.stderr, o.returnCode))
      && (o.TimedOut? ==> e == Execution("", TimeoutMessage, -1))
      && (o.Raised? ==> e == Execution("", LaunchErrorPrefix + o.message, -2))
  {
    ToExecution(launch(["chroot", sandboxDir] + cmd, ChrootTimeout))
  }

  /** The paths left by `cleanup(sandbox_dir)`, with `""` standing for `None`:
      the environment's tree goes when it exists, then the whole base
      directory's tree when it exists and is not the environment itself. */
  function CleanedPaths(paths: set<string>, baseDir: string, sandboxDir: string): (left: set<string>)
    ensures left <= paths
    ensures forall q :: q in paths && !Within(q, sandboxDir) && !Within(q, baseDir) ==> q in left
    ensures sandboxDir != [] && sandboxDir in paths ==> forall q :: q in left ==> !Within(q, sandboxDir)
    ensures baseDir != [] && baseDir in paths && sandboxDir != baseDir
            && (sandboxDir == [] || !Within(baseDir, sandboxDir)) ==>
      forall q :: q in left ==> !Within(q, baseDir)
  {
    var first := if sandboxDir != [] && sandboxDir in paths
                 then set q | q in paths && !Within(q, sandboxDir) else paths;
    if baseDir != [] && baseDir in first && sandboxDir != baseDir
    then set q | q in first && !Within(q, baseDir) else first
  }

  /** A `Sandbox` over the host filesystem `fs`. */
  class Sandbox {
    const fs: FileSystem
    const baseDir: string

    predicate Valid() {
      baseDir != []
    }

    /** `Sandbox(base_dir)`: an empty or missing base directory is replaced by
        a fresh `coursero_sandbox_…` directory under the temporary directory. */
    constructor (fs: FileSystem, baseDir: string)
      modifies fs
      ensures this.fs == fs && Valid()
      ensures baseDir != [] ==> this.baseDir == baseDir && fs.paths == old(fs.paths)
      ensures baseDir == [] ==>
        && this.baseDir !in old(fs.paths)
        && fs.paths == old(fs.paths) + {this.baseDir}
        && Within(this.baseDir, TempDir)
        && StartsWith(this.baseDir, DirPrefix(TempDir) + SandboxPrefix)
    {
      var b := baseDir;
      if b == [] {
        b := fs.CreateTemp(TempDir, SandboxPrefix);
      }
      this.fs := fs;
      this.baseDir := b;
    }

    /** `create_sandbox_environment(language)`. A fresh directory inside the
        base directory gets the six layout directories; for `python` the
        interpreter is copied, then every existing library `ldd` names; for
        `c` the compiler, then each libc that exists; any other language gets
        the bare layout. A missing base directory (`mkdtemp` raises before
        anything is made), a missing interpreter or compiler, or a failing
        `ldd` raises (`Failure`) and leaves what was made so far. */
    method CreateSandboxEnvironment(language: string, ldd: Result<string, string>)
      returns (result: Result<string, string>, ghost sandbox: string)
      requires Valid()
      modifies fs
      ensures baseDir !in old(fs.paths) ==>
        result == Failure(MissingFilePrefix + baseDir) && fs.paths == old(fs.paths)
      ensures baseDir in old(fs.paths) ==>
        && sandbox !in old(fs.paths)
        && Within(sandbox, baseDir) && sandbox != baseDir
        && StartsWith(sandbox, DirPrefix(baseDir) + TempPrefix)
      ensures result.Success? ==> result.value == sandbox
      ensures result.Success? ==>
        forall k :: 0 <= k < |LayoutDirs(sandbox)| ==> LayoutDirs(sandbox)[k] in fs.paths
      ensures baseDir in old(fs.paths) ==>
        var laid := Laid(old(fs.paths), sandbox);
        if language == "python" then
          if PythonBinary !in laid then
            result == Failure(MissingFilePrefix + PythonBinary) && fs.paths == laid
          else
            var copied := laid + {PathJoin(ToolDir(sandbox), Basename(PythonBinary))};
            match ldd
            case Failure(e) => result == Failure(e) && fs.paths == copied
            case Success(out) =>
              result == Success(sandbox) && fs.paths == CopyLddLines(copied, sandbox, SplitLines(out))
        else if language == "c" then
          if GccBinary !in laid then
            result == Failure(MissingFilePrefix + GccBinary) && fs.paths == laid
          else
            var copied := laid + {PathJoin(ToolDir(sandbox), Basename(GccBinary))};
            result == Success(sandbox) && fs.paths == CopyLibraries(copied, sandbox, LibcPaths)
        else
          result == Success(sandbox) && fs.paths == laid
    {
      if !fs.Exists(baseDir) {
        return Failure(MissingFilePrefix + baseDir), baseDir;
      }
      var dir := fs.CreateTemp(baseDir, TempPrefix);
      sandbox := dir;
      ghost var start := fs.paths;
      var layout := LayoutDirs(dir);
      fs.MakeDirs(layout[0]);
      fs.MakeDirs(layout[1]);
      fs.MakeDirs(layout[2]);
      fs.MakeDirs(layout[3]);
      fs.MakeDirs(layout[4]);
      fs.MakeDirs(layout[5]);
      assert fs.paths == Laid(old(fs.paths), dir);
      LayoutExists(old(fs.paths), dir);
      if language == "python" {
        result := CopyPythonEnvironment(dir, ldd);
      } else if language == "c" {
        result := CopyCEnvironment(dir);
      } else {
        result := Success(dir);
      }
    }

    /** `_copy_python_environment`: the interpreter, then the libraries of
        the `ldd` report, line by line. */
    method CopyPythonEnvironment(sandboxDir: string, ldd: Result<string, string>)
      returns (result: Result<string, string>)
      modifies fs
      ensures PythonBinary !in old(fs.paths) ==>
        result == Failure(MissingFilePrefix + PythonBinary) && fs.paths == old(fs.paths)
      ensures PythonBinary in old(fs.paths) ==>
        var copied := old(fs.paths) + {PathJoin(ToolDir(sandboxDir), Basename(PythonBinary))};
        match ldd
        case Failure(e) => result == Failure(e) && fs.paths == copied
        case Success(out) =>
          result == Success(sandboxDir) && fs.paths == CopyLddLines(copied, sandboxDir, SplitLines(out))
      ensures old(fs.paths) <= fs.paths
    {
      var ok := fs.Copy(PythonBinary, ToolDir(sandboxDir));
      if !ok {
        return Failure(MissingFilePrefix + PythonBinary);
      }
      if ldd.Failure? {
        return Failure(ldd.error);
      }
      var lines := SplitLines(ldd.value);
      ghost var copied := fs.paths;
      var i := 0;
      while i < |lines|
        invariant 0 <= i <= |lines|
        invariant fs.paths == CopyLddLines(copied, sandboxDir, lines[..i])
      {
        assert lines[..i + 1][..i] == lines[..i];
        CopyLddLine(sandboxDir, lines[i]);
        i := i + 1;
      }
      assert lines[..i] == lines;
      CopiesOnlyAdd(copied, sandboxDir, lines);
      result := Success(sandboxDir);
    }

    /** One pass of the `ldd` loop: a line naming an existing library copies it. */
    method CopyLddLine(sandboxDir: string, line: string)
      modifies fs
      ensures fs.paths == CopyLine(old(fs.paths), sandboxDir, line)
    {
      match LddLibPath(line) {
        case Some(lib) =>
          if lib != [] && fs.Exists(lib) {
            var destDir := LibraryDir(sandboxDir, lib);
            fs.MakeDirs(destDir);
            var _ := fs.Copy(lib, destDir);
          }
        case None =>
      }
    }

    /** One pass of the libc loop: a library that exists is copied. */
    method CopyLibc(sandboxDir: string, lib: string)
      modifies fs
      ensures fs.paths == CopyLibrary(old(fs.paths), sandboxDir, lib)
    {
      if fs.Exists(lib) {
        var destDir := LibraryDir(sandboxDir, lib);
        fs.MakeDirs(destDir);
        var _ := fs.Copy(lib, destDir);
      }
    }

    /** `_copy_c_environment`: the compiler, then each libc that exists. */
    method CopyCEnvironment(sandboxDir: string) returns (result: Result<string, string>)
      modifies fs
      ensures GccBinary !in old(fs.paths) ==>
        result == Failure(MissingFilePrefix + GccBinary) && fs.paths == old(fs.paths)
      ensures GccBinary in old(fs.paths) ==>
        && result == Success(sandboxDir)
        && fs.paths == CopyLibraries(old(fs.paths) + {PathJoin(ToolDir(sandboxDir), Basename(GccBinary))},
                                     sandboxDir, LibcPaths)
      ensures old(fs.paths) <= fs.paths
    {
      var ok := fs.Copy(GccBinary, ToolDir(sandboxDir));
      if !ok {
        return Failure(MissingFilePrefix + GccBinary);
      }
      ghost var copied := fs.paths;
      var libs := LibcPaths;
      var i := 0;
      while i < |libs|
        invariant 0 <= i <= |libs|
        invariant fs.paths == CopyLibraries(copied, sandboxDir, libs[..i])
      {
        assert libs[..i + 1][..i] == libs[..i] && libs[..i + 1][i] == libs[i];
        CopyLibc(sandboxDir, libs[i]);
        i := i + 1;
      }
      assert libs[..i] == libs;
      LibrariesOnlyAdd(copied, sandboxDir, libs);
      result := Success(sandboxDir);
    }

    /** `cleanup(sandbox_dir)`, with `""` standing for `None`. */
    method Cleanup(sandboxDir: string)
      requires Valid()
      modifies fs
      ensures fs.paths == CleanedPaths(old(fs.paths), baseDir, sandboxDir)
    {
      if sandboxDir != [] && fs.Exists(sandboxDir) {
        fs.RemoveTree(sandboxDir);
      }
      if baseDir != [] && fs.Exists(baseDir) && sandboxDir != baseDir {
        fs.RemoveTree(baseDir);
      }
    }
  }

  // ---------------------------------------------------------------------------
  // Properties

  /** The layout directories all exist once laid out. */
  lemma LayoutExists(paths: set<string>, sandbox: string)
    ensures forall k :: 0 <= k < |LayoutDirs(sandbox)| ==> LayoutDirs(sandbox)[k] in Laid(paths, sandbox)
  {
    forall k | 0 <= k < |LayoutDirs(sandbox)|
      ensures LayoutDirs(sandbox)[k] in Laid(paths, sandbox)
    {
      LayoutDirLaid(paths, sandbox, k);
    }
  }

  /** One layout directory exists once laid out. */
  lemma LayoutDirLaid(paths: set<string>, sandbox: string, k: nat)
    requires k < 6
    ensures LayoutDirs(sandbox)[k] in Laid(paths, sandbox)
  {
    var d := LayoutDirs(sandbox);
    var usr := PathJoin(sandbox, "usr");
    if k == 0 { JoinNonEmpty(sandbox, "bin"); assert d[0] in Ancestry(d[0]); }
    else if k == 1 { JoinNonEmpty(sandbox, "lib"); assert d[1] in Ancestry(d[1]); }
    else if k == 2 { JoinNonEmpty(sandbox, "lib64"); assert d[2] in Ancestry(d[2]); }
    else if k == 3 { JoinNonEmpty(usr, "bin"); assert d[3] in Ancestry(d[3]); }
    else if k == 4 { JoinNonEmpty(usr, "lib"); assert d[4] in Ancestry(d[4]); }
    else { JoinNonEmpty(sandbox, "tmp"); assert d[5] in Ancestry(d[5]); }
  }

  /** Joining a non-empty name never gives the empty path. */
  lemma JoinNonEmpty(a: string, b: string)
    requires b != []
    ensures PathJoin(a, b) != []
  {
  }

  /** Every layout directory lies strictly inside a non-empty environment directory. */
  lemma LayoutInsideSandbox(sandbox: string)
    requires sandbox != []
    ensures forall k :: 0 <= k < |LayoutDirs(sandbox)| ==>
      Within(LayoutDirs(sandbox)[k], sandbox) && LayoutDirs(sandbox)[k] != sandbox
  {
    JoinIsWithin(sandbox, "bin");
    JoinIsWithin(sandbox, "lib");
    JoinIsWithin(sandbox, "lib64");
    JoinIsWithin(sandbox, "tmp");
    UsrJoinIsWithin(sandbox, "bin");
    UsrJoinIsWithin(sandbox, "lib");
  }

  /** A directory under `usr` lies strictly inside the environment. */
  lemma UsrJoinIsWithin(sandbox: string, name: string)
    requires sandbox != [] && name != [] && name[0] != '/'
    ensures var d := PathJoin(PathJoin(sandbox, "usr"), name);
      Within(d, sandbox) && d != sandbox
  {
    JoinIsWithin(sandbox, "usr");
    var usr := PathJoin(sandbox, "usr");
    JoinIsWithin(usr, name);
    WithinTrans(PathJoin(usr, name), usr, sandbox);
  }

  /** Lying below a directory that lies strictly below `root` is lying below `root`. */
  lemma WithinTrans(p: string, mid: string, root: string)
    requires Within(p, mid) && Within(mid, root) && mid != root
    ensures Within(p, root) && p != root
  {
    var pre := DirPrefix(root);
    assert mid[..|pre|] == pre;
    if p != mid {
      var mpre := DirPrefix(mid);
      assert |mpre| >= |mid|;
      assert p[..|mid|] == mid;
      assert p[..|pre|] == mid[..|pre|];
    }
  }

  /** Copying libraries only ever adds paths. */
  lemma {:induction false} LibrariesOnlyAdd(paths: set<string>, sandbox: string, libs: seq<string>)
    ensures paths <= CopyLibraries(paths, sandbox, libs)
  {
    if libs != [] {
      LibrariesOnlyAdd(paths, sandbox, libs[..|libs| - 1]);
    }
  }

  /** Processing `ldd` lines only ever adds paths. */
  lemma {:induction false} CopiesOnlyAdd(paths: set<string>, sandbox: string, lines: seq<string>)
    ensures paths <= CopyLddLines(paths, sandbox, lines)
  {
    if lines != [] {
      CopiesOnlyAdd(paths, sandbox, lines[..|lines| - 1]);
    }
  }

  /** A typical `ldd` line, `name => path (address)`, names `path`, provided
      nothing before the arrow holds another arrow, the path is non-empty with
      neither whitespace nor `=`, and the rest has no `=`. */
  lemma LddLineNamesPath(prefix: string, path: string, rest: string)
    requires !Contains(prefix, Arrow)
    requires path != [] && forall k :: 0 <= k < |path| ==> !IsSpace(path[k]) && path[k] != '='
    requires '=' !in rest
    requires !Contains(prefix + Arrow + " " + path + " " + rest, NotFound)
    ensures LddLibPath(prefix + Arrow + " " + path + " " + rest) == Some(path)
  {
    var line := prefix + Arrow + " " + path + " " + rest;
    var tail := " " + path + " " + rest;
    assert line == prefix + Arrow + tail;
    FirstArrow(prefix, tail);
    PaddedHasNoEquals(path, rest);
    NoArrowWithoutEquals(tail);
    assert SecondField(line, Arrow) == tail;
    StripThenFirstWord(path, rest);
  }

  /** `" " + path + " " + rest` holds no `=` when neither part does. */
  lemma PaddedHasNoEquals(path: string, rest: string)
    requires forall k :: 0 <= k < |path| ==> path[k] != '='
    requires '=' !in rest
    ensures forall k :: 0 <= k < |" " + path + " " + rest| ==> (" " + path + " " + rest)[k] != '='
  {
    var tail := " " + path + " " + rest;
    forall k | 0 <= k < |tail|
      ensures tail[k] != '='
    {
      if 1 <= k <= |path| {
        assert tail[k] == path[k - 1];
      } else if |path| + 2 <= k {
        assert tail[k] == rest[k - |path| - 2];
      }
    }
  }

  /** The first arrow of `prefix + "=>" + tail` is the one after `prefix`
      when `prefix` holds none. */
  lemma FirstArrow(prefix: string, tail: string)
    requires !Contains(prefix, Arrow)
    ensures Find(prefix + Arrow + tail, Arrow) == |prefix|
    ensures (prefix + Arrow + tail)[Find(prefix + Arrow + tail, Arrow) + |Arrow|..] == tail
  {
    var line := prefix + Arrow + tail;
    var n := |prefix|;
    assert line[n..n + 2] == Arrow;
    assert OccursAt(line, Arrow, n);
    forall j | 0 <= j < n
      ensures !OccursAt(line, Arrow, j)
    {
      if j + 2 <= n {
        assert line[j..j + 2] == prefix[j..j + 2];
        assert !OccursAt(prefix, Arrow, j);
      } else {
        assert line[j + 1] == '=';
      }
    }
    assert line[n + 2..] == tail;
  }

  /** A string without `=` holds no arrow. */
  lemma NoArrowWithoutEquals(s: string)
    requires forall k :: 0 <= k < |s| ==> s[k] != '='
    ensures !Contains(s, Arrow)
  {
    forall j | 0 <= j <= |s|
      ensures !OccursAt(s, Arrow, j)
    {
      if j + 2 <= |s| {
        assert s[j..j + 2][0] == s[j];
      }
    }
  }

  /** Stripping `" " + path + " " + rest` and taking the first space-separated
      word gives back a non-empty path without whitespace. */
  lemma StripThenFirstWord(path: string, rest: string)
    requires path != [] && forall k :: 0 <= k < |path| ==> !IsSpace(path[k])
    ensures Split(Strip(" " + path + " " + rest), ' ')[0] == path
  {
    var body := path + " " + rest;
    assert " " + path + " " + rest == " " + body;
    StripPadded(body);
    RStripKeepsWord(path, rest);
    assert ' ' !in path by {
      assert forall k :: 0 <= k < |path| ==> path[k] != ' ';
    }
    FirstField(RStrip(body), path);
  }

  /** One leading space is stripped from a text that then starts with a
      non-space character. */
  lemma StripPadded(body: string)
    requires body != [] && !IsSpace(body[0])
    ensures Strip(" " + body) == RStrip(body)
  {
    assert AllSpace(" ");
    LStripSkipsSpace(" ", body);
    assert LStrip(body) == body;
  }

  /** Right-stripping a word followed by a space keeps the word and, when
      anything follows it, that space. */
  lemma RStripKeepsWord(path: string, rest: string)
    requires path != [] && !IsSpace(path[|path| - 1])
    ensures var r := RStrip(path + " " + rest);
      |r| >= |path| && r[..|path|] == path && (|r| > |path| ==> r[|path|] == ' ')
  {
    var body := path + " " + rest;
    var r := RStrip(body);
    assert body[|path| - 1] == path[|path| - 1];
    assert body[..|path|] == path;
  }

  /** The first space-separated field of a text that starts with a word
      without spaces, followed by a space or the end, is that word. */
  lemma FirstField(r: string, word: string)
    requires |r| >= |word| && r[..|word|] == word && ' ' !in word
    requires |r| > |word| ==> r[|word|] == ' '
    ensures Split(r, ' ')[0] == word
  {
    if |r| > |word| {
      assert ' ' in r;
      assert IndexOf(r, ' ') == |word| by {
        assert r[..|word|] == word;
      }
    } else {
      assert r == word;
    }
  }

  /** A library at `/dir/file` lands at the same path inside the
      environment, strictly below it. */
  lemma LibraryMirrored(paths: set<string>, sandbox: string, dir: string, file: string)
    requires sandbox != [] && sandbox[|sandbox| - 1] != '/'
    requires dir != [] && dir[0] != '/' && dir[|dir| - 1] != '/'
    requires file != [] && '/' !in file
    requires "/" + dir + "/" + file in paths
    ensures var lib := "/" + dir + "/" + file;
      && sandbox + lib in CopyLibrary(paths, sandbox, lib)
      && Within(sandbox + lib, sandbox) && sandbox + lib != sandbox
  {
    var lib := "/" + dir + "/" + file;
    MirroredLocation(sandbox, dir, file);
    assert (sandbox + lib)[..|sandbox| + 1] == sandbox + "/";
  }

  /** A library path beginning with `//` is copied outside the environment:
      dropping the first character of its directory leaves an absolute
      path, which `os.path.join` puts in place of the environment. */
  lemma DoubleSlashLibraryEscapes(paths: set<string>, sandbox: string)
    requires "//x/y" in paths
    requires StartsWith(sandbox, "/tmp/")
    ensures "/x/y" in CopyLibrary(paths, sandbox, "//x/y")
    ensures !Within("/x/y", sandbox)
  {
    var lib := "//x/y";
    assert lib == "//x/" + "y";
    RFindLast("//x/", "y", '/');
    assert lib[..4] == "//x/";
    StripOneChar("//x", '/');
    assert Dirname(lib) == "//x";
    assert SliceFrom("//x", 1) == "/x";
    assert lib[4..] == "y";
    assert Basename(lib) == "y";
    assert PathJoin(LibraryDir(sandbox, lib), Basename(lib)) == "/x/y";
    assert |sandbox| >= 5 && |DirPrefix(sandbox)| > 4;
  }

  /** After cleanup neither the environment nor anything below the base
      directory remains, provided the base directory existed. */
  lemma CleanupRemovesBase(paths: set<string>, baseDir: string, sandboxDir: string)
    requires baseDir != [] && baseDir in paths
    ensures forall q :: q in CleanedPaths(paths, baseDir, sandboxDir) ==> !Within(q, baseDir)
    ensures sandboxDir != [] ==> sandboxDir !in CleanedPaths(paths, baseDir, sandboxDir)
  {
  }

  /** A second cleanup with the same argument changes nothing. */
  lemma CleanupIdempotent(paths: set<string>, baseDir: string, sandboxDir: string)
    ensures var once := CleanedPaths(paths, baseDir, sandboxDir);
      CleanedPaths(once, baseDir, sandboxDir) == once
  {
    var first := if sandboxDir != [] && sandboxDir in paths
                 then set q | q in paths && !Within(q, sandboxDir) else paths;
    var once := CleanedPaths(paths, baseDir, sandboxDir);
    assert sandboxDir != [] ==> sandboxDir !in first;
    assert baseDir != [] && sandboxDir != baseDir ==> baseDir !in once;
    assert sandboxDir != [] ==> sandboxDir !in once;
  }
}
