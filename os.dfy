/** The operating-system services the log rotator uses: `path.Join`,
    `os.OpenFile` with create-and-append flags and `(*os.File).Write`. The
    file system is a map from path to file contents; what the OS decides on
    its own (a refused open, a short or failed write) is a nondeterministic
    choice, so every outcome the OS may produce is covered. */
module Os {
  import opened Wrappers
  import opened Utf8

  /** The operation a `*os.PathError` reports. */
  datatype Op = Open | Write | CreateTemp | Remove

  /** Go's `*os.PathError`: the operation and the path it failed on. */
  datatype IoError = PathError(op: Op, path: string)

  /** An open file, known by its path. */
  datatype File = File(path: string)

  type Files = map<string, seq<byte>>

  /** What reading `path` gives: its contents, or nothing if it is absent. */
  function Contents(files: Files, path: string): seq<byte>
  {
    if path in files then files[path] else []
  }

  /** The file system after appending `bytes` to `path`, which is created
      empty first if it is absent. */
  function AppendTo(files: Files, path: string, bytes: seq<byte>): (after: Files)
    ensures after.Keys == files.Keys + {path}
    ensures after[path] == Contents(files, path) + bytes
    ensures forall p :: p in files && p != path ==> after[p] == files[p]
  {
    files[path := Contents(files, path) + bytes]
  }

  /** The directory part of a path built by `Join`. */
  function DirPrefix(dir: string): string
  {
    if dir == [] then [] else if dir[|dir| - 1] == '/' then dir else dir + "/"
  }

  /** `path.Join(dir, name)` for a plain file name: `name` inside `dir`. */
  function Join(dir: string, name: string): (p: string)
    ensures |p| >= |name| && p[|p| - |name|..] == name
  {
    DirPrefix(dir) + name
  }

  /** Different names in one directory are different paths. */
  lemma JoinInjective(dir: string, name1: string, name2: string)
    requires name1 != name2
    ensures Join(dir, name1) != Join(dir, name2)
  {
    var d := DirPrefix(dir);
    assert Join(dir, name1)[|d|..] == name1;
    assert Join(dir, name2)[|d|..] == name2;
  }

  /** Appending twice to one file appends the concatenation. */
  lemma AppendTwice(files: Files, path: string, a: seq<byte>, b: seq<byte>)
    ensures AppendTo(AppendTo(files, path, a), path, b) == AppendTo(files, path, a + b)
  {
    assert Contents(files, path) + a + b == Contents(files, path) + (a + b);
  }

  /** The files of the machine, changed only through the methods below. */
  class FileSystem {
    var files: Files

    constructor (files: Files)
      ensures this.files == files
    {
      this.files := files;
    }

    /** `os.OpenFile(path, O_WRONLY|O_APPEND|O_CREATE, 0644)`: the OS either
        refuses, leaving every file as it was, or opens `path` for appending,
        creating it empty if it is absent. The mode bits are not modelled. */
    method OpenAppend(path: string) returns (f: File, err: Option<IoError>)
      modifies this
      ensures f.path == path
      ensures err.Some? ==> err.value == PathError(Op.Open, path) && files == old(files)
      ensures err.None? ==> files == AppendTo(old(files), path, [])
    {
      f := File(path);
      if * {
        err := Some(PathError(Op.Open, path));
      } else {
        files := AppendTo(files, path, []);
        err := None;
      }
    }

    /** `f.Write(data)` on a file opened for appending: the OS accepts some
        `n <= |data|` bytes and appends `data[..n]`; fewer than `|data|` bytes
        always come with an error, and an error may come with all of them. */
    method Write(f: File, data: seq<byte>) returns (n: nat, err: Option<IoError>)
      requires f.path in files
      modifies this
      ensures n <= |data|
      ensures err.Some? ==> err.value == PathError(Op.Write, f.path)
      ensures n < |data| ==> err.Some?
      ensures files == AppendTo(old(files), f.path, data[..n])
    {
      n :| n <= |data|;
      files := AppendTo(files, f.path, data[..n]);
      if n < |data| {
        err := Some(PathError(Op.Write, f.path));
      } else if * {
        err := Some(PathError(Op.Write, f.path));
      } else {
        err := None;
      }
    }
  }
}
