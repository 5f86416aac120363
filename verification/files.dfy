/** The part of the file system the application writes to: directories and
    whole-file contents, binary or text. */
module Files {
  import opened Wrappers
  import opened Text

  newtype byte = x: int | 0 <= x < 256

  datatype Content = Bytes(data: seq<byte>) | Text(text: string)

  /** The directory part of a relative path: everything before its last `/`,
      or `""` (the working directory) when it has none. */
  function Parent(path: string): (r: string)
    ensures |r| < |path| || (path == [] && r == [])
    ensures r == path[..|r|]
    ensures '/' !in path ==> r == []
  {
    if path == [] then []
    else if path[|path| - 1] == '/' then path[..|path| - 1]
    else Parent(path[..|path| - 1])
  }

  /** A name appended to a directory has that directory as its parent exactly
      when the name has no `/` of its own. */
  lemma {:induction false} ParentOfChild(dir: string, name: string)
    ensures Parent(dir + "/" + name) == if '/' in name then dir + "/" + Parent(name) else dir
    decreases |name|
  {
    var path := dir + "/" + name;
    if name == [] {
      assert path[..|path| - 1] == dir;
    } else {
      var init := name[..|name| - 1];
      assert path[..|path| - 1] == dir + "/" + init;
      assert name == init + [name[|name| - 1]];
      ParentOfChild(dir, init);
      if name[|name| - 1] != '/' {
        assert '/' in name <==> '/' in init;
      }
    }
  }

  /** `dir` and every directory above it, as `os.makedirs` creates them. */
  function Ancestry(dir: string): (r: set<string>)
    ensures dir != [] ==> dir in r
    ensures [] !in r
    decreases |dir|
  {
    if dir == [] then {} else {dir} + Ancestry(Parent(dir))
  }

  /** `os.makedirs` on `a/b` creates `a` and `a/b`. */
  lemma AncestryBelow(a: string, b: string)
    requires a != [] && '/' !in a && '/' !in b
    ensures Ancestry(a + "/" + b) == {a + "/" + b, a}
  {
    ParentOfChild(a, b);
    assert Ancestry(a) == {a} + Ancestry(Parent(a)) == {a};
  }

  /** A snapshot of the file system. */
  datatype Disk = Disk(dirs: set<string>, files: map<string, Content>)

  /** The entry `name` of the directory `dir`; `""` is the working directory. */
  function Child(dir: string, name: string): string
  {
    if dir == [] then name else dir + "/" + name
  }

  /** How `open` walks the components of a relative path from the directory
      `at`: an empty component (from `//`) and `.` stay where they are, `..`
      goes up one level, any other name must be an existing directory; the last
      component names the file and cannot be empty, `.` or `..`. The result is
      the file's canonical path, `None` when `open` raises. */
  function Locate(dirs: set<string>, at: string, comps: seq<string>): (r: Option<string>)
    requires comps != []
    ensures |comps| == 1 ==> (r.Some? <==> comps[0] !in {"", ".", ".."})
    decreases |comps|
  {
    var c := comps[0];
    if |comps| == 1 then
      if c in {"", ".", ".."} then None else Some(Child(at, c))
    else if c in {"", "."} then Locate(dirs, at, comps[1..])
    else if c == ".." then
      if at == [] then None else Locate(dirs, Parent(at), comps[1..])
    else if Child(at, c) in dirs then Locate(dirs, Child(at, c), comps[1..])
    else None
  }

  /** The file a relative `path` opened for writing designates on the disk
      `d`, or `None` when `open` raises `FileNotFoundError`. */
  function Resolve(d: Disk, path: string): Option<string>
  {
    Locate(d.dirs, "", Split(path, '/'))
  }

  /** Resolution walks the components in order. */
  lemma LocateAppend(dirs: set<string>, at: string, first: string, comps: seq<string>)
    requires comps != [] && first !in {"", ".", ".."} && Child(at, first) in dirs
    ensures Locate(dirs, at, [first] + comps) == Locate(dirs, Child(at, first), comps)
  {
    assert ([first] + comps)[1..] == comps;
  }

  /** From the working directory, two existing directory names lead into the
      second one. */
  lemma LocateBelow(dirs: set<string>, a: string, b: string, comps: seq<string>)
    requires a !in {"", ".", ".."} && b !in {"", ".", ".."} && comps != []
    requires a in dirs && a + "/" + b in dirs
    ensures Locate(dirs, "", [a, b] + comps) == Locate(dirs, a + "/" + b, comps)
  {
    var rest := [b] + comps;
    assert [a, b] + comps == [a] + rest;
    assert Child("", a) == a && Child(a, b) == a + "/" + b;
    LocateAppend(dirs, "", a, rest);
    LocateAppend(dirs, a, b, comps);
  }

  class FileSystem {
    var dirs: set<string>
    var files: map<string, Content>

    function State(): Disk
      reads this
    {
      Disk(dirs, files)
    }

    constructor (dirs: set<string>)
      ensures this.dirs == dirs && files == map[]
    {
      this.dirs := dirs;
      files := map[];
    }

    /** `os.makedirs(dir, exist_ok=True)`: it raises (`FileExistsError` or
        `NotADirectoryError`, reported as `ok == false`) exactly when the
        directory or one of its ancestors is an existing file, and creates
        nothing then; otherwise the directory and its ancestors exist
        afterwards. No file changes. */
    method MakeDirs(dir: string) returns (ok: bool)
      modifies this
      ensures ok <==> Ancestry(dir) !! old(files).Keys
      ensures dirs == (if ok then old(dirs) + Ancestry(dir) else old(dirs)) && files == old(files)
    {
      ok := Ancestry(dir) !! files.Keys;
      if ok {
        dirs := dirs + Ancestry(dir);
      }
    }

    /** `open(path, "wb")` or `open(path, "w")` followed by one `write`:
        the file is truncated and then holds `content`. */
    method Write(path: string, content: Content)
      modifies this
      ensures files == old(files)[path := content] && dirs == old(dirs)
    {
      files := files[path := content];
    }

    /** A further `write` on a file opened with `"wb"`. */
    method AppendBytes(path: string, data: seq<byte>)
      requires path in files && files[path].Bytes?
      modifies this
      ensures files == old(files)[path := Bytes(old(files)[path].data + data)] && dirs == old(dirs)
    {
      files := files[path := Bytes(files[path].data + data)];
    }
  }
}
