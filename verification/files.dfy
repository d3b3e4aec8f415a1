/**
 * What the Python-level steps do to the filesystem: `os.makedirs` with
 * `exist_ok=True`, `open(path, "w")`, `open(path, "a")` and `os.remove`.
 * Only directories and file contents are modelled; permissions, owners and
 * whatever external commands change are not.
 */
module Files {
  import opened Wrappers
  import opened Commands

  /** The directories that exist and the contents of the regular files. */
  datatype Fs = Fs(dirs: set<string>, files: map<string, string>)

  /** Position of the last `/` in `p`, or -1 when there is none. */
  function LastSlash(p: string): (i: int)
    ensures -1 <= i < |p|
    ensures i >= 0 ==> p[i] == '/'
    ensures forall k :: i < k < |p| ==> p[k] != '/'
  {
    if |p| == 0 then -1
    else if p[|p| - 1] == '/' then |p| - 1
    else LastSlash(p[..|p| - 1])
  }

  /** The directory a path names an entry of; "" stands for the root and the current directory. */
  function Parent(p: string): string {
    var i := LastSlash(p);
    if i < 0 then "" else p[..i]
  }

  /** The entry `name` of directory `dir` lives in `dir`. */
  lemma ParentOfEntry(dir: string, name: string)
    requires '/' !in name
    ensures Parent(dir + "/" + name) == dir
  {
    var p := dir + "/" + name;
    var i := LastSlash(p);
    assert p[|dir|] == '/';
    assert forall k :: |dir| < k < |p| ==> p[k] == name[k - |dir| - 1];
  }

  /** The directory and every directory above it, as `os.makedirs` creates them. */
  function Ancestors(p: string): set<string> {
    set i | 0 < i <= |p| && (i == |p| || p[i] == '/') :: p[..i]
  }

  predicate DirExists(fs: Fs, d: string) {
    d == "" || d in fs.dirs
  }

  /** What a file holds before an append: its contents, or nothing when it does not exist yet. */
  function Content(fs: Fs, p: string): string {
    if p in fs.files then fs.files[p] else ""
  }

  /** No regular file sits where `os.makedirs(p)` has to find or create a directory. */
  predicate Unblocked(fs: Fs, p: string) {
    Ancestors(p) !! fs.files.Keys
  }

  /**
   * One step's effect; a step that raises is reported with its path.
   * `os.makedirs(p, exist_ok=True)` raises `FileNotFoundError` for an empty
   * path and `FileExistsError` or `NotADirectoryError` when `p` or a
   * directory above it is a regular file; otherwise it succeeds, also when
   * `p` already exists. Opening a file raises `FileNotFoundError` when its
   * directory does not exist and `IsADirectoryError` when the path is a
   * directory. External commands leave this model alone.
   */
  function Apply(fs: Fs, a: Action): Result<Fs, string> {
    match a
    case Run(_, _) => Ok(fs)
    case MakeDirs(p) =>
      if p != "" && Unblocked(fs, p) then Ok(fs.(dirs := fs.dirs + Ancestors(p))) else Err(p)
    case WriteFile(p, data) =>
      if DirExists(fs, Parent(p)) && p !in fs.dirs then Ok(fs.(files := fs.files[p := data])) else Err(p)
    case AppendFile(p, data) =>
      if DirExists(fs, Parent(p)) && p !in fs.dirs then Ok(fs.(files := fs.files[p := Content(fs, p) + data])) else Err(p)
    case RemoveFile(p) =>
      if p in fs.files then Ok(fs.(files := fs.files - {p})) else Err(p)
  }

  /** The steps of a plan one after another; an exception ends the script at the step that raised it. */
  function Simulate(plan: seq<Action>, fs: Fs): (r: Result<Fs, nat>)
    ensures r.Err? ==> r.error < |plan| && !plan[r.error].Run?
  {
    if |plan| == 0 then Ok(fs)
    else
      match Apply(fs, plan[0])
      case Err(_) => Err(0)
      case Ok(next) =>
        var rest := Simulate(plan[1..], next);
        if rest.Err? then assert plan[rest.error + 1] == plan[1..][rest.error]; Err(rest.error + 1) else rest
  }

  /**
   * `open(path, "a")` keeps what the file held and adds `data` at its end;
   * it fails only when the directory is missing or the path is a directory,
   * and touches no other file. `open(path, "w")`, by contrast, replaces the
   * contents.
   */
  lemma AppendKeepsContents(fs: Fs, p: string, data: string)
    ensures Apply(fs, AppendFile(p, data)).Ok? <==> DirExists(fs, Parent(p)) && p !in fs.dirs
    ensures var r := Apply(fs, AppendFile(p, data));
            r.Ok? ==>
              && r.value.files[p] == Content(fs, p) + data
              && r.value.files[p][..|Content(fs, p)|] == Content(fs, p)
              && r.value.dirs == fs.dirs
              && (forall q :: q != p ==> (q in r.value.files <==> q in fs.files))
              && (forall q :: q != p && q in fs.files ==> r.value.files[q] == fs.files[q])
    ensures var w := Apply(fs, WriteFile(p, data));
            w.Ok? ==> w.value.files[p] == data
  {
  }

  /**
   * `os.makedirs(p, exist_ok=True)` succeeds exactly when `p` is not empty
   * and no regular file is in the way; then it creates `p` and every
   * directory above it, touches no file, and a second call changes nothing.
   */
  lemma MakeDirsIdempotent(fs: Fs, p: string)
    ensures Apply(fs, MakeDirs(p)).Ok? <==> p != "" && Unblocked(fs, p)
    ensures Apply(fs, MakeDirs(p)).Ok? ==>
              var once := Apply(fs, MakeDirs(p)).value;
              && p in once.dirs
              && (forall d :: d in Ancestors(p) ==> d in once.dirs)
              && once.files == fs.files
              && Apply(once, MakeDirs(p)) == Ok(once)
  {
    if p != "" {
      assert p[..|p|] == p;
    }
  }

  /** A run that raises at step `k` of `x` raises at the same step of anything `x` starts. */
  lemma {:induction false} SimulateAppendErr(x: seq<Action>, y: seq<Action>, fs: Fs)
    requires Simulate(x, fs).Err?
    ensures Simulate(x + y, fs) == Simulate(x, fs)
    decreases |x|
  {
    assert (x + y)[0] == x[0];
    if Apply(fs, x[0]).Ok? {
      assert (x + y)[1..] == x[1..] + y;
      SimulateAppendErr(x[1..], y, Apply(fs, x[0]).value);
    }
  }

  /** Commands run through `run` leave the filesystem model as it was. */
  lemma {:induction false} SimulateCommands(x: seq<Action>, fs: Fs)
    requires forall i :: 0 <= i < |x| ==> x[i].Run?
    ensures Simulate(x, fs) == Ok(fs)
    decreases |x|
  {
    if |x| > 0 {
      SimulateCommands(x[1..], fs);
    }
  }

  /** Running two plans back to back: the second starts from where the first left the filesystem. */
  lemma {:induction false} SimulateAppend(x: seq<Action>, y: seq<Action>, fs: Fs)
    requires Simulate(x, fs).Ok?
    ensures var mid := Simulate(x, fs).value;
            Simulate(x + y, fs) == (match Simulate(y, mid)
                                    case Ok(f) => Ok(f)
                                    case Err(k) => Err(|x| + k))
    decreases |x|
  {
    if |x| == 0 {
      assert x + y == y;
    } else {
      var next := Apply(fs, x[0]).value;
      assert (x + y)[0] == x[0];
      assert (x + y)[1..] == x[1..] + y;
      SimulateAppend(x[1..], y, next);
    }
  }
}
