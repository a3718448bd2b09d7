/** The part of the operating system the store touches: one storage
    directory, the entries in it, and the `os` calls made on them. Calls are
    pure functions of the directory state. A failure other than "not found"
    (permission, I/O, a full disk) is given by the state itself, call by
    call: each fault map names the entries on which that call fails and the
    cause it reports, and `listFault` says that listing the directory fails. */
module FileSystem {
  import opened Wrappers
  import opened Json

  datatype Node =
    | Dir(isEmpty: bool)    // a sub-directory
    | File(contents: Contents)

  /** How `os.WriteFile` fails on a name: at the open, leaving the entry as
      it was; at the write, after truncating, leaving a partial document; or
      at the close, after every byte was written. */
  datatype WriteFault =
    | OpenFails(cause: string)
    | WriteFails(cause: string)
    | CloseFails(cause: string)

  /** The storage directory. Its entries are ignored while it does not exist. */
  datatype FsState = FsState(
    dirExists: bool,
    listFault: Option<string>,
    entries: map<string, Node>,
    statFaults: map<string, string>,
    readFaults: map<string, string>,
    writeFaults: map<string, WriteFault>,
    removeFaults: map<string, string>)

  datatype OsError = NotExist | Failed(cause: string)

  /** Go's `*os.PathError`: the failed operation and its cause. */
  datatype PathError = PathError(op: string, err: OsError)

  /** `err.Error()` of a path error raised on `path`. */
  function Describe(pe: PathError, path: string): string
  {
    pe.op + " " + path + ": " +
    match pe.err
    case NotExist => "no such file or directory"
    case Failed(cause) => cause
  }

  /** What `json.Unmarshal` reports for a truncated document. */
  const TruncatedJson := "unexpected end of JSON input"

  predicate Present(fs: FsState, name: string)
  {
    fs.dirExists && name in fs.entries
  }

  /** `os.Stat`. */
  function Stat(fs: FsState, name: string): Result<Node, PathError>
  {
    if name in fs.statFaults then Err(PathError("stat", Failed(fs.statFaults[name])))
    else if !Present(fs, name) then Err(PathError("stat", NotExist))
    else Ok(fs.entries[name])
  }

  /** `os.ReadFile`. Opening a directory works; reading it does not. */
  function ReadFile(fs: FsState, name: string): Result<Contents, PathError>
  {
    if name in fs.readFaults then Err(PathError("open", Failed(fs.readFaults[name])))
    else if !Present(fs, name) then Err(PathError("open", NotExist))
    else match fs.entries[name]
      case Dir(_) => Err(PathError("read", Failed("is a directory")))
      case File(c) => Ok(c)
  }

  /** The directory after `os.WriteFile`, and the error it reports, if any. */
  datatype WriteOutcome = WriteOutcome(fs: FsState, error: Option<PathError>)

  /** `os.WriteFile`: opens the file, creating or truncating it, writes the
      bytes and closes it. Only a failed open leaves the entry untouched. */
  function WriteFile(fs: FsState, name: string, c: Contents): (r: WriteOutcome)
    ensures r.fs == fs.(entries := r.fs.entries)
    ensures r.fs.entries - {name} == fs.entries - {name}
    ensures r.error.None? ==> fs.dirExists && r.fs.entries == fs.entries[name := File(c)]
    ensures r.fs != fs ==> fs.dirExists && name in r.fs.entries
  {
    var fault := if name in fs.writeFaults then Some(fs.writeFaults[name]) else None;
    if fault.Some? && fault.value.OpenFails? then WriteOutcome(fs, Some(PathError("open", Failed(fault.value.cause))))
    else if !fs.dirExists then WriteOutcome(fs, Some(PathError("open", NotExist)))
    else if name in fs.entries && fs.entries[name].Dir? then WriteOutcome(fs, Some(PathError("open", Failed("is a directory"))))
    else if fault.None? then WriteOutcome(fs.(entries := fs.entries[name := File(c)]), None)
    else if fault.value.WriteFails? then
      WriteOutcome(fs.(entries := fs.entries[name := File(Malformed(TruncatedJson))]),
                   Some(PathError("write", Failed(fault.value.cause))))
    else WriteOutcome(fs.(entries := fs.entries[name := File(c)]), Some(PathError("close", Failed(fault.value.cause))))
  }

  /** `os.Remove`: removes a file or an empty directory. */
  function Remove(fs: FsState, name: string): Result<FsState, PathError>
  {
    if name in fs.removeFaults then Err(PathError("remove", Failed(fs.removeFaults[name])))
    else if !Present(fs, name) then Err(PathError("remove", NotExist))
    else if fs.entries[name] == Dir(false) then Err(PathError("remove", Failed("directory not empty")))
    else Ok(fs.(entries := fs.entries - {name}))
  }

  /** The error `os.ReadDir` reports, if any. */
  function ReadDirError(fs: FsState): Option<PathError>
  {
    if !fs.dirExists then Some(PathError("open", NotExist))
    else match fs.listFault
      case Some(cause) => Some(PathError("open", Failed(cause)))
      case None => None
  }

  predicate HasSuffix(s: string, suffix: string)
  {
    |suffix| <= |s| && s[|s| - |suffix|..] == suffix
  }

  /** `filepath.Ext` scanning backwards from position `i`: the rest of the
      path from the last '.' of its final element, or "" when there is none. */
  function ExtBefore(path: string, i: nat): (r: string)
    requires i <= |path|
    ensures |r| <= |path| && path[|path| - |r|..] == r
    ensures r != [] ==> r[0] == '.'
    decreases i
  {
    if i == 0 || path[i - 1] == '/' then ""
    else if path[i - 1] == '.' then path[i - 1..]
    else ExtBefore(path, i - 1)
  }

  /** `filepath.Ext`. */
  function Ext(path: string): string
  {
    ExtBefore(path, |path|)
  }

  /** Go's string order, which for valid UTF-8 is code point order. */
  predicate NameLess(a: string, b: string)
    decreases |a|
  {
    if a == [] then b != []
    else b != [] && if a[0] == b[0] then NameLess(a[1..], b[1..]) else a[0] < b[0]
  }

  predicate StrictlySorted(names: seq<string>)
  {
    forall i, j :: 0 <= i < j < |names| ==> NameLess(names[i], names[j])
  }

  /** `names` is what `os.ReadDir` returns for these entries: every entry
      once, sorted by file name. */
  ghost predicate IsListing(names: seq<string>, entries: map<string, Node>)
  {
    && (forall i :: 0 <= i < |names| ==> names[i] in entries)
    && (forall n :: n in entries ==> n in names)
    && StrictlySorted(names)
  }
}
