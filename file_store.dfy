/**
 * The file store behind the write endpoint (write_file in terravision/app.py).
 *
 * The disk is the set of directories that exist and a map from path to file
 * content. Whether the operating system lets a write through is not something
 * the program decides, so it comes in as an IoFault parameter.
 */
module FileStore {
  import opened Wrappers
  import opened Json

  /** The directory every configuration file is written into. */
  const DataDir: string := "data"

  /**
   * The path os.path.join("data", name) builds. The name is not checked: an
   * absolute name replaces the directory, and ".." is kept as it is.
   */
  function DataPath(name: string): string
  {
    if |name| > 0 && name[0] == '/' then name else DataDir + "/" + name
  }

  /**
   * Different names never give the same path string. Files are keyed by that
   * string, so this says nothing about two strings that the operating system
   * resolves to one file ("main.tf" and "./main.tf").
   */
  lemma DataPathInjective(a: string, b: string)
    ensures DataPath(a) == DataPath(b) ==> a == b
  {
    if DataPath(a) == DataPath(b) && !(|a| > 0 && a[0] == '/') && !(|b| > 0 && b[0] == '/') {
      assert a == DataPath(a)[|DataDir| + 1..];
      assert b == DataPath(b)[|DataDir| + 1..];
    }
  }

  /** What the operating system does with one call of write_file. */
  datatype IoFault =
    | Healthy
    | MakedirsFails(msg: string)           // os.makedirs raises
    | OpenFails(msg: string)               // open(path, "w+") raises before truncating
    | WriteFails(msg: string, written: nat) // f.write raises after `written` characters reached the file

  /** The exception write_file lets escape. */
  datatype Raised = TypeMismatch | OsError(msg: string)

  datatype Disk = Disk(dirs: set<string>, files: map<string, string>)

  /** The disk after one call of write_file, and the exception it raised, if any. */
  datatype Written = Written(disk: Disk, error: Option<Raised>)

  /** The file at p is the same (present with the same content, or absent) in both maps. */
  ghost predicate SameAt(before: map<string, string>, after: map<string, string>, p: string)
  {
    (p in before <==> p in after) && (p in before ==> after[p] == before[p])
  }

  function Min(a: nat, b: nat): nat { if a <= b then a else b }

  /**
   * write_file(name, content). The log line measures len(content) first, so a
   * value without a length raises before anything happens; then the data
   * directory is created if missing, the file is opened for writing (which
   * truncates it) and the content is written. A failure is re-raised, and a
   * file already truncated or partly written is left so.
   */
  function WriteFileSpec(disk: Disk, name: string, content: Json, fault: IoFault): Written
  {
    var path := DataPath(name);
    if content.JScalar? then Written(disk, Some(TypeMismatch))
    else if fault.MakedirsFails? then Written(disk, Some(OsError(fault.msg)))
    else
      var made := disk.(dirs := disk.dirs + {DataDir});
      if fault.OpenFails? then Written(made, Some(OsError(fault.msg)))
      else
        var truncated := made.(files := made.files[path := ""]);
        match content
        case JString(s) =>
          if fault.WriteFails? then
            Written(truncated.(files := truncated.files[path := s[..Min(fault.written, |s|)]]), Some(OsError(fault.msg)))
          else
            Written(truncated.(files := truncated.files[path := s]), None)
        case _ => Written(truncated, Some(TypeMismatch))
  }

  /**
   * What write_file does to the disk: only `data/<name>` can change and only
   * `data` can be created; it succeeds exactly on text with a working disk,
   * and a failure leaves the file as it was, emptied, or holding a prefix.
   */
  lemma WriteFileMeaning(disk: Disk, name: string, content: Json, fault: IoFault)
    ensures var w := WriteFileSpec(disk, name, content, fault);
      && (forall p :: p != DataPath(name) ==> SameAt(disk.files, w.disk.files, p))
      && (w.disk.dirs == disk.dirs || w.disk.dirs == disk.dirs + {DataDir})
      && (w.error == None <==> content.JString? && fault.Healthy?)
      && (w.error == None ==>
            && DataDir in w.disk.dirs
            && DataPath(name) in w.disk.files
            && w.disk.files[DataPath(name)] == content.text)
      && (w.error != None ==>
            || SameAt(disk.files, w.disk.files, DataPath(name))
            || (DataPath(name) in w.disk.files && w.disk.files[DataPath(name)] == "")
            || (content.JString? && DataPath(name) in w.disk.files && w.disk.files[DataPath(name)] <= content.text))
      && (content.JScalar? ==> w == Written(disk, Some(TypeMismatch)))
  {
  }

  /** The server's disk, which every request shares. */
  class FileSystem {
    var dirs: set<string>
    var files: map<string, string>

    function State(): Disk
      reads this
    {
      Disk(dirs, files)
    }
  }

  /** write_file, step by step against the shared disk. */
  method WriteFile(fs: FileSystem, name: string, content: Json, fault: IoFault) returns (error: Option<Raised>)
    modifies fs
    ensures Written(fs.State(), error) == WriteFileSpec(old(fs.State()), name, content, fault)
  {
    var path := DataPath(name);
    if content.JScalar? {
      return Some(TypeMismatch);
    }
    if fault.MakedirsFails? {
      return Some(OsError(fault.msg));
    }
    fs.dirs := fs.dirs + {DataDir};
    if fault.OpenFails? {
      return Some(OsError(fault.msg));
    }
    fs.files := fs.files[path := ""];
    match content {
      case JString(s) =>
        if fault.WriteFails? {
          fs.files := fs.files[path := s[..Min(fault.written, |s|)]];
          return Some(OsError(fault.msg));
        }
        fs.files := fs.files[path := s];
        return None;
      case _ =>
        return Some(TypeMismatch);
    }
  }
}
