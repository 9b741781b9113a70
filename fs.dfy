/**
 * The file system under the store's two JSON documents and the protocol that
 * reads and writes them (`readData`, `writeData` in backend/db.js).
 */
module FileSystem {
  import opened Wrappers

  /** What a path holds: a document that parses to an array, or content that cannot be read or parsed. */
  datatype File<T> = Doc(items: seq<T>) | Corrupt

  /** A snapshot of the disk: the files present, by path. */
  type Files<T> = map<string, File<T>>

  /** The errors `writeFileSync` and `renameSync` throw. */
  datatype IoError = WriteFailed(path: string) | RenameFailed(from: string, to: string)

  /** Where a `writeData` call fails, if it does. */
  datatype Fault = NoFault | TempWriteFails | RenameFails

  /** The temporary file written next to `path`. */
  function TempPath(path: string): string
  {
    path + ".tmp"
  }

  /** What `path` holds in `fs`, or `None` when it does not exist. */
  function At<T>(fs: Files<T>, path: string): Option<File<T>>
  {
    if path in fs then Some(fs[path]) else None
  }

  /** `readData(path)` over a snapshot: a missing, unreadable or unparsable file reads as `[]`. */
  function Read<T>(fs: Files<T>, path: string): seq<T>
  {
    if path in fs && fs[path].Doc? then fs[path].items else []
  }

  /** The disk once `path` holds `f`. */
  function Put<T>(fs: Files<T>, path: string, f: File<T>): Files<T>
  {
    fs[path := f]
  }

  /** The disk once `from` has been renamed over `to`. */
  function Move<T>(fs: Files<T>, from: string, to: string): Files<T>
    requires from in fs
  {
    (fs - {from})[to := fs[from]]
  }

  /**
   * The disk after `writeData(path, data)`: `data` written to the temporary file,
   * which is then renamed over `path`. A write that fails leaves a partial temporary
   * file; a rename that fails leaves the complete one. The target changes only on
   * success, and no path other than the target and its temporary file ever changes.
   */
  function Written<T>(fs: Files<T>, path: string, data: seq<T>, fault: Fault): (r: Files<T>)
    ensures fault == NoFault ==> At(r, path) == Some(Doc(data)) && TempPath(path) !in r
    ensures fault != NoFault ==> At(r, path) == At(fs, path)
    ensures forall q :: q != path && q != TempPath(path) ==> At(r, q) == At(fs, q)
  {
    var temp := TempPath(path);
    assert temp != path by { assert |temp| == |path| + 4; }
    match fault
    case TempWriteFails => Put(fs, temp, Corrupt)
    case RenameFails => Put(fs, temp, Doc(data))
    case NoFault => Move(Put(fs, temp, Doc(data)), temp, path)
  }

  /** The error `writeData(path, ...)` re-throws when it fails as `fault` says. */
  function WriteError(path: string, fault: Fault): IoError
    requires fault != NoFault
  {
    if fault == TempWriteFails then WriteFailed(TempPath(path)) else RenameFailed(TempPath(path), path)
  }

  /** A write that succeeds is read back exactly. */
  lemma ReadAfterWrite<T>(fs: Files<T>, path: string, data: seq<T>)
    ensures Read(Written(fs, path, data, NoFault), path) == data
  {
    assert At(Written(fs, path, data, NoFault), path) == Some(Doc(data));
  }

  /** A write that fails leaves what `readData` returns for the target as it was. */
  lemma ReadAfterFailedWrite<T>(fs: Files<T>, path: string, data: seq<T>, fault: Fault)
    requires fault != NoFault
    ensures Read(Written(fs, path, data, fault), path) == Read(fs, path)
  {
    assert At(Written(fs, path, data, fault), path) == At(fs, path);
  }

  /** Every state the disk passes through during `writeData(path, data)`, in order. */
  function WriteStates<T>(fs: Files<T>, path: string, data: seq<T>): seq<Files<T>>
  {
    var temp := TempPath(path);
    [fs, Put(fs, temp, Corrupt), Put(fs, temp, Doc(data)), Move(Put(fs, temp, Doc(data)), temp, path)]
  }

  /**
   * Crash atomicity: whichever state of the protocol a crash stops at, the target holds
   * either its previous contents or the complete new document, and the new document only
   * once the rename has happened. The three outcomes of `Written` are the last three states.
   */
  lemma CrashAtomicity<T>(fs: Files<T>, path: string, data: seq<T>, k: nat)
    requires k < |WriteStates(fs, path, data)|
    ensures k < 3 ==> At(WriteStates(fs, path, data)[k], path) == At(fs, path)
    ensures k == 3 ==> At(WriteStates(fs, path, data)[k], path) == Some(Doc(data))
    ensures Written(fs, path, data, TempWriteFails) == WriteStates(fs, path, data)[1]
    ensures Written(fs, path, data, RenameFails) == WriteStates(fs, path, data)[2]
    ensures Written(fs, path, data, NoFault) == WriteStates(fs, path, data)[3]
  {
    var temp := TempPath(path);
    assert temp != path by { assert |temp| == |path| + 4; }
  }

  /** The disk, whose files the store reads and replaces. */
  class Disk<T> {
    var files: Files<T>

    constructor (initial: Files<T>)
      ensures files == initial
    {
      files := initial;
    }

    /** `readData(path)`: never throws. */
    function ReadData(path: string): seq<T>
      reads this
    {
      Read(files, path)
    }

    /** `fs.writeFileSync(path, ...)`; when it fails the file is left partially written. */
    method WriteFileSync(path: string, data: seq<T>, fails: bool) returns (r: Outcome<IoError>)
      modifies this
      ensures r == if fails then Fail(WriteFailed(path)) else Pass
      ensures files == Put(old(files), path, if fails then Corrupt else Doc(data))
    {
      if fails {
        files := files[path := Corrupt];
        return Fail(WriteFailed(path));
      }
      files := files[path := Doc(data)];
      return Pass;
    }

    /** `fs.renameSync(from, to)`: fails, changing nothing, when `from` does not exist or the call fails. */
    method RenameSync(from: string, to: string, fails: bool) returns (r: Outcome<IoError>)
      modifies this
      ensures r.Pass? <==> !fails && from in old(files)
      ensures r.Pass? ==> from in old(files) && files == Move(old(files), from, to)
      ensures r.Fail? ==> r.error == RenameFailed(from, to) && files == old(files)
    {
      if fails || from !in files {
        return Fail(RenameFailed(from, to));
      }
      files := (files - {from})[to := files[from]];
      return Pass;
    }

    /** `writeData(path, data)`: temporary file first, then the rename; an error is re-thrown. */
    method WriteData(path: string, data: seq<T>, fault: Fault) returns (r: Outcome<IoError>)
      modifies this
      ensures files == Written(old(files), path, data, fault)
      ensures r == if fault == NoFault then Pass else Fail(WriteError(path, fault))
    {
      var temp := TempPath(path);
      r := WriteFileSync(temp, data, fault == TempWriteFails);
      if r.Fail? {
        return;
      }
      r := RenameSync(temp, path, fault == RenameFails);
    }
  }
}
