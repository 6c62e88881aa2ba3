/**
 * The write endpoint (terravision_write in terravision/app.py): a POST whose JSON
 * body maps each configuration file name to an object whose "value" is the new
 * content of that file.
 *
 * The handler visits three fixed names in a fixed order. A present name is
 * overwritten through write_file, an absent one only gets a warning in the log,
 * and the first failure ends the request with 400 or 500. Files written before
 * the failure stay written.
 */
module WriteEndpoint {
  import opened Wrappers
  import opened Json
  import opened FileStore

  /** The configuration files, in the order the handler visits them (the client's fileNames list is the same). */
  const ExpectedFiles: seq<string> := ["main.tf", "variables.tf", "terraform.tfvars"]

  const InvalidJson: string := "Invalid JSON data"
  /** The KeyError message for data[name]["value"]: str(KeyError('value')) quotes the key. */
  const MissingValue: string := "Missing required key: 'value'"

  /**
   * The request body as json.loads sees it: bytes that do not decode as text
   * (UnicodeDecodeError), text that is not JSON (JSONDecodeError), JSON that
   * goes past a limit of the parser (RecursionError for nesting deeper than the
   * recursion limit, ValueError for an integer literal with too many digits),
   * or a value.
   */
  datatype Payload = Undecodable | Unparseable | ParserLimit | Parsed(value: Json)

  /** The exception that ended in a 500 response. */
  datatype Cause =
    | NotText                                  // json.loads could not decode the body's bytes
    | ParserGaveUp                             // json.loads hit the recursion or integer-digit limit
    | NotAnObject                              // data.keys() on a body that is not an object
    | EntryNotSubscriptable(name: string)      // data[name]["value"] on an entry that is not an object
    | ValueNotSliceable(name: string)          // content[:100] on a value that is neither text nor a list
    | WriteFailed(name: string, error: Raised) // write_file re-raised

  /**
   * The handler's answer. InternalServerError is Flask's own 500 page, given
   * when an exception escapes the view function.
   */
  datatype Response = Success | BadRequest(msg: string) | ServerError(cause: Cause) | InternalServerError

  /** The disk after a request, the response, and the names a "missing expected file" warning was logged for, in order. */
  datatype Run = Run(disk: Disk, response: Response, warnings: seq<string>)

  function FaultFor(faults: map<string, IoFault>, name: string): IoFault
  {
    if name in faults then faults[name] else Healthy
  }

  /** The text an entry carries when it has the expected shape {"value": "<text>"}. */
  function Submitted(entry: Json): Option<string>
  {
    if entry.JObject? && "value" in entry.fields && entry.fields["value"].JString?
    then Some(entry.fields["value"].text)
    else None
  }

  /** The name passes the handler: it is absent, or its entry is well formed and its write goes through. */
  predicate Acceptable(data: map<string, Json>, faults: map<string, IoFault>, name: string)
  {
    name !in data || (Submitted(data[name]).Some? && FaultFor(faults, name).Healthy?)
  }

  /** After a request, the expected file `name` holds what the body sent for it, or, if absent, what it held before. */
  ghost predicate Landed(before: Disk, after: Disk, data: map<string, Json>, name: string)
  {
    if name in data then
      && Submitted(data[name]).Some?
      && DataPath(name) in after.files
      && after.files[DataPath(name)] == Submitted(data[name]).value
    else
      SameAt(before.files, after.files, DataPath(name))
  }

  /** The names among `names` that the body leaves out, in order: the warnings a successful request logs. */
  function Absent(names: seq<string>, data: map<string, Json>): seq<string>
  {
    if names == [] then []
    else (if names[0] in data then [] else [names[0]]) + Absent(names[1..], data)
  }

  /** A name is warned about exactly when it is expected and the body leaves it out. */
  lemma {:induction false} AbsentMembers(names: seq<string>, data: map<string, Json>)
    ensures forall n :: n in Absent(names, data) <==> n in names && n !in data
  {
    if names != [] {
      AbsentMembers(names[1..], data);
      assert forall n :: n in names <==> n == names[0] || n in names[1..];
    }
  }

  /** One present entry: the disk after it, and the failure response it raised, if any. */
  datatype Step = Step(disk: Disk, failure: Option<Response>)

  /** data[name]["value"], the content[:100] in the log line, then write_file. */
  function WriteEntry(disk: Disk, name: string, entry: Json, fault: IoFault): Step
  {
    match entry
    case JObject(fields) =>
      if "value" !in fields then Step(disk, Some(BadRequest(MissingValue)))
      else
        var content := fields["value"];
        if content.JScalar? || content.JObject? then Step(disk, Some(ServerError(ValueNotSliceable(name))))
        else
          var w := WriteFileSpec(disk, name, content, fault);
          Step(w.disk, if w.error.Some? then Some(ServerError(WriteFailed(name, w.error.value))) else None)
    case _ => Step(disk, Some(ServerError(EntryNotSubscriptable(name))))
  }

  /**
   * One present entry changes only its own file. It passes exactly when it is
   * {"value": <text>} and the write goes through, and then the file holds that
   * text. It is a 400 exactly when it is an object without "value", and then
   * nothing changes; every other failure is a 500.
   */
  lemma WriteEntryMeaning(disk: Disk, name: string, entry: Json, fault: IoFault)
    ensures var st := WriteEntry(disk, name, entry, fault);
      && (forall p :: p != DataPath(name) ==> SameAt(disk.files, st.disk.files, p))
      && (st.disk.dirs == disk.dirs || st.disk.dirs == disk.dirs + {DataDir})
      && (st.failure.None? <==> Submitted(entry).Some? && fault.Healthy?)
      && (st.failure.None? ==>
            DataPath(name) in st.disk.files && st.disk.files[DataPath(name)] == Submitted(entry).value)
      && (st.failure.Some? ==> !st.failure.value.Success?)
      && (st.failure.Some? && st.failure.value.BadRequest? <==> entry.JObject? && "value" !in entry.fields)
      && (st.failure.Some? && st.failure.value.BadRequest? ==> st.failure.value.msg == MissingValue && st.disk == disk)
  {
    if entry.JObject? && "value" in entry.fields {
      WriteFileMeaning(disk, name, entry.fields["value"], fault);
    }
  }

  /** The handler's loop over `names`, from the given disk. */
  function WriteAll(disk: Disk, data: map<string, Json>, names: seq<string>, faults: map<string, IoFault>): (r: Run)
    decreases |names|
    ensures r.disk.dirs == disk.dirs || r.disk.dirs == disk.dirs + {DataDir}
    ensures r.response.BadRequest? ==> r.response.msg == MissingValue
  {
    if names == [] then Run(disk, Success, [])
    else
      var name := names[0];
      if name !in data then
        var rest := WriteAll(disk, data, names[1..], faults);
        rest.(warnings := [name] + rest.warnings)
      else
        var st := WriteEntry(disk, name, data[name], FaultFor(faults, name));
        WriteEntryMeaning(disk, name, data[name], FaultFor(faults, name));
        if st.failure.Some? then Run(st.disk, st.failure.value, [])
        else WriteAll(st.disk, data, names[1..], faults)
  }

  /** terravision_write on a disk, a request body and the faults the disk would raise. */
  function Handle(disk: Disk, payload: Payload, faults: map<string, IoFault>): Run
  {
    match payload
    case Undecodable => Run(disk, ServerError(NotText), [])
    case Unparseable => Run(disk, BadRequest(InvalidJson), [])
    case ParserLimit => Run(disk, ServerError(ParserGaveUp), [])
    case Parsed(JObject(data)) => WriteAll(disk, data, ExpectedFiles, faults)
    case Parsed(_) => Run(disk, ServerError(NotAnObject), [])
  }

  function WithWarnings(ws: seq<string>, r: Run): Run
  {
    r.(warnings := ws + r.warnings)
  }

  /** Lines 120-124 of the handler for one present name, step by step against the shared disk. */
  method ProcessEntry(fs: FileSystem, name: string, entry: Json, fault: IoFault) returns (failure: Option<Response>)
    modifies fs
    ensures Step(fs.State(), failure) == WriteEntry(old(fs.State()), name, entry, fault)
  {
    if !entry.JObject? {
      return Some(ServerError(EntryNotSubscriptable(name)));
    }
    if "value" !in entry.fields {
      return Some(BadRequest(MissingValue));
    }
    var content := entry.fields["value"];
    if content.JScalar? || content.JObject? {
      return Some(ServerError(ValueNotSliceable(name)));
    }
    var error := WriteFile(fs, name, content, fault);
    if error.Some? {
      return Some(ServerError(WriteFailed(name, error.value)));
    }
    return None;
  }

  /** Prefixing warnings twice is prefixing them once, joined. */
  lemma WithWarningsTwice(earlier: seq<string>, later: seq<string>, r: Run)
    ensures WithWarnings(earlier, WithWarnings(later, r)) == WithWarnings(earlier + later, r)
  {
    assert earlier + (later + r.warnings) == (earlier + later) + r.warnings;
  }

  /** One pass of the loop body for names[i]: overwrite it if present, log a warning if absent. */
  method Visit(fs: FileSystem, data: map<string, Json>, names: seq<string>, i: nat, faults: map<string, IoFault>)
    returns (failure: Option<Response>, warned: seq<string>)
    requires i < |names|
    modifies fs
    ensures warned == (if names[i] in data then [] else [names[i]])
    ensures WriteAll(old(fs.State()), data, names[i..], faults)
         == if failure.Some? then Run(fs.State(), failure.value, [])
            else WithWarnings(warned, WriteAll(fs.State(), data, names[i + 1..], faults))
  {
    var name := names[i];
    assert names[i..][1..] == names[i + 1..];
    if name in data {
      failure := ProcessEntry(fs, name, data[name], FaultFor(faults, name));
      warned := [];
      assert [] + WriteAll(fs.State(), data, names[i + 1..], faults).warnings
          == WriteAll(fs.State(), data, names[i + 1..], faults).warnings;
    } else {
      failure, warned := None, [name];
    }
  }

  /** The loop of terravision_write over the given names, stopping at the first failure. */
  method WriteNames(fs: FileSystem, data: map<string, Json>, names: seq<string>, faults: map<string, IoFault>)
    returns (response: Response, warnings: seq<string>)
    modifies fs
    ensures Run(fs.State(), response, warnings) == WriteAll(old(fs.State()), data, names, faults)
  {
    warnings := [];
    var i := 0;
    while i < |names|
      invariant i <= |names|
      invariant WriteAll(old(fs.State()), data, names, faults)
             == WithWarnings(warnings, WriteAll(fs.State(), data, names[i..], faults))
    {
      var failure, warned := Visit(fs, data, names, i, faults);
      if failure.Some? {
        return failure.value, warnings;
      }
      WithWarningsTwice(warnings, warned, WriteAll(fs.State(), data, names[i + 1..], faults));
      warnings := warnings + warned;
      i := i + 1;
    }
    assert names[i..] == [];
    response := Success;
  }

  /** terravision_write, step by step against the shared disk. */
  method TerravisionWrite(fs: FileSystem, payload: Payload, faults: map<string, IoFault>)
    returns (response: Response, warnings: seq<string>)
    modifies fs
    ensures Run(fs.State(), response, warnings) == Handle(old(fs.State()), payload, faults)
  {
    if payload.Undecodable? {
      return ServerError(NotText), [];
    }
    if payload.ParserLimit? {
      return ServerError(ParserGaveUp), [];
    }
    if payload.Unparseable? {
      return BadRequest(InvalidJson), [];
    }
    if !payload.value.JObject? {
      return ServerError(NotAnObject), [];
    }
    response, warnings := WriteNames(fs, payload.value.fields, ExpectedFiles, faults);
  }

  // ---------------------------------------------------------------------------
  // Properties of the handler
  // ---------------------------------------------------------------------------

  /** The paths the three expected names are written to. */
  const ExpectedPaths: set<string> := set n | n in ExpectedFiles :: DataPath(n)

  ghost predicate NoDuplicates(names: seq<string>)
  {
    forall i, j :: 0 <= i < j < |names| ==> names[i] != names[j]
  }

  /** A path no present name maps to keeps its file, whatever the outcome of the loop. */
  lemma {:induction false} WriteAllFrame(disk: Disk, data: map<string, Json>, names: seq<string>,
                                         faults: map<string, IoFault>, p: string)
    requires forall n :: n in names && n in data ==> DataPath(n) != p
    decreases |names|
    ensures SameAt(disk.files, WriteAll(disk, data, names, faults).disk.files, p)
  {
    if names != [] {
      var name := names[0];
      if name !in data {
        WriteAllFrame(disk, data, names[1..], faults, p);
      } else {
        var st := WriteEntry(disk, name, data[name], FaultFor(faults, name));
        WriteEntryMeaning(disk, name, data[name], FaultFor(faults, name));
        if st.failure.None? {
          WriteAllFrame(st.disk, data, names[1..], faults, p);
        }
      }
    }
  }

  /** A name that is never both listed and present keeps its file, whatever the outcome of the loop. */
  lemma WriteAllKeeps(disk: Disk, data: map<string, Json>, names: seq<string>,
                      faults: map<string, IoFault>, name: string)
    requires forall n :: n in names && n in data ==> n != name
    ensures SameAt(disk.files, WriteAll(disk, data, names, faults).disk.files, DataPath(name))
  {
    forall n | n in names && n in data
      ensures DataPath(n) != DataPath(name)
    {
      DataPathInjective(n, name);
    }
    WriteAllFrame(disk, data, names, faults, DataPath(name));
  }

  /** A successful entry leaves the file of every other name as it was. */
  lemma WriteEntryKeeps(disk: Disk, name: string, entry: Json, fault: IoFault, other: string)
    requires other != name
    ensures SameAt(disk.files, WriteEntry(disk, name, entry, fault).disk.files, DataPath(other))
  {
    DataPathInjective(other, name);
    WriteEntryMeaning(disk, name, entry, fault);
  }

  /** The loop succeeds exactly when every name is absent, or well formed with a working disk. */
  lemma {:induction false} WriteAllSucceeds(disk: Disk, data: map<string, Json>, names: seq<string>,
                                            faults: map<string, IoFault>)
    decreases |names|
    ensures WriteAll(disk, data, names, faults).response == Success
        <==> forall n :: n in names ==> Acceptable(data, faults, n)
  {
    if names != [] {
      var name, tail := names[0], names[1..];
      assert forall n :: n in names <==> n == name || n in tail;
      if name !in data {
        WriteAllSucceeds(disk, data, tail, faults);
      } else {
        var st := WriteEntry(disk, name, data[name], FaultFor(faults, name));
        WriteEntryMeaning(disk, name, data[name], FaultFor(faults, name));
        if st.failure.None? {
          WriteAllSucceeds(st.disk, data, tail, faults);
        } else {
          assert !Acceptable(data, faults, name);
        }
      }
    }
  }

  /**
   * After a successful loop each present name holds its submitted text, each
   * absent name keeps its old file, and a warning was logged for each absent
   * name, in order.
   */
  lemma {:induction false} WriteAllSuccessLands(disk: Disk, data: map<string, Json>, names: seq<string>,
                                                faults: map<string, IoFault>)
    requires WriteAll(disk, data, names, faults).response == Success
    decreases |names|
    ensures var r := WriteAll(disk, data, names, faults);
      && (forall n :: n in names ==> Landed(disk, r.disk, data, n))
      && r.warnings == Absent(names, data)
  {
    if names != [] {
      var name, tail := names[0], names[1..];
      var r := WriteAll(disk, data, names, faults);
      assert forall n :: n in names <==> n == name || n in tail;
      if name !in data {
        WriteAllSuccessLands(disk, data, tail, faults);
        WriteAllKeeps(disk, data, tail, faults, name);
      } else {
        var st := WriteEntry(disk, name, data[name], FaultFor(faults, name));
        WriteEntryMeaning(disk, name, data[name], FaultFor(faults, name));
        WriteAllSuccessLands(st.disk, data, tail, faults);
        if name !in tail {
          WriteAllKeeps(st.disk, data, tail, faults, name);
        }
        forall n | n in tail && n !in data
          ensures Landed(disk, r.disk, data, n)
        {
          WriteEntryKeeps(disk, name, data[name], FaultFor(faults, name), n);
        }
      }
    }
  }

  /** The absent names among the first k: the first name's contribution, then the rest's. */
  lemma AbsentPrefix(names: seq<string>, k: nat, data: map<string, Json>)
    requires 0 < k <= |names|
    ensures Absent(names[..k], data)
         == (if names[0] in data then [] else [names[0]]) + Absent(names[1..][..k - 1], data)
  {
    assert names[..k][0] == names[0] && names[..k][1..] == names[1..][..k - 1];
  }

  /** The index of the first name that is present and does not pass, or |names| when there is none. */
  function FirstRejected(data: map<string, Json>, names: seq<string>, faults: map<string, IoFault>): (k: nat)
    ensures k <= |names|
    ensures forall j :: 0 <= j < k ==> Acceptable(data, faults, names[j])
    ensures k < |names| ==> !Acceptable(data, faults, names[k])
  {
    if names == [] then 0
    else if !Acceptable(data, faults, names[0]) then 0
    else 1 + FirstRejected(data, names[1..], faults)
  }

  /**
   * A failing loop stops at the first name k that does not pass: that name is
   * present, and the response is 400 exactly when its entry is an object
   * without "value".
   */
  lemma {:induction false} WriteAllStops(disk: Disk, data: map<string, Json>, names: seq<string>,
                                         faults: map<string, IoFault>)
    requires WriteAll(disk, data, names, faults).response != Success
    decreases |names|
    ensures var k, r := FirstRejected(data, names, faults), WriteAll(disk, data, names, faults);
      && k < |names| && names[k] in data
      && (r.response.BadRequest? <==> data[names[k]].JObject? && "value" !in data[names[k]].fields)
  {
    var name, tail := names[0], names[1..];
    if name !in data {
      WriteAllStops(disk, data, tail, faults);
    } else {
      var st := WriteEntry(disk, name, data[name], FaultFor(faults, name));
      WriteEntryMeaning(disk, name, data[name], FaultFor(faults, name));
      if st.failure.None? {
        WriteAllStops(st.disk, data, tail, faults);
      }
    }
  }

  /** A failing loop has logged the warnings of the absent names before the name it stopped at, and no others. */
  lemma {:induction false} WriteAllStopWarnings(disk: Disk, data: map<string, Json>, names: seq<string>,
                                                faults: map<string, IoFault>)
    requires WriteAll(disk, data, names, faults).response != Success
    decreases |names|
    ensures var k := FirstRejected(data, names, faults);
      k <= |names| && WriteAll(disk, data, names, faults).warnings == Absent(names[..k], data)
  {
    var name, tail := names[0], names[1..];
    var k := FirstRejected(data, names, faults);
    if name !in data {
      WriteAllStopWarnings(disk, data, tail, faults);
      AbsentPrefix(names, k, data);
    } else {
      var st := WriteEntry(disk, name, data[name], FaultFor(faults, name));
      WriteEntryMeaning(disk, name, data[name], FaultFor(faults, name));
      if st.failure.None? {
        WriteAllStopWarnings(st.disk, data, tail, faults);
        AbsentPrefix(names, k, data);
      }
    }
  }

  /** A name other than the one just written lands exactly when it lands from the disk after that write. */
  lemma LandedThroughEntry(disk: Disk, name: string, entry: Json, fault: IoFault,
                           after: Disk, data: map<string, Json>, n: string)
    requires n != name
    requires Landed(WriteEntry(disk, name, entry, fault).disk, after, data, n)
    ensures Landed(disk, after, data, n)
  {
    if n !in data {
      WriteEntryKeeps(disk, name, entry, fault, n);
    }
  }

  /** Writes done before a failure are not rolled back: each name before the failing one holds what success would leave. */
  lemma {:induction false} WriteAllFailureKeepsEarlier(disk: Disk, data: map<string, Json>, names: seq<string>,
                                                       faults: map<string, IoFault>)
    requires NoDuplicates(names)
    requires WriteAll(disk, data, names, faults).response != Success
    decreases |names|
    ensures var k, r := FirstRejected(data, names, faults), WriteAll(disk, data, names, faults);
      forall j :: 0 <= j < k ==> Landed(disk, r.disk, data, names[j])
  {
    var name, tail := names[0], names[1..];
    var r := WriteAll(disk, data, names, faults);
    var k := FirstRejected(data, names, faults);
    if name !in data {
      WriteAllFailureKeepsEarlier(disk, data, tail, faults);
      WriteAllKeeps(disk, data, tail, faults, name);
      assert forall j :: 0 < j < k ==> names[j] == tail[j - 1];
    } else {
      var st := WriteEntry(disk, name, data[name], FaultFor(faults, name));
      WriteEntryMeaning(disk, name, data[name], FaultFor(faults, name));
      if st.failure.None? {
        WriteAllFailureKeepsEarlier(st.disk, data, tail, faults);
        assert k == 1 + FirstRejected(data, tail, faults);
        forall j | 0 < j < k
          ensures Landed(disk, r.disk, data, names[j])
        {
          assert names[j] == tail[j - 1] && names[j] != names[0];
          LandedThroughEntry(disk, name, data[name], FaultFor(faults, name), r.disk, data, names[j]);
        }
        assert name !in tail;
        WriteAllKeeps(st.disk, data, tail, faults, name);
      }
    }
  }

  /** Names after the failing one are untouched, provided no name is listed twice. */
  lemma {:induction false} WriteAllFailureKeepsLater(disk: Disk, data: map<string, Json>, names: seq<string>,
                                                     faults: map<string, IoFault>)
    requires NoDuplicates(names)
    requires WriteAll(disk, data, names, faults).response != Success
    decreases |names|
    ensures var k, r := FirstRejected(data, names, faults), WriteAll(disk, data, names, faults);
      forall j :: k < j < |names| ==> SameAt(disk.files, r.disk.files, DataPath(names[j]))
  {
    var name, tail := names[0], names[1..];
    var r := WriteAll(disk, data, names, faults);
    var k := FirstRejected(data, names, faults);
    assert forall j :: 0 < j < |names| ==> names[j] == tail[j - 1] && names[j] != name;
    if name !in data {
      WriteAllFailureKeepsLater(disk, data, tail, faults);
    } else {
      var st := WriteEntry(disk, name, data[name], FaultFor(faults, name));
      WriteEntryMeaning(disk, name, data[name], FaultFor(faults, name));
      forall j | 0 < j < |names|
        ensures SameAt(disk.files, st.disk.files, DataPath(names[j]))
      {
        WriteEntryKeeps(disk, name, data[name], FaultFor(faults, name), names[j]);
      }
      if st.failure.None? {
        WriteAllFailureKeepsLater(st.disk, data, tail, faults);
      }
    }
  }

  /**
   * A body that is text but not JSON is a 400 "Invalid JSON data", and only
   * such a body is. Bytes that do not decode as text raise UnicodeDecodeError,
   * which no specific clause catches, so they are a 500; so is JSON past the
   * parser's recursion or integer-digit limit, and JSON that is not an object.
   * All of these end the request before the loop: the disk is unchanged and no
   * warning is logged.
   */
  lemma HandleMalformedBody(disk: Disk, payload: Payload, faults: map<string, IoFault>)
    ensures var r := Handle(disk, payload, faults);
      && (r.response == BadRequest(InvalidJson) <==> payload.Unparseable?)
      && (payload.Unparseable? ==> r.disk == disk && r.warnings == [])
      && (payload.Undecodable? ==> r == Run(disk, ServerError(NotText), []))
      && (payload.ParserLimit? ==> r == Run(disk, ServerError(ParserGaveUp), []))
      && (payload.Parsed? && !payload.value.JObject? ==> r == Run(disk, ServerError(NotAnObject), []))
  {
  }

  /**
   * terravision_write answers success exactly when the body is an object whose
   * expected entries are all absent or {"value": "<text>"} with a working disk.
   * Then each of the three files holds exactly the text sent for it, or, when
   * the body left it out, its old content, and one warning was logged per
   * missing name, in the fixed order.
   */
  lemma HandleSuccess(disk: Disk, payload: Payload, faults: map<string, IoFault>)
    ensures Handle(disk, payload, faults).response == Success
        <==> payload.Parsed? && payload.value.JObject?
             && forall n :: n in ExpectedFiles ==> Acceptable(payload.value.fields, faults, n)
    ensures var r := Handle(disk, payload, faults);
      r.response == Success ==>
        && (forall n :: n in ExpectedFiles ==> Landed(disk, r.disk, payload.value.fields, n))
        && r.warnings == Absent(ExpectedFiles, payload.value.fields)
  {
    if payload.Parsed? && payload.value.JObject? {
      WriteAllSucceeds(disk, payload.value.fields, ExpectedFiles, faults);
      if Handle(disk, payload, faults).response == Success {
        WriteAllSuccessLands(disk, payload.value.fields, ExpectedFiles, faults);
      }
    }
  }

  /**
   * Only data/main.tf, data/variables.tf and data/terraform.tfvars can change,
   * whatever the body says; extra keys are ignored. The only directory ever
   * created is "data".
   */
  lemma HandleOnlyWritesExpectedFiles(disk: Disk, payload: Payload, faults: map<string, IoFault>, p: string)
    requires p !in ExpectedPaths
    ensures SameAt(disk.files, Handle(disk, payload, faults).disk.files, p)
    ensures var r := Handle(disk, payload, faults);
      r.disk.dirs == disk.dirs || r.disk.dirs == disk.dirs + {DataDir}
  {
    if payload.Parsed? && payload.value.JObject? {
      WriteAllFrame(disk, payload.value.fields, ExpectedFiles, faults, p);
    }
  }

  /** A name the body leaves out keeps its file, whether the request succeeds or fails. */
  lemma HandleAbsentFileUntouched(disk: Disk, payload: Payload, faults: map<string, IoFault>, name: string)
    requires payload.Parsed? && payload.value.JObject? && name !in payload.value.fields
    ensures SameAt(disk.files, Handle(disk, payload, faults).disk.files, DataPath(name))
  {
    WriteAllKeeps(disk, payload.value.fields, ExpectedFiles, faults, name);
  }

  /**
   * A failed request is not rolled back. It stops at the first expected name k
   * whose entry is present and bad, or whose write failed; the names before k
   * hold what a successful request would have left, the names after k are
   * untouched, the response is 400 "Missing required key" exactly when k's
   * entry is an object without "value" and a 500 otherwise, and the warnings
   * are those of the missing names before k.
   */
  lemma HandleFailureKeepsEarlierWrites(disk: Disk, payload: Payload, faults: map<string, IoFault>)
    requires payload.Parsed? && payload.value.JObject?
    requires Handle(disk, payload, faults).response != Success
    ensures var data, r := payload.value.fields, Handle(disk, payload, faults);
      var k := FirstRejected(data, ExpectedFiles, faults);
      && k < |ExpectedFiles| && ExpectedFiles[k] in data
      && (forall j :: 0 <= j < k ==> Landed(disk, r.disk, data, ExpectedFiles[j]))
      && (forall j :: k < j < |ExpectedFiles| ==> SameAt(disk.files, r.disk.files, DataPath(ExpectedFiles[j])))
      && (r.response.BadRequest? <==> data[ExpectedFiles[k]].JObject? && "value" !in data[ExpectedFiles[k]].fields)
      && (r.response.BadRequest? ==> r.response.msg == MissingValue)
      && r.warnings == Absent(ExpectedFiles[..k], data)
  {
    var data := payload.value.fields;
    assert NoDuplicates(ExpectedFiles);
    WriteAllStops(disk, data, ExpectedFiles, faults);
    WriteAllStopWarnings(disk, data, ExpectedFiles, faults);
    WriteAllFailureKeepsEarlier(disk, data, ExpectedFiles, faults);
    WriteAllFailureKeepsLater(disk, data, ExpectedFiles, faults);
  }

  // ---------------------------------------------------------------------------
  // The except clauses as written
  // ---------------------------------------------------------------------------

  /**
   * terravision_write with its except clauses as written. The module `json` in
   * the handler is flask.json, which has no JSONDecodeError. So once the try
   * body raises, evaluating the first except clause raises AttributeError,
   * which escapes the view, and Flask answers with its own 500 page. What the
   * try body did before it raised (files written, warnings logged) stays.
   */
  function HandleAsWritten(disk: Disk, payload: Payload, faults: map<string, IoFault>): Run
  {
    var intended := Handle(disk, payload, faults);
    if intended.response.Success? then intended else intended.(response := InternalServerError)
  }

  /**
   * As written, the handler never answers 400 and never gives its own error
   * message: a body that is not JSON, which the clauses mean to answer with
   * 400 "Invalid JSON data", gets Flask's 500 page. Success and the effects on
   * the disk are those of the intended handler.
   */
  lemma AsWrittenHasNoClientErrors(disk: Disk, payload: Payload, faults: map<string, IoFault>)
    ensures var w, r := HandleAsWritten(disk, payload, faults), Handle(disk, payload, faults);
      && w.disk == r.disk && w.warnings == r.warnings
      && (w.response.Success? <==> r.response.Success?)
      && (!w.response.Success? ==> w.response == InternalServerError)
    ensures HandleAsWritten(disk, Unparseable, faults).response == InternalServerError
    ensures Handle(disk, Unparseable, faults).response == BadRequest(InvalidJson)
  {
  }
}
