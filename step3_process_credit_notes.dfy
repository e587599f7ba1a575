/**
 * Stage 3: submit every credit-note request in `CreditNoteRequests/` to the
 * device the spreadsheet assigns to its relevant number, through the shared
 * submit state machine, writing `CreditNoteResponses/` and checkpointing
 * accepted keys in `processedCreditnotes.json`.
 */
module ProcessCreditNotes {
  import opened Wrappers
  import opened Text
  import opened Seqs
  import opened Store
  import opened Sheet
  import opened Device
  import opened Lookup
  import opened SubmitRecords

  /** `excelMap`: trim(B) to trim(C) for every row with both truthy, a later row overwriting an earlier one. */
  function ExcelDevices(sheet: Sheet): map<string, string> {
    Assign(DeviceEntries(DataRows(sheet)))
  }

  /** The relevant number a request file names, trimmed, as the device map keys it. */
  function TrimmedKey(file: string): string {
    Trim(RemoveFirst(file, JsonExt))
  }

  /** The name a file contributes to the device map: its trimmed relevant number, if it is a `.json` file. */
  function NameOf(file: string): Option<string> {
    if IsJson(file) then Some(TrimmedKey(file)) else None
  }

  function Names(files: seq<string>): (names: seq<Option<string>>)
    ensures |names| == |files|
  {
    seq(|files|, i requires 0 <= i < |files| => NameOf(files[i]))
  }

  /**
   * The device map of `buildRelevantNumberToDeviceMapFromRequests`, name by
   * name: a name with a non-empty device number in the spreadsheet maps to
   * that device number, trimmed.
   */
  function RequestDevices(excel: map<string, string>, names: seq<Option<string>>): map<string, string>
    decreases |names|
  {
    if names == [] then map[]
    else
      var m := RequestDevices(excel, names[..|names| - 1]);
      var name := names[|names| - 1];
      if name.Some? && name.value in excel && excel[name.value] != "" then m[name.value := Trim(excel[name.value])] else m
  }

  /** The device map holds exactly the spreadsheet's non-empty entries that some file names. */
  lemma {:induction false} RequestDevicesKeys(excel: map<string, string>, names: seq<Option<string>>)
    ensures forall k :: k in RequestDevices(excel, names) <==> k in excel && excel[k] != "" && Some(k) in names
    ensures forall k :: k in RequestDevices(excel, names) ==> RequestDevices(excel, names)[k] == Trim(excel[k])
    decreases |names|
  {
    if names != [] {
      var n := |names| - 1;
      RequestDevicesKeys(excel, names[..n]);
      assert names == names[..n] + [names[n]];
    }
  }

  /** The device map a run uses: empty without a spreadsheet. */
  function DeviceMap(sheet: Option<Sheet>, files: seq<string>): map<string, string> {
    if sheet.None? then map[] else RequestDevices(ExcelDevices(sheet.value), Names(files))
  }

  /** `buildRelevantNumberToDeviceMapFromRequests(files)`. */
  method BuildRelevantNumberToDeviceMapFromRequests(sheet: Option<Sheet>, files: seq<string>) returns (m: map<string, string>)
    ensures m == DeviceMap(sheet, files)
  {
    if sheet.None? {
      return map[];
    }
    var excel := DeviceColumns(DataRows(sheet.value));
    m := RequestColumns(excel, files);
  }

  /** The loop over the request files, looking each trimmed name up in `excelMap`. */
  method RequestColumns(excel: map<string, string>, files: seq<string>) returns (m: map<string, string>)
    ensures m == RequestDevices(excel, Names(files))
  {
    m := map[];
    for i := 0 to |files|
      invariant m == RequestDevices(excel, Names(files[..i]))
    {
      RequestDevicesStep(excel, files, i);
      var file := files[i];
      if IsJson(file) {
        var relevantNumber := Trim(RemoveFirst(file, JsonExt));
        if relevantNumber in excel && excel[relevantNumber] != "" {
          m := m[relevantNumber := Trim(excel[relevantNumber])];
        }
      }
    }
    assert files[..|files|] == files;
  }

  /** One more file adds its name's device, if the spreadsheet has a non-empty one, to the map so far. */
  lemma RequestDevicesStep(excel: map<string, string>, files: seq<string>, i: nat)
    requires i < |files|
    ensures var m := RequestDevices(excel, Names(files[..i]));
            var name := NameOf(files[i]);
            RequestDevices(excel, Names(files[..i + 1])) ==
              if name.Some? && name.value in excel && excel[name.value] != "" then m[name.value := Trim(excel[name.value])] else m
  {
    var names := Names(files[..i + 1]);
    assert names[..i] == Names(files[..i]);
    assert names[i] == NameOf(files[i]);
  }

  /**
   * A key of the device map is the trimmed name of a `.json` request file and a
   * column-B value of the spreadsheet, and its device number is the non-empty
   * column-C value of the last row with that relevant number.
   */
  lemma DeviceMapKeys(sheet: Sheet, files: seq<string>, k: string)
    requires k in DeviceMap(Some(sheet), files)
    ensures exists i :: 0 <= i < |files| && NameOf(files[i]) == Some(k)
    ensures DeviceMap(Some(sheet), files)[k] != ""
    ensures exists r :: 0 <= r < |DataRows(sheet)| &&
              DeviceEntry(DataRows(sheet)[r]) == Some((k, DeviceMap(Some(sheet), files)[k])) &&
              IsLast(DeviceEntries(DataRows(sheet)), r)
  {
    var rows := DataRows(sheet);
    var excel := ExcelDevices(sheet);
    var names := Names(files);
    RequestDevicesKeys(excel, names);
    var j :| 0 <= j < |names| && names[j] == Some(k);
    assert NameOf(files[j]) == Some(k);
    DeviceNumbersTrimmed(rows, k);
    assert DeviceMap(Some(sheet), files)[k] == excel[k];
    LastRowWins(rows, k);
    var r :| 0 <= r < |rows| && DeviceEntry(rows[r]) == Some((k, excel[k])) && IsLast(DeviceEntries(rows), r);
  }

  /** The setting of a run: the request directory, the snapshot, the device map and the device table. */
  function SettingOf(listing: seq<string>, requests: Dir, sheet: Option<Sheet>, devices: map<string, string>,
                     pinEnv: Option<string>, net: Network, st: State): Setting {
    var files := Filter(IsJson, listing);
    Setting(requests, ReadProcessed(st.processed), DeviceMap(sheet, files), devices, PinFromEnv(pinEnv), net)
  }

  /** `processCreditNotes`: `listing` is what `readdirSync` returns for the request directory. */
  method ProcessCreditNotes(listing: seq<string>, requests: Dir, sheet: Option<Sheet>, devices: map<string, string>,
                            pinEnv: Option<string>, net: Network, st: State)
    returns (st': State, verdicts: seq<Verdict>, sent: seq<HttpRequest>)
    ensures var files := Filter(IsJson, listing);
            var s := SettingOf(listing, requests, sheet, devices, pinEnv, net, st);
            && verdicts == Verdicts(s, files)
            && st'.responses == WriteAll(st.responses, Writes(s, files))
            && st'.processed == RecordAll(st.processed, Checkpoints(s, files))
            && sent == Traffic(s, files)
  {
    var files := Filter(IsJson, listing);
    var relevantNumberToDevice := BuildRelevantNumberToDeviceMapFromRequests(sheet, files);
    var processedCreditNotes := ReadProcessed(st.processed);
    var s := Setting(requests, processedCreditNotes, relevantNumberToDevice, devices, PinFromEnv(pinEnv), net);
    st', verdicts, sent := SubmitAll(s, files, st);
  }
}
