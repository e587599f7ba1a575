/**
 * Stage 5: submit every correct invoice in `CorrectInvoices/` to the device the
 * spreadsheet assigns to its relevant number, through the shared submit state
 * machine, writing `CorrectInvoiceResponses/` and checkpointing accepted keys in
 * `processedCorrectInvoices.json`.
 */
module ProcessCorrectInvoices {
  import opened Wrappers
  import opened Text
  import opened Seqs
  import opened Store
  import opened Sheet
  import opened Device
  import opened Lookup
  import opened SubmitRecords

  /** The device map of a run: every data row with truthy B and C, last row winning; empty without a spreadsheet. */
  function DeviceMap(sheet: Option<Sheet>): map<string, string> {
    if sheet.None? then map[] else Assign(DeviceEntries(DataRows(sheet.value)))
  }

  /**
   * `buildRelevantNumberToDeviceMap(files)`: the file list it receives plays no
   * part, so the map is not restricted to the invoices present.
   */
  method BuildRelevantNumberToDeviceMap(sheet: Option<Sheet>) returns (m: map<string, string>)
    ensures m == DeviceMap(sheet)
  {
    if sheet.None? {
      return map[];
    }
    m := DeviceColumns(DataRows(sheet.value));
  }

  /**
   * A relevant number is in the device map exactly when some data row has truthy
   * B and C cells and trims B to it; its device number is the trimmed C of the
   * last such row.
   */
  lemma DeviceMapRows(sheet: Sheet, k: string)
    ensures k in DeviceMap(Some(sheet)) <==>
              exists r :: 0 <= r < |DataRows(sheet)| && DeviceEntry(DataRows(sheet)[r]).Some? && DeviceEntry(DataRows(sheet)[r]).value.0 == k
    ensures k in DeviceMap(Some(sheet)) ==>
              exists r :: 0 <= r < |DataRows(sheet)| &&
                DeviceEntry(DataRows(sheet)[r]) == Some((k, DeviceMap(Some(sheet))[k])) &&
                IsLast(DeviceEntries(DataRows(sheet)), r)
  {
    var rows := DataRows(sheet);
    var entries := DeviceEntries(rows);
    DeviceTable(rows);
    if k in Assign(entries) {
      LastRowWins(rows, k);
    }
    if exists r :: 0 <= r < |rows| && DeviceEntry(rows[r]).Some? && DeviceEntry(rows[r]).value.0 == k {
      var r :| 0 <= r < |rows| && DeviceEntry(rows[r]).Some? && DeviceEntry(rows[r]).value.0 == k;
      assert entries[r] == DeviceEntry(rows[r]);
    }
  }

  /** The setting of a run: the invoice directory, the snapshot, the device map and the device table. */
  function SettingOf(invoices: Dir, sheet: Option<Sheet>, devices: map<string, string>,
                     pinEnv: Option<string>, net: Network, st: State): Setting {
    Setting(invoices, ReadProcessed(st.processed), DeviceMap(sheet), devices, PinFromEnv(pinEnv), net)
  }

  /** `processCorrectInvoices`: `listing` is what `readdirSync` returns for the correct-invoice directory. */
  method ProcessCorrectInvoices(listing: seq<string>, invoices: Dir, sheet: Option<Sheet>, devices: map<string, string>,
                                pinEnv: Option<string>, net: Network, st: State)
    returns (st': State, verdicts: seq<Verdict>, sent: seq<HttpRequest>)
    ensures var files := Filter(IsJson, listing);
            var s := SettingOf(invoices, sheet, devices, pinEnv, net, st);
            && verdicts == Verdicts(s, files)
            && st'.responses == WriteAll(st.responses, Writes(s, files))
            && st'.processed == RecordAll(st.processed, Checkpoints(s, files))
            && sent == Traffic(s, files)
  {
    var files := Filter(IsJson, listing);
    var relevantNumberToDevice := BuildRelevantNumberToDeviceMap(sheet);
    var processedCorrectInvoices := ReadProcessed(st.processed);
    var s := Setting(invoices, processedCorrectInvoices, relevantNumberToDevice, devices, PinFromEnv(pinEnv), net);
    st', verdicts, sent := SubmitAll(s, files, st);
  }

  /**
   * Running stage 5 twice with the same inputs and device behaviour: the second
   * run skips every invoice the first run accepted, sends nothing for it, and
   * checkpoints no key the first run left in the file.
   */
  lemma RerunAddsNoCheckpoints(listing: seq<string>, invoices: Dir, sheet: Option<Sheet>, devices: map<string, string>,
                               pinEnv: Option<string>, net: Network, st: State, responses: Dir)
    ensures var files := Filter(IsJson, listing);
            var s1 := SettingOf(invoices, sheet, devices, pinEnv, net, st);
            var p1 := RecordAll(st.processed, Checkpoints(s1, files));
            var s2 := SettingOf(invoices, sheet, devices, pinEnv, net, State(responses, p1));
            && (forall i :: 0 <= i < |files| && Process(s1, files[i]).verdict.Accepted? ==>
                  Process(s2, files[i]).verdict.AlreadyProcessed? && Process(s2, files[i]).sent == [])
            && (forall k :: k in Checkpoints(s2, files) ==> k !in ReadProcessed(p1))
            && ReadProcessed(p1) <= ReadProcessed(RecordAll(p1, Checkpoints(s2, files)))
  {
    var files := Filter(IsJson, listing);
    var s1 := SettingOf(invoices, sheet, devices, pinEnv, net, st);
    var p1 := RecordAll(st.processed, Checkpoints(s1, files));
    var s2 := SettingOf(invoices, sheet, devices, pinEnv, net, State(responses, p1));
    SecondRun(s1, files, st);
    CheckpointsAreAccepted(s2, files);
  }
}
