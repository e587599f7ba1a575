/**
 * Stage 1: for every relevant number in column B of the spreadsheet, verify the
 * PIN of the device configured under that number and fetch the original
 * invoice's transaction from it into `ItemResponses/${number}.json`. Every number
 * it attempts, failures included, is checkpointed in `processedNumbers.json`.
 */
module FetchItems {
  import opened Wrappers
  import opened Json
  import opened Store
  import opened Sheet
  import opened Device

  datatype Verdict =
    | AlreadyProcessed            // number in the checkpoint snapshot: no effect at all
    | NoDevice                    // no address under the number itself in `config.devices`
    | PinThrew(message: string)
    | PinRefused(reply: Json)     // PIN reply other than "0100"
    | FetchThrew(message: string)
    | Fetched(data: Json)         // `response.data` of the transaction request

  /** The verdict for one number and the requests sent for it, in order. */
  datatype Attempt = Attempt(verdict: Verdict, sent: seq<HttpRequest>)

  /** What the stage fixes before its loop: the checkpoint snapshot, the device table, the PIN and the devices' answers. */
  datatype Setting = Setting(snapshot: seq<string>, devices: map<string, string>, pin: string, net: Network)

  /** `ItemResponses/` and `processedNumbers.json`. */
  datatype State = State(responses: Dir, processed: CheckpointFile)

  const NoDeviceMessage: string := "Device IP not found for this invoice number"
  const PinFailedPrefix: string := "PIN verification failed: "
  const InvalidPinMessage: string := "Invalid pin verification"

  function PinRequest(ip: string, pin: string): HttpRequest {
    PostText("http://" + ip + ":8086/api/v3/pin", pin)
  }

  function FetchRequest(ip: string, number: string): HttpRequest {
    Get(ip + "transactions/" + number)
  }

  /** The fetch request went out. */
  predicate Fetching(v: Verdict) {
    v.FetchThrew? || v.Fetched?
  }

  /** One iteration of the loop over the relevant numbers. */
  function Process(s: Setting, number: string): (a: Attempt)
    ensures a.verdict.AlreadyProcessed? <==> number in s.snapshot
    ensures a.verdict.NoDevice? <==> number !in s.snapshot && Resolve(s.devices, number).None?
    ensures a.sent == [] <==> a.verdict.AlreadyProcessed? || a.verdict.NoDevice?
    // the PIN gate: the transaction is requested only after the device answered "0100"
    ensures forall r :: r in a.sent && r.Get? ==> Fetching(a.verdict)
  {
    if number in s.snapshot then Attempt(AlreadyProcessed, [])
    else match Resolve(s.devices, number)
      case None => Attempt(NoDevice, [])
      case Some(ip) =>
        var pinRequest := PinRequest(ip, s.pin);
        match s.net(number, pinRequest)
        case Threw(message) => Attempt(PinThrew(message), [pinRequest])
        case Answered(reply) =>
          if !PinVerified(reply) then Attempt(PinRefused(reply), [pinRequest])
          else
            var fetchRequest := FetchRequest(ip, number);
            match s.net(number, fetchRequest)
            case Threw(message) => Attempt(FetchThrew(message), [pinRequest, fetchRequest])
            case Answered(data) => Attempt(Fetched(data), [pinRequest, fetchRequest])
  }

  /**
   * The device protocol of one number: the PIN request goes first, its answer
   * decides between a PIN failure and the fetch, and the verdict is the device's
   * answer to the fetch.
   */
  lemma ProcessFollowsDevice(s: Setting, number: string)
    ensures var a := Process(s, number);
            var ip := Resolve(s.devices, number);
            // the PIN exchange: the first request, and what its answer decides
            && (a.sent != [] ==> a.sent[0] == PinRequest(ip.value, s.pin))
            && (a.sent != [] ==> (a.verdict.PinThrew? <==> s.net(number, a.sent[0]).Threw?))
            && (a.verdict.PinThrew? ==> |a.sent| == 1 && s.net(number, a.sent[0]) == Threw(a.verdict.message))
            && (a.verdict.PinRefused? ==>
                  |a.sent| == 1 && s.net(number, a.sent[0]) == Answered(a.verdict.reply) && !PinVerified(a.verdict.reply))
            // the PIN gate, both ways: the transaction is requested exactly when the device answered "0100"
            && (a.sent != [] ==> (Fetching(a.verdict) <==> s.net(number, a.sent[0]) == Answered(Str(PinSuccess))))
            // the fetch, and the verdict is the device's answer to it
            && (Fetching(a.verdict) ==>
                  && |a.sent| == 2
                  && a.sent[1] == FetchRequest(ip.value, number)
                  && s.net(number, a.sent[1]) == (if a.verdict.FetchThrew? then Threw(a.verdict.message) else Answered(a.verdict.data)))
  {
  }

  /** The file an attempted number writes: always `${number}.json`, the transaction or an `{error}` document. */
  function Artifact(number: string, v: Verdict): (w: Option<(string, Json)>)
    ensures w.None? <==> v.AlreadyProcessed?
    ensures w.Some? ==> w.value.0 == number + ".json"
    ensures v.Fetched? ==> w == Some((number + ".json", v.data))
    ensures w.Some? && !v.Fetched? ==> w.value.1.Obj? && "error" in w.value.1.fields
    ensures v.NoDevice? ==> w == Some((number + ".json", ErrorDoc(NoDeviceMessage)))
    ensures v.PinThrew? ==> w == Some((number + ".json", ErrorDoc(PinFailedPrefix + v.message)))
    ensures v.PinRefused? ==> w == Some((number + ".json", ErrorDoc(InvalidPinMessage)))
    ensures v.FetchThrew? ==> w == Some((number + ".json", ErrorDoc(v.message)))
  {
    var name := number + ".json";
    match v
    case AlreadyProcessed => None
    case NoDevice => Some((name, ErrorDoc(NoDeviceMessage)))
    case PinThrew(message) => Some((name, ErrorDoc(PinFailedPrefix + message)))
    case PinRefused(_) => Some((name, ErrorDoc(InvalidPinMessage)))
    case FetchThrew(message) => Some((name, ErrorDoc(message)))
    case Fetched(data) => Some((name, data))
  }

  function ArtifactOf(s: Setting, number: string): Option<(string, Json)> {
    Artifact(number, Process(s, number).verdict)
  }

  function Writes(s: Setting, numbers: seq<string>): seq<(string, Json)> {
    Collect(number => ArtifactOf(s, number), numbers)
  }

  /** Every number that is not skipped is checkpointed, whatever its outcome. */
  function Checkpoints(s: Setting, numbers: seq<string>): seq<string>
    decreases |numbers|
  {
    if numbers == [] then []
    else
      var number := numbers[|numbers| - 1];
      Checkpoints(s, numbers[..|numbers| - 1]) + (if number !in s.snapshot then [number] else [])
  }

  function Traffic(s: Setting, numbers: seq<string>): seq<HttpRequest>
    decreases |numbers|
  {
    if numbers == [] then []
    else Traffic(s, numbers[..|numbers| - 1]) + Process(s, numbers[|numbers| - 1]).sent
  }

  /** The verdicts of the numbers, in order. */
  function Verdicts(s: Setting, numbers: seq<string>): (vs: seq<Verdict>)
    ensures |vs| == |numbers|
    ensures forall i :: 0 <= i < |numbers| ==> vs[i] == Process(s, numbers[i]).verdict
  {
    seq(|numbers|, i requires 0 <= i < |numbers| => Process(s, numbers[i]).verdict)
  }

  /** The relevant numbers a sheet yields: the truthy column-B cells below the header; none without a sheet. */
  function Numbers(sheet: Option<Sheet>): seq<string> {
    if sheet.None? then [] else NonEmptyCells(DataRows(sheet.value), ColB)
  }

  /** The setting of a run that starts from `st` (the snapshot is read once, before the loop). */
  function SettingOf(st: State, devices: map<string, string>, pinEnv: Option<string>, net: Network): Setting {
    Setting(ReadProcessed(st.processed), devices, PinFromEnv(pinEnv), net)
  }

  /** The column-B loop of `fetchInvoiceItems`. */
  method RelevantNumbers(rows: seq<Row>) returns (numbers: seq<string>)
    ensures numbers == NonEmptyCells(rows, ColB)
  {
    numbers := [];
    for i := 0 to |rows|
      invariant numbers == NonEmptyCells(rows[..i], ColB)
    {
      assert rows[..i + 1][..i] == rows[..i];
      var cell := Cell(rows[i], ColB);
      if cell.Some? {
        numbers := numbers + [cell.value];
      }
    }
    assert rows[..|rows|] == rows;
  }

  /** One iteration of the loop body. */
  method FetchOne(s: Setting, number: string, st: State) returns (st': State, verdict: Verdict, sent: seq<HttpRequest>)
    ensures verdict == Process(s, number).verdict && sent == Process(s, number).sent
    ensures st'.responses == WriteAll(st.responses, ToSeq(ArtifactOf(s, number)))
    ensures st'.processed == if number !in s.snapshot then WriteProcessed(st.processed, number) else st.processed
  {
    if number in s.snapshot {
      return st, AlreadyProcessed, [];
    }
    WriteOne(st.responses, ArtifactOf(s, number).value);
    var name := number + ".json";
    var ip := Resolve(s.devices, number);
    if ip.None? {
      st' := st.(responses := st.responses[name := Parsed(ErrorDoc(NoDeviceMessage))]);
      st' := st'.(processed := WriteProcessed(st'.processed, number));
      return st', NoDevice, [];
    }
    var pinRequest := PinRequest(ip.value, s.pin);
    var pinResult := s.net(number, pinRequest);
    sent := [pinRequest];
    if pinResult.Threw? {
      st' := st.(responses := st.responses[name := Parsed(ErrorDoc(PinFailedPrefix + pinResult.message))]);
      st' := st'.(processed := WriteProcessed(st'.processed, number));
      return st', PinThrew(pinResult.message), sent;
    }
    if !PinVerified(pinResult.data) {
      st' := st.(responses := st.responses[name := Parsed(ErrorDoc(InvalidPinMessage))]);
      st' := st'.(processed := WriteProcessed(st'.processed, number));
      return st', PinRefused(pinResult.data), sent;
    }
    var fetchRequest := FetchRequest(ip.value, number);
    var result := s.net(number, fetchRequest);
    sent := sent + [fetchRequest];
    match result {
      case Answered(data) =>
        st' := st.(responses := st.responses[name := Parsed(data)]);
        verdict := Fetched(data);
      case Threw(message) =>
        st' := st.(responses := st.responses[name := Parsed(ErrorDoc(message))]);
        verdict := FetchThrew(message);
    }
    st' := st'.(processed := WriteProcessed(st'.processed, number));
  }

  /** The four folds over `numbers[..i + 1]` extend those over `numbers[..i]` by number `i`. */
  lemma StepFolds(s: Setting, numbers: seq<string>, i: nat)
    requires i < |numbers|
    ensures var number := numbers[i];
            && Writes(s, numbers[..i + 1]) == Writes(s, numbers[..i]) + ToSeq(ArtifactOf(s, number))
            && Checkpoints(s, numbers[..i + 1]) == Checkpoints(s, numbers[..i]) + (if number !in s.snapshot then [number] else [])
            && Traffic(s, numbers[..i + 1]) == Traffic(s, numbers[..i]) + Process(s, number).sent
            && Verdicts(s, numbers[..i + 1]) == Verdicts(s, numbers[..i]) + [Process(s, number).verdict]
  {
    CollectStep(number => ArtifactOf(s, number), numbers, i);
    RecursiveFoldsStep(s, numbers, i);
    VerdictsStep(s, numbers, i);
  }

  lemma RecursiveFoldsStep(s: Setting, numbers: seq<string>, i: nat)
    requires i < |numbers|
    ensures Checkpoints(s, numbers[..i + 1]) == Checkpoints(s, numbers[..i]) + (if numbers[i] !in s.snapshot then [numbers[i]] else [])
    ensures Traffic(s, numbers[..i + 1]) == Traffic(s, numbers[..i]) + Process(s, numbers[i]).sent
  {
    assert numbers[..i + 1][..i] == numbers[..i];
  }

  lemma VerdictsStep(s: Setting, numbers: seq<string>, i: nat)
    requires i < |numbers|
    ensures Verdicts(s, numbers[..i + 1]) == Verdicts(s, numbers[..i]) + [Process(s, numbers[i]).verdict]
  {
    assert numbers[..i + 1][..i] == numbers[..i];
  }

  /** `fetchInvoiceItems`: nothing happens without a sheet or without relevant numbers. */
  method FetchInvoiceItems(sheet: Option<Sheet>, devices: map<string, string>, pinEnv: Option<string>, net: Network, st: State)
    returns (st': State, verdicts: seq<Verdict>, sent: seq<HttpRequest>)
    ensures var s := SettingOf(st, devices, pinEnv, net);
            && verdicts == Verdicts(s, Numbers(sheet))
            && st'.responses == WriteAll(st.responses, Writes(s, Numbers(sheet)))
            && st'.processed == RecordAll(st.processed, Checkpoints(s, Numbers(sheet)))
            && sent == Traffic(s, Numbers(sheet))
  {
    if sheet.None? {
      return st, [], [];
    }
    var numbers := RelevantNumbers(DataRows(sheet.value));
    if |numbers| == 0 {
      return st, [], [];
    }
    var s := Setting(ReadProcessed(st.processed), devices, PinFromEnv(pinEnv), net);
    st', verdicts, sent := FetchAll(s, numbers, st);
  }

  /** The loop over the relevant numbers. */
  method FetchAll(s: Setting, numbers: seq<string>, st: State) returns (st': State, verdicts: seq<Verdict>, sent: seq<HttpRequest>)
    ensures verdicts == Verdicts(s, numbers)
    ensures st'.responses == WriteAll(st.responses, Writes(s, numbers))
    ensures st'.processed == RecordAll(st.processed, Checkpoints(s, numbers))
    ensures sent == Traffic(s, numbers)
  {
    st', verdicts, sent := st, [], [];
    for i := 0 to |numbers|
      invariant verdicts == Verdicts(s, numbers[..i])
      invariant st'.responses == WriteAll(st.responses, Writes(s, numbers[..i]))
      invariant st'.processed == RecordAll(st.processed, Checkpoints(s, numbers[..i]))
      invariant sent == Traffic(s, numbers[..i])
    {
      StepFolds(s, numbers, i);
      ghost var writes, keys := Writes(s, numbers[..i]), Checkpoints(s, numbers[..i]);
      var verdict, now;
      st', verdict, now := FetchOne(s, numbers[i], st');
      WriteAllSnocOpt(st.responses, writes, ArtifactOf(s, numbers[i]));
      RecordAllSnocIf(st.processed, keys, numbers[i], numbers[i] !in s.snapshot);
      verdicts, sent := verdicts + [verdict], sent + now;
    }
    assert numbers[..|numbers|] == numbers;
  }

  /**
   * The device answers the fetch of a number: the number is not in the snapshot,
   * its device has an address, the device answered "0100" to the PIN request and
   * answered (did not throw on) the transaction request.
   */
  predicate DeviceAnswers(s: Setting, number: string) {
    && number !in s.snapshot
    && Resolve(s.devices, number).Some?
    && var ip := Resolve(s.devices, number).value;
       && s.net(number, PinRequest(ip, s.pin)) == Answered(Str(PinSuccess))
       && s.net(number, FetchRequest(ip, number)).Answered?
  }

  /** A number is fetched exactly when the device answers it, and its file then holds the device's answer. */
  lemma FetchedIffDeviceAnswers(s: Setting, number: string)
    ensures Process(s, number).verdict.Fetched? <==> DeviceAnswers(s, number)
    ensures DeviceAnswers(s, number) ==>
              ArtifactOf(s, number) == Some((number + ".json", s.net(number, FetchRequest(Resolve(s.devices, number).value, number)).data))
  {
    var a := Process(s, number);
    ProcessFollowsDevice(s, number);
    if DeviceAnswers(s, number) {
      assert a.sent != [];
      assert Fetching(a.verdict);
    }
  }

  /** A number is checkpointed by a run exactly when it is one of the run's numbers and was not checkpointed before. */
  lemma {:induction false} CheckpointsAreAttempted(s: Setting, numbers: seq<string>)
    ensures forall k :: k in Checkpoints(s, numbers) <==> k in numbers && k !in s.snapshot
  {
    if numbers != [] {
      var n := |numbers| - 1;
      CheckpointsAreAttempted(s, numbers[..n]);
      assert numbers == numbers[..n] + [numbers[n]];
    }
  }

  /**
   * After a run the checkpoint file holds exactly the old keys and the run's
   * numbers, and every number the run attempted has its `${number}.json`.
   */
  lemma RunCoverage(s: Setting, numbers: seq<string>, st: State)
    requires s.snapshot == ReadProcessed(st.processed)
    ensures forall k :: k in ReadProcessed(RecordAll(st.processed, Checkpoints(s, numbers))) <==> k in s.snapshot || k in numbers
    ensures forall k :: k in numbers && k !in s.snapshot ==> k + ".json" in WriteAll(st.responses, Writes(s, numbers))
  {
    RecordAllAppends(st.processed, Checkpoints(s, numbers));
    CheckpointsAreAttempted(s, numbers);
    forall k | k in numbers && k !in s.snapshot
      ensures k + ".json" in WriteAll(st.responses, Writes(s, numbers))
    {
      var i :| 0 <= i < |numbers| && numbers[i] == k;
      CollectWritten(st.responses, number => ArtifactOf(s, number), numbers, i);
    }
  }

  /** Once a number is in the run's checkpoint snapshot, the run neither writes, checkpoints nor sends anything for it. */
  lemma {:induction false} AllCheckpointed(s: Setting, numbers: seq<string>)
    requires forall k :: k in numbers ==> k in s.snapshot
    ensures Writes(s, numbers) == [] && Checkpoints(s, numbers) == [] && Traffic(s, numbers) == []
  {
    if numbers != [] {
      var n := |numbers| - 1;
      assert numbers == numbers[..n] + [numbers[n]];
      AllCheckpointed(s, numbers[..n]);
    }
  }

  /**
   * Running stage 1 a second time on the same sheet changes nothing and sends
   * nothing: the first run checkpointed every relevant number, failures included.
   */
  lemma SecondRunIsQuiet(sheet: Option<Sheet>, devices: map<string, string>, pinEnv: Option<string>, net: Network, st: State)
    ensures var s1 := SettingOf(st, devices, pinEnv, net);
            var st1 := State(WriteAll(st.responses, Writes(s1, Numbers(sheet))), RecordAll(st.processed, Checkpoints(s1, Numbers(sheet))));
            var s2 := SettingOf(st1, devices, pinEnv, net);
            && Writes(s2, Numbers(sheet)) == [] && Checkpoints(s2, Numbers(sheet)) == [] && Traffic(s2, Numbers(sheet)) == []
            && forall i :: 0 <= i < |Numbers(sheet)| ==> Verdicts(s2, Numbers(sheet))[i] == AlreadyProcessed
  {
    var numbers := Numbers(sheet);
    var s1 := SettingOf(st, devices, pinEnv, net);
    RunCoverage(s1, numbers, st);
    var p1 := RecordAll(st.processed, Checkpoints(s1, numbers));
    var s2 := SettingOf(State(WriteAll(st.responses, Writes(s1, numbers)), p1), devices, pinEnv, net);
    assert s2.snapshot == ReadProcessed(p1);
    assert forall k :: k in numbers ==> k in s2.snapshot;
    AllCheckpointed(s2, numbers);
    forall i | 0 <= i < |numbers|
      ensures Verdicts(s2, numbers)[i] == AlreadyProcessed
    {
      assert numbers[i] in s2.snapshot;
    }
  }
}
