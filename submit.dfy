/**
 * The per-record submit state machine that stage 3 (credit notes) and stage 5
 * (correct invoices) run over the `.json` files of their input directory: skip a
 * checkpointed key, skip an unparseable file, resolve the device, verify the PIN,
 * submit the document, and write exactly one artifact; only a response that has
 * its own `mtn` writes the success artifact and checkpoints the key.
 */
module SubmitRecords {
  import opened Wrappers
  import opened Json
  import opened Text
  import opened Store
  import opened Device

  /** The terminal state one file reaches. */
  datatype Verdict =
    | AlreadyProcessed          // key in the checkpoint snapshot: no effect at all
    | Unparseable               // JSON.parse threw: logged, no artifact
    | NoDevice                  // no device address: error artifact
    | PinThrew(message: string) // PIN call threw: error artifact
    | PinRefused(reply: Json)   // PIN reply other than "0100": error artifact
    | SubmitThrew(message: string) // submit threw: `{error: message}` artifact
    | Rejected(body: Json)      // response without `mtn`: raw body as error artifact
    | Accepted(body: Json)      // response with `mtn`: success artifact, then checkpoint

  /** The verdict for one file and the requests sent to the device for it, in order. */
  datatype Attempt = Attempt(verdict: Verdict, sent: seq<HttpRequest>)

  /** What a stage invocation fixes before its loop. */
  datatype Setting = Setting(
    requests: Dir,                  // the input directory
    snapshot: seq<string>,          // the checkpoint list read once before the loop
    deviceOf: map<string, string>,  // relevant number to device number
    devices: map<string, string>,   // device number to address (`config.devices`)
    pin: string,
    net: Network)

  /** The output directory and the stage's checkpoint file. */
  datatype State = State(responses: Dir, processed: CheckpointFile)

  const NoDeviceMessage: string := "Device IP not found for this device number"
  const PinFailedPrefix: string := "PIN verification failed: "
  const InvalidPinMessage: string := "Invalid pin verification"

  /** `file.replace('.json', '')`: the relevant number a file stands for. */
  function Key(file: string): string {
    RemoveFirst(file, JsonExt)
  }

  /** `config.devices[relevantNumberToDevice[rn]]` reads the key "undefined" when `rn` is unmapped. */
  function DeviceKey(deviceOf: map<string, string>, rn: string): string {
    if rn in deviceOf then deviceOf[rn] else "undefined"
  }

  function PinRequest(ip: string, pin: string): HttpRequest {
    PostText(ip + "pin", pin)
  }

  function SubmitRequest(ip: string, doc: Json): HttpRequest {
    PostJson(ip + "invoices", doc)
  }

  /** The verdict reaches the device's invoice endpoint. */
  predicate Submitted(v: Verdict) {
    v.SubmitThrew? || v.Rejected? || v.Accepted?
  }

  /** The address of the device a file's relevant number is sent to, if the tables give one. */
  function AddressOf(s: Setting, file: string): Option<string> {
    Resolve(s.devices, DeviceKey(s.deviceOf, Key(file)))
  }

  /** The file is neither skipped nor unparseable and its device has an address: the PIN request goes out. */
  predicate ReachesDevice(s: Setting, file: string) {
    Key(file) !in s.snapshot && Load(s.requests, file).Parsed? && AddressOf(s, file).Some?
  }

  /** One iteration of the loop over the input files. */
  function Process(s: Setting, file: string): (a: Attempt)
    ensures a.verdict.AlreadyProcessed? <==> Key(file) in s.snapshot
    ensures a.verdict.Unparseable? <==> Key(file) !in s.snapshot && Load(s.requests, file).Malformed?
    ensures a.verdict.NoDevice? <==> Key(file) !in s.snapshot && Load(s.requests, file).Parsed? && AddressOf(s, file).None?
    ensures a.sent != [] <==> ReachesDevice(s, file)
    // the PIN gate: the document goes out only after the device answered "0100"
    ensures forall r :: r in a.sent && r.PostJson? ==> Submitted(a.verdict)
    ensures a.verdict.Accepted? ==> HasOwn(a.verdict.body, "mtn")
    ensures a.verdict.Rejected? ==> !HasOwn(a.verdict.body, "mtn")
  {
    var rn := Key(file);
    if rn in s.snapshot then Attempt(AlreadyProcessed, [])
    else match Load(s.requests, file)
      case Malformed => Attempt(Unparseable, [])
      case Parsed(doc) =>
        match Resolve(s.devices, DeviceKey(s.deviceOf, rn))
        case None => Attempt(NoDevice, [])
        case Some(ip) =>
          var pinRequest := PinRequest(ip, s.pin);
          match s.net(rn, pinRequest)
          case Threw(message) => Attempt(PinThrew(message), [pinRequest])
          case Answered(reply) =>
            if !PinVerified(reply) then Attempt(PinRefused(reply), [pinRequest])
            else
              var submitRequest := SubmitRequest(ip, doc);
              match s.net(rn, submitRequest)
              case Threw(message) => Attempt(SubmitThrew(message), [pinRequest, submitRequest])
              case Answered(body) =>
                var verdict := if HasOwn(body, "mtn") then Accepted(body) else Rejected(body);
                Attempt(verdict, [pinRequest, submitRequest])
  }

  /**
   * The device protocol of one file: the PIN request goes first, its answer
   * decides between a PIN failure and the submission, and the verdict is the
   * device's answer to the submission.
   */
  lemma ProcessFollowsDevice(s: Setting, file: string)
    ensures var a := Process(s, file);
            var ip := AddressOf(s, file);
            // the PIN exchange: the first request, and what its answer decides
            && (ReachesDevice(s, file) ==> a.sent[0] == PinRequest(ip.value, s.pin))
            && (ReachesDevice(s, file) ==> (a.verdict.PinThrew? <==> s.net(Key(file), a.sent[0]).Threw?))
            && (a.verdict.PinThrew? ==> |a.sent| == 1 && s.net(Key(file), a.sent[0]) == Threw(a.verdict.message))
            && (a.verdict.PinRefused? ==>
                  |a.sent| == 1 && s.net(Key(file), a.sent[0]) == Answered(a.verdict.reply) && !PinVerified(a.verdict.reply))
            // the PIN gate, both ways: the document goes out exactly when the device answered "0100"
            && (ReachesDevice(s, file) ==> (Submitted(a.verdict) <==> s.net(Key(file), a.sent[0]) == Answered(Str(PinSuccess))))
            // the submission, and the verdict is the device's answer to it
            && (Submitted(a.verdict) ==>
                  && |a.sent| == 2
                  && a.sent[1] == SubmitRequest(ip.value, Load(s.requests, file).doc)
                  && s.net(Key(file), a.sent[1]) ==
                     (if a.verdict.SubmitThrew? then Threw(a.verdict.message) else Answered(a.verdict.body)))
  {
  }

  /** The one file a verdict writes: `${rn}.json` on success, `${rn}_error.json` on every failure. */
  function Artifact(rn: string, v: Verdict): (w: Option<(string, Json)>)
    ensures w.None? <==> v.AlreadyProcessed? || v.Unparseable?
    ensures w.Some? ==> w.value.0 == if v.Accepted? then rn + JsonExt else rn + "_error" + JsonExt
    ensures v.Accepted? || v.Rejected? ==> w.Some? && w.value.1 == v.body
    ensures v.SubmitThrew? ==> w.Some? && w.value.1 == ErrorDoc(v.message)
    ensures v.NoDevice? ==> w.Some? && w.value.1 == ErrorDoc(NoDeviceMessage)
    ensures v.PinThrew? ==> w.Some? && w.value.1 == ErrorDoc(PinFailedPrefix + v.message)
    ensures v.PinRefused? ==> w.Some? && w.value.1 == ErrorDoc(InvalidPinMessage)
  {
    var errorFile := rn + "_error" + JsonExt;
    match v
    case AlreadyProcessed => None
    case Unparseable => None
    case NoDevice => Some((errorFile, ErrorDoc(NoDeviceMessage)))
    case PinThrew(message) => Some((errorFile, ErrorDoc(PinFailedPrefix + message)))
    case PinRefused(_) => Some((errorFile, ErrorDoc(InvalidPinMessage)))
    case SubmitThrew(message) => Some((errorFile, ErrorDoc(message)))
    case Rejected(body) => Some((errorFile, body))
    case Accepted(body) => Some((rn + JsonExt, body))
  }

  /** The artifact a file's iteration writes, if any. */
  function ArtifactOf(s: Setting, file: string): Option<(string, Json)> {
    Artifact(Key(file), Process(s, file).verdict)
  }

  /** The artifact writes of the files, in order. */
  function Writes(s: Setting, files: seq<string>): seq<(string, Json)> {
    Collect(file => ArtifactOf(s, file), files)
  }

  /** The keys checkpointed, in order: those of the accepted files. */
  function Checkpoints(s: Setting, files: seq<string>): seq<string>
    decreases |files|
  {
    if files == [] then []
    else
      var file := files[|files| - 1];
      Checkpoints(s, files[..|files| - 1]) + (if Process(s, file).verdict.Accepted? then [Key(file)] else [])
  }

  /** The verdicts of the files, in order. */
  function Verdicts(s: Setting, files: seq<string>): (vs: seq<Verdict>)
    ensures |vs| == |files|
    ensures forall i :: 0 <= i < |files| ==> vs[i] == Process(s, files[i]).verdict
  {
    seq(|files|, i requires 0 <= i < |files| => Process(s, files[i]).verdict)
  }

  /** Every request sent, in order. */
  function Traffic(s: Setting, files: seq<string>): seq<HttpRequest>
    decreases |files|
  {
    if files == [] then []
    else
      var file := files[|files| - 1];
      Traffic(s, files[..|files| - 1]) + Process(s, files[|files| - 1]).sent
  }

  /** One iteration of the loop body, on the stage's state. */
  method SubmitOne(s: Setting, file: string, st: State) returns (st': State, verdict: Verdict, sent: seq<HttpRequest>)
    ensures verdict == Process(s, file).verdict && sent == Process(s, file).sent
    ensures st'.responses == WriteAll(st.responses, ToSeq(ArtifactOf(s, file)))
    ensures st'.processed == if verdict.Accepted? then WriteProcessed(st.processed, Key(file)) else st.processed
  {
    st', sent := st, [];
    var rn := Key(file);
    if rn in s.snapshot {
      return st, AlreadyProcessed, [];
    }
    var content := Load(s.requests, file);
    if content.Malformed? {
      return st, Unparseable, [];
    }
    var errorFile := rn + "_error" + JsonExt;
    var ip := Resolve(s.devices, DeviceKey(s.deviceOf, rn));
    if ip.None? {
      st' := st.(responses := st.responses[errorFile := Parsed(ErrorDoc(NoDeviceMessage))]);
      return st', NoDevice, [];
    }
    var pinRequest := PinRequest(ip.value, s.pin);
    var pinResult := s.net(rn, pinRequest);
    sent := [pinRequest];
    if pinResult.Threw? {
      st' := st.(responses := st.responses[errorFile := Parsed(ErrorDoc(PinFailedPrefix + pinResult.message))]);
      return st', PinThrew(pinResult.message), sent;
    }
    if !PinVerified(pinResult.data) {
      st' := st.(responses := st.responses[errorFile := Parsed(ErrorDoc(InvalidPinMessage))]);
      return st', PinRefused(pinResult.data), sent;
    }
    var submitRequest := SubmitRequest(ip.value, content.doc);
    var result := s.net(rn, submitRequest);
    sent := sent + [submitRequest];
    match result {
      case Answered(body) =>
        if HasOwn(body, "mtn") {
          // the success artifact is written before the key is checkpointed
          st' := st.(responses := st.responses[rn + JsonExt := Parsed(body)]);
          st' := st'.(processed := WriteProcessed(st'.processed, rn));
          verdict := Accepted(body);
        } else {
          st' := st.(responses := st.responses[errorFile := Parsed(body)]);
          verdict := Rejected(body);
        }
      case Threw(message) =>
        st' := st.(responses := st.responses[errorFile := Parsed(ErrorDoc(message))]);
        verdict := SubmitThrew(message);
    }
  }

  /** The loop of `processCreditNotes` / `processCorrectInvoices` over the input files. */
  method SubmitAll(s: Setting, files: seq<string>, st: State) returns (st': State, verdicts: seq<Verdict>, sent: seq<HttpRequest>)
    ensures verdicts == Verdicts(s, files)
    ensures st'.responses == WriteAll(st.responses, Writes(s, files))
    ensures st'.processed == RecordAll(st.processed, Checkpoints(s, files))
    ensures sent == Traffic(s, files)
  {
    st', verdicts, sent := st, [], [];
    for i := 0 to |files|
      invariant verdicts == Verdicts(s, files[..i])
      invariant st'.responses == WriteAll(st.responses, Writes(s, files[..i]))
      invariant st'.processed == RecordAll(st.processed, Checkpoints(s, files[..i]))
      invariant sent == Traffic(s, files[..i])
    {
      StepFolds(s, files, i);
      var verdict, now;
      ghost var writes, keys := Writes(s, files[..i]), Checkpoints(s, files[..i]);
      st', verdict, now := SubmitOne(s, files[i], st');
      WriteAllSnocOpt(st.responses, writes, ArtifactOf(s, files[i]));
      RecordAllSnocIf(st.processed, keys, Key(files[i]), verdict.Accepted?);
      verdicts, sent := verdicts + [verdict], sent + now;
    }
    assert files[..|files|] == files;
  }

  /** The three folds over `files[..i + 1]` extend those over `files[..i]` by record `i`. */
  lemma StepFolds(s: Setting, files: seq<string>, i: nat)
    requires i < |files|
    ensures var a := Process(s, files[i]);
            && Writes(s, files[..i + 1]) == Writes(s, files[..i]) + ToSeq(ArtifactOf(s, files[i]))
            && Checkpoints(s, files[..i + 1]) == Checkpoints(s, files[..i]) + (if a.verdict.Accepted? then [Key(files[i])] else [])
            && Traffic(s, files[..i + 1]) == Traffic(s, files[..i]) + a.sent
            && Verdicts(s, files[..i + 1]) == Verdicts(s, files[..i]) + [a.verdict]
  {
    assert files[..i + 1][..i] == files[..i];
    CollectStep(file => ArtifactOf(s, file), files, i);
  }

  /** An accepted file's key is checkpointed. */
  lemma {:induction false} AcceptedIsCheckpointed(s: Setting, files: seq<string>, i: nat)
    requires i < |files| && Process(s, files[i]).verdict.Accepted?
    ensures Key(files[i]) in Checkpoints(s, files)
    decreases |files|
  {
    var n := |files| - 1;
    if i < n {
      assert files[..n][i] == files[i];
      AcceptedIsCheckpointed(s, files[..n], i);
    }
  }

  /** A checkpointed key is the key of an accepted file. */
  lemma {:induction false} CheckpointIsAccepted(s: Setting, files: seq<string>, k: string)
    requires k in Checkpoints(s, files)
    ensures exists i :: 0 <= i < |files| && Key(files[i]) == k && Process(s, files[i]).verdict.Accepted?
    decreases |files|
  {
    var n := |files| - 1;
    if k in Checkpoints(s, files[..n]) {
      CheckpointIsAccepted(s, files[..n], k);
      var i :| 0 <= i < n && Key(files[..n][i]) == k && Process(s, files[..n][i]).verdict.Accepted?;
      assert files[..n][i] == files[i];
    } else {
      assert Key(files[n]) == k && Process(s, files[n]).verdict.Accepted?;
    }
  }

  /**
   * The device accepts a file: it answered "0100" to the PIN request, and its
   * answer to the submission of the file's document has its own `mtn`.
   */
  predicate DeviceAccepts(s: Setting, file: string) {
    && ReachesDevice(s, file)
    && var ip := AddressOf(s, file).value;
       && s.net(Key(file), PinRequest(ip, s.pin)) == Answered(Str(PinSuccess))
       && var answer := s.net(Key(file), SubmitRequest(ip, Load(s.requests, file).doc));
          answer.Answered? && HasOwn(answer.data, "mtn")
  }

  /** A file is accepted exactly when the device accepts it. */
  lemma AcceptedIffDeviceAccepts(s: Setting, file: string)
    ensures Process(s, file).verdict.Accepted? <==> DeviceAccepts(s, file)
  {
    var a := Process(s, file);
    ProcessFollowsDevice(s, file);
    if ReachesDevice(s, file) && s.net(Key(file), a.sent[0]) == Answered(Str(PinSuccess)) {
      assert Submitted(a.verdict);
    }
  }

  /**
   * The promise of the submit stages: a run checkpoints a key exactly when the
   * device accepted some file with that key.
   */
  lemma CheckpointedIffDeviceAccepts(s: Setting, files: seq<string>)
    ensures forall k :: k in Checkpoints(s, files) <==>
              exists i :: 0 <= i < |files| && Key(files[i]) == k && DeviceAccepts(s, files[i])
  {
    CheckpointsAreAccepted(s, files);
    forall i | 0 <= i < |files|
      ensures Process(s, files[i]).verdict.Accepted? <==> DeviceAccepts(s, files[i])
    {
      AcceptedIffDeviceAccepts(s, files[i]);
    }
  }

  /** A key is checkpointed by a run exactly when some file with that key was accepted. */
  lemma CheckpointsAreAccepted(s: Setting, files: seq<string>)
    ensures forall k :: k in Checkpoints(s, files) <==>
              exists i :: 0 <= i < |files| && Key(files[i]) == k && Process(s, files[i]).verdict.Accepted?
  {
    forall k | k in Checkpoints(s, files)
      ensures exists i :: 0 <= i < |files| && Key(files[i]) == k && Process(s, files[i]).verdict.Accepted?
    {
      CheckpointIsAccepted(s, files, k);
    }
    forall i | 0 <= i < |files| && Process(s, files[i]).verdict.Accepted?
      ensures Key(files[i]) in Checkpoints(s, files)
    {
      AcceptedIsCheckpointed(s, files, i);
    }
  }


  /** After a run, every file's artifact name exists in the output directory. */
  lemma RunWritesArtifacts(s: Setting, files: seq<string>, dir: Dir, i: nat)
    requires i < |files| && ArtifactOf(s, files[i]).Some?
    ensures ArtifactOf(s, files[i]).value.0 in WriteAll(dir, Writes(s, files))
  {
    CollectWritten(dir, file => ArtifactOf(s, file), files, i);
  }

  /** A name that no file's artifact uses is left as it was. */
  lemma RunFrame(s: Setting, files: seq<string>, dir: Dir, name: string)
    requires forall i :: 0 <= i < |files| ==> ArtifactOf(s, files[i]).None? || ArtifactOf(s, files[i]).value.0 != name
    ensures (name in WriteAll(dir, Writes(s, files))) == (name in dir)
    ensures name in dir ==> WriteAll(dir, Writes(s, files))[name] == dir[name]
  {
    CollectFrame(dir, file => ArtifactOf(s, file), files, name);
  }

  /** No file after `i` writes an artifact under the name of file `i`'s artifact. */
  predicate LastToWrite(s: Setting, files: seq<string>, i: nat)
    requires i < |files| && ArtifactOf(s, files[i]).Some?
  {
    forall j :: i < j < |files| ==> ArtifactOf(s, files[j]).None? || ArtifactOf(s, files[j]).value.0 != ArtifactOf(s, files[i]).value.0
  }

  /**
   * An accepted file's key is checkpointed, and its success artifact `${key}.json`
   * holds the device's response unless a later file writes the same name.
   */
  lemma AcceptedArtifact(s: Setting, files: seq<string>, st: State, i: nat)
    requires i < |files| && Process(s, files[i]).verdict.Accepted? && LastToWrite(s, files, i)
    ensures Key(files[i]) in ReadProcessed(RecordAll(st.processed, Checkpoints(s, files)))
    ensures Key(files[i]) + JsonExt in WriteAll(st.responses, Writes(s, files))
    ensures WriteAll(st.responses, Writes(s, files))[Key(files[i]) + JsonExt] == Parsed(Process(s, files[i]).verdict.body)
  {
    AcceptedIsCheckpointed(s, files, i);
    RecordAllMembers(st.processed, Checkpoints(s, files));
    CollectLast(st.responses, file => ArtifactOf(s, file), files, i);
  }

  /**
   * Every key a run adds to the checkpoint file is new, and its success artifact
   * `${key}.json` exists afterwards.
   */
  lemma CheckpointedHaveArtifact(s: Setting, files: seq<string>, st: State)
    ensures var before := ReadProcessed(st.processed);
            var after := ReadProcessed(RecordAll(st.processed, Checkpoints(s, files)));
            forall k :: k in after && k !in before ==> k + JsonExt in WriteAll(st.responses, Writes(s, files))
  {
    RecordAllAppends(st.processed, Checkpoints(s, files));
    CheckpointsAreAccepted(s, files);
    forall k | k in ReadProcessed(RecordAll(st.processed, Checkpoints(s, files))) && k !in ReadProcessed(st.processed)
      ensures k + JsonExt in WriteAll(st.responses, Writes(s, files))
    {
      var i :| 0 <= i < |files| && Key(files[i]) == k && Process(s, files[i]).verdict.Accepted?;
      RunWritesArtifacts(s, files, st.responses, i);
    }
  }

  /**
   * Running the stage again on the checkpoint file the first run left: every file
   * accepted or skipped by the first run is skipped, and the second run only
   * appends keys that are not yet in the file.
   */
  lemma SecondRun(s: Setting, files: seq<string>, st: State)
    requires s.snapshot == ReadProcessed(st.processed)
    ensures var p1 := RecordAll(st.processed, Checkpoints(s, files));
            var s2 := s.(snapshot := ReadProcessed(p1));
            var p2 := RecordAll(p1, Checkpoints(s2, files));
            && (forall i :: 0 <= i < |files| && (Process(s, files[i]).verdict.Accepted? || Process(s, files[i]).verdict.AlreadyProcessed?) ==>
                  Process(s2, files[i]).verdict.AlreadyProcessed?)
            && ReadProcessed(p1) <= ReadProcessed(p2)
            && (forall j :: |ReadProcessed(p1)| <= j < |ReadProcessed(p2)| ==> ReadProcessed(p2)[j] !in ReadProcessed(p1))
  {
    var p1 := RecordAll(st.processed, Checkpoints(s, files));
    var s2 := s.(snapshot := ReadProcessed(p1));
    RecordAllAppends(st.processed, Checkpoints(s, files));
    RecordAllAppends(p1, Checkpoints(s2, files));
    CheckpointsAreAccepted(s, files);
  }
}
