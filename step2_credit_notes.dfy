/**
 * Stage 2: turn every successful item response of stage 1 into a credit-note
 * request, `CreditNoteRequests/${relevantNumber}.json`, that reverses the
 * original invoice: the same items, and one cash payment of their total.
 */
module CreditNoteRequests {
  import opened Wrappers
  import opened Json
  import opened Text
  import opened Seqs
  import opened Store
  import opened JsNumber

  /** The item-response file names stage 2 reads: `.json`, but neither `_error.json` nor `_.json`. */
  predicate Considered(file: string) {
    EndsWith(file, JsonExt) && !EndsWith(file, "_error" + JsonExt) && !EndsWith(file, "_" + JsonExt)
  }

  /** `file.replace('.json', '')`: the relevant number a response stands for. */
  function Key(file: string): string {
    RemoveFirst(file, JsonExt)
  }

  /** `data.items || []` when it is an array: the items a request is built from. */
  function ItemsOf(data: Json): seq<Json> {
    var items := Get(data, "items");
    if items.Some? && items.value.Arr? then items.value.elems else []
  }

  /**
   * What `buildCreditNoteRequest` needs to return instead of throwing: a value
   * that is not null, whose `items` is falsy or an array without null elements.
   */
  predicate Buildable(data: Json) {
    && !data.Null?
    && var items := Get(data, "items");
       || items.None?
       || !Truthy(items.value)
       || (items.value.Arr? && forall i :: 0 <= i < |items.value.elems| ==> !items.value.elems[i].Null?)
  }

  /** `item.key` on an item that is not null. */
  function Field(item: Json, key: string): Option<Json> {
    Get(item, key)
  }

  /**
   * The request item `out` copies `item`: it holds `name` and `totalAmount` when
   * the item defines them, `hsCode` exactly when the item's is truthy, and
   * nothing else.
   */
  predicate CopiesItem(item: Json, out: Json) {
    && out.Obj?
    && (forall k :: k in out.fields ==> k == "name" || k == "totalAmount" || k == "hsCode")
    && Get(out, "name") == Field(item, "name")
    && Get(out, "totalAmount") == Field(item, "totalAmount")
    && (if Field(item, "hsCode").Some? && Truthy(Field(item, "hsCode").value)
        then Get(out, "hsCode") == Field(item, "hsCode")
        else Get(out, "hsCode").None?)
  }

  /** The `items.map(...)` callback. */
  function CreditNoteItem(item: Json): (out: Json)
    ensures CopiesItem(item, out)
  {
    var hsCode := Field(item, "hsCode");
    var fields := Put(Put(map[], "name", Field(item, "name")), "totalAmount", Field(item, "totalAmount"));
    Obj(if hsCode.Some? && Truthy(hsCode.value) then fields["hsCode" := hsCode.value] else fields)
  }

  /** `items.reduce((sum, item) => sum + Number(item.totalAmount), 0)`, a left fold. */
  function Total(amounts: seq<Option<Json>>): Number
    decreases |amounts|
  {
    if amounts == [] then Finite(0.0)
    else Add(Total(amounts[..|amounts| - 1]), ToNumber(amounts[|amounts| - 1]))
  }

  /** The ordinary sum, as a reference for `Total`. */
  function Sum(xs: seq<real>): real
    decreases |xs|
  {
    if xs == [] then 0.0 else xs[0] + Sum(xs[1..])
  }

  lemma {:induction false} SumSnoc(xs: seq<real>, x: real)
    ensures Sum(xs + [x]) == Sum(xs) + x
    decreases |xs|
  {
    if xs != [] {
      assert (xs + [x])[1..] == xs[1..] + [x];
      SumSnoc(xs[1..], x);
    }
  }

  /** The numbers the amounts convert to, one for one. */
  function Numbers(amounts: seq<Option<Json>>): (xs: seq<Number>)
    ensures |xs| == |amounts|
    ensures forall i :: 0 <= i < |amounts| ==> xs[i] == ToNumber(amounts[i])
  {
    seq(|amounts|, i requires 0 <= i < |amounts| => ToNumber(amounts[i]))
  }

  /** JavaScript addition of numbers from the left, starting from 0. */
  function AddAll(xs: seq<Number>): Number
    decreases |xs|
  {
    if xs == [] then Finite(0.0) else Add(AddAll(xs[..|xs| - 1]), xs[|xs| - 1])
  }

  /** The reduce adds the converted amounts from the left. */
  lemma {:induction false} TotalIsAddAll(amounts: seq<Option<Json>>)
    ensures Total(amounts) == AddAll(Numbers(amounts))
    decreases |amounts|
  {
    if amounts != [] {
      var n := |amounts| - 1;
      TotalIsAddAll(amounts[..n]);
      assert Numbers(amounts)[..n] == Numbers(amounts[..n]);
    }
  }

  /** A finite sum has only finite terms. */
  lemma {:induction false} FiniteAddAllTerm(xs: seq<Number>, i: nat)
    requires i < |xs| && AddAll(xs).Finite?
    ensures xs[i].Finite?
    decreases |xs|
  {
    var n := |xs| - 1;
    if i < n {
      assert xs[..n][i] == xs[i];
      FiniteAddAllTerm(xs[..n], i);
    }
  }

  /** Finite terms have a finite sum. */
  lemma {:induction false} FiniteTermsAddAll(xs: seq<Number>)
    requires forall i :: 0 <= i < |xs| ==> xs[i].Finite?
    ensures AddAll(xs).Finite?
    decreases |xs|
  {
    if xs != [] {
      var n := |xs| - 1;
      assert forall i :: 0 <= i < n ==> xs[..n][i] == xs[i];
      FiniteTermsAddAll(xs[..n]);
    }
  }

  /** The values of finite numbers. */
  function FiniteValues(xs: seq<Number>): (vs: seq<real>)
    requires forall i :: 0 <= i < |xs| ==> xs[i].Finite?
    ensures |vs| == |xs|
  {
    seq(|xs|, i requires 0 <= i < |xs| => xs[i].value)
  }

  /** A sum of finite terms is the ordinary sum of their values. */
  lemma {:induction false} AddAllValue(xs: seq<Number>)
    requires forall i :: 0 <= i < |xs| ==> xs[i].Finite?
    ensures AddAll(xs) == Finite(Sum(FiniteValues(xs)))
    decreases |xs|
  {
    if xs != [] {
      var n := |xs| - 1;
      var prefix := xs[..n];
      assert forall i :: 0 <= i < n ==> prefix[i] == xs[i];
      AddAllValue(prefix);
      assert FiniteValues(xs) == FiniteValues(prefix) + [xs[n].value];
      SumSnoc(FiniteValues(prefix), xs[n].value);
    }
  }

  /** The numbers the amounts convert to, when they all convert to finite numbers. */
  function Values(amounts: seq<Option<Json>>): (xs: seq<real>)
    requires forall i :: 0 <= i < |amounts| ==> ToNumber(amounts[i]).Finite?
    ensures |xs| == |amounts|
  {
    FiniteValues(Numbers(amounts))
  }

  /** The grand total is finite exactly when every amount converts to a finite number. */
  lemma TotalFinite(amounts: seq<Option<Json>>)
    ensures Total(amounts).Finite? <==> forall i :: 0 <= i < |amounts| ==> ToNumber(amounts[i]).Finite?
  {
    var xs := Numbers(amounts);
    TotalIsAddAll(amounts);
    if Total(amounts).Finite? {
      forall i | 0 <= i < |amounts|
        ensures ToNumber(amounts[i]).Finite?
      {
        FiniteAddAllTerm(xs, i);
      }
    } else if forall i :: 0 <= i < |amounts| ==> ToNumber(amounts[i]).Finite? {
      FiniteTermsAddAll(xs);
    }
  }

  /** A finite grand total is the sum of the converted amounts. */
  lemma TotalValue(amounts: seq<Option<Json>>)
    requires forall i :: 0 <= i < |amounts| ==> ToNumber(amounts[i]).Finite?
    ensures Total(amounts) == Finite(Sum(Values(amounts)))
  {
    TotalIsAddAll(amounts);
    AddAllValue(Numbers(amounts));
  }

  /**
   * The grand total is finite exactly when every amount converts to a finite
   * number, and it is then the sum of the converted amounts.
   */
  lemma TotalIsSum(amounts: seq<Option<Json>>)
    ensures Total(amounts).Finite? <==> forall i :: 0 <= i < |amounts| ==> ToNumber(amounts[i]).Finite?
    ensures (forall i :: 0 <= i < |amounts| ==> ToNumber(amounts[i]).Finite?) ==> Total(amounts) == Finite(Sum(Values(amounts)))
  {
    TotalFinite(amounts);
    if forall i :: 0 <= i < |amounts| ==> ToNumber(amounts[i]).Finite? {
      TotalValue(amounts);
    }
  }

  /** The `totalAmount` members of the request items, as the reduce reads them. */
  function Amounts(items: seq<Json>): (amounts: seq<Option<Json>>)
    ensures |amounts| == |items|
  {
    seq(|items|, i requires 0 <= i < |items| => Get(items[i], "totalAmount"))
  }

  /** `buildCreditNoteRequest(relevantNumber, data)`. */
  function BuildCreditNoteRequest(relevantNumber: string, data: Json): (doc: Json)
    requires Buildable(data)
    ensures doc.Obj?
    ensures doc.fields.Keys == {"invoiceType", "transactionType", "cashier", "items", "relevantNumber", "payment"}
    ensures doc.fields["invoiceType"] == Num(0.0) && doc.fields["transactionType"] == Num(1.0)
    ensures doc.fields["cashier"] == Str("ADMIN") && doc.fields["relevantNumber"] == Str(relevantNumber)
    // the items, one for one and in order
    ensures doc.fields["items"].Arr? && |doc.fields["items"].elems| == |ItemsOf(data)|
    ensures forall i :: 0 <= i < |ItemsOf(data)| ==> CopiesItem(ItemsOf(data)[i], doc.fields["items"].elems[i])
    // one cash payment of the total of the written items' amounts
    ensures doc.fields["payment"] ==
              Arr([Obj(map["amount" := ToJson(Total(Amounts(doc.fields["items"].elems))), "paymentType" := Str("Cash")])])
    ensures Get(data, "items").None? ==>
              doc.fields["items"] == Arr([]) && doc.fields["payment"].elems[0].fields["amount"] == Num(0.0)
  {
    var items := seq(|ItemsOf(data)|, i requires 0 <= i < |ItemsOf(data)| => CreditNoteItem(ItemsOf(data)[i]));
    var grandTotal := Total(Amounts(items));
    Obj(map[
      "invoiceType" := Num(0.0),
      "transactionType" := Num(1.0),
      "cashier" := Str("ADMIN"),
      "items" := Arr(items),
      "relevantNumber" := Str(relevantNumber),
      "payment" := Arr([Obj(map["amount" := ToJson(grandTotal), "paymentType" := Str("Cash")])])])
  }

  /** The payment amount is the sum of the source items' `totalAmount`s, or null when one of them is not a finite number. */
  lemma PaymentIsSumOfItems(relevantNumber: string, data: Json)
    requires Buildable(data)
    ensures var amounts := seq(|ItemsOf(data)|, i requires 0 <= i < |ItemsOf(data)| => Field(ItemsOf(data)[i], "totalAmount"));
            var amount := BuildCreditNoteRequest(relevantNumber, data).fields["payment"].elems[0].fields["amount"];
            && ((forall i :: 0 <= i < |amounts| ==> ToNumber(amounts[i]).Finite?) ==>
                  amount == Num(Sum(Values(amounts))))
            && ((exists i :: 0 <= i < |amounts| && !ToNumber(amounts[i]).Finite?) ==> amount == Null)
  {
    var doc := BuildCreditNoteRequest(relevantNumber, data);
    var amounts := seq(|ItemsOf(data)|, i requires 0 <= i < |ItemsOf(data)| => Field(ItemsOf(data)[i], "totalAmount"));
    assert Amounts(doc.fields["items"].elems) == amounts;
    TotalIsSum(amounts);
  }

  /** `data && data.messages && data.messages.toLowerCase() === 'success' && Array.isArray(data.items) && data.items.length > 0`. */
  predicate SuccessResponse(data: Json) {
    && data.Obj?
    && "messages" in data.fields && data.fields["messages"].Str?
    && Lower(data.fields["messages"].s) == "success"
    && "items" in data.fields && data.fields["items"].Arr? && |data.fields["items"].elems| > 0
  }

  /** The success test throws: `messages` is truthy but not a string, so it has no `toLowerCase`. */
  predicate MessagesThrow(data: Json) {
    data.Obj? && "messages" in data.fields && Truthy(data.fields["messages"]) && !data.fields["messages"].Str?
  }

  /** What stage 2 does with one considered file. */
  datatype Decision =
    | Unparseable            // JSON.parse threw: logged, skipped
    | NotSuccessful          // logged, skipped
    | Threw                  // a TypeError escapes the loop and ends the stage
    | Built(doc: Json)       // written to `${relevantNumber}.json`

  function Decide(file: string, c: Content): (d: Decision)
    ensures d.Unparseable? <==> c.Malformed?
    ensures d.Built? <==> c.Parsed? && SuccessResponse(c.doc) && Buildable(c.doc)
    ensures d.Threw? <==> c.Parsed? && (MessagesThrow(c.doc) || (SuccessResponse(c.doc) && !Buildable(c.doc)))
    ensures d.Built? ==> d.doc == BuildCreditNoteRequest(Key(file), c.doc)
  {
    match c
    case Malformed => Unparseable
    case Parsed(data) =>
      if !Truthy(data) then NotSuccessful
      else
        var messages := Get(data, "messages");
        if messages.None? || !Truthy(messages.value) then NotSuccessful
        else if !messages.value.Str? then Threw
        else if Lower(messages.value.s) != "success" then NotSuccessful
        else
          var items := Get(data, "items");
          if items.None? || !items.value.Arr? || |items.value.elems| == 0 then NotSuccessful
          else if !Buildable(data) then Threw
          else Built(BuildCreditNoteRequest(Key(file), data))
  }

  function DecisionOf(responses: Dir, file: string): Decision {
    Decide(file, Load(responses, file))
  }

  /** The request a file writes, if any. */
  function RequestOf(responses: Dir, file: string): (w: Option<(string, Json)>)
    ensures w.Some? <==> DecisionOf(responses, file).Built?
    ensures w.Some? ==> w.value == (Key(file) + JsonExt, DecisionOf(responses, file).doc)
  {
    match DecisionOf(responses, file)
    case Built(doc) => Some((Key(file) + JsonExt, doc))
    case _ => None
  }

  function Writes(responses: Dir, files: seq<string>): seq<(string, Json)> {
    Collect(file => RequestOf(responses, file), files)
  }

  /** How many files the loop gets through: up to the first one that throws, or all of them. */
  function Stop(responses: Dir, files: seq<string>): (k: nat)
    ensures k <= |files|
    ensures forall j :: 0 <= j < k ==> !DecisionOf(responses, files[j]).Threw?
    ensures k < |files| ==> DecisionOf(responses, files[k]).Threw?
    decreases |files|
  {
    if files == [] || DecisionOf(responses, files[0]).Threw? then 0
    else 1 + Stop(responses, files[1..])
  }

  /** `buildCreditNoteRequests`: `listing` is what `readdirSync` returns for the item-response directory. */
  method BuildCreditNoteRequests(listing: seq<string>, responses: Dir, requests: Dir) returns (requests': Dir, ending: Ending)
    ensures var files := Filter(Considered, listing);
            var stop := Stop(responses, files);
            && requests' == WriteAll(requests, Writes(responses, files[..stop]))
            && ending == if stop < |files| then ThrewAt(stop) else Finished
  {
    var files := Filter(Considered, listing);
    var stop: nat;
    requests', stop := BuildRequests(files, responses, requests);
    ending := if stop < |files| then ThrewAt(stop) else Finished;
  }

  /** The loop over the considered files; it returns how far it got. */
  method BuildRequests(files: seq<string>, responses: Dir, requests: Dir) returns (requests': Dir, stop: nat)
    ensures stop == Stop(responses, files)
    ensures requests' == WriteAll(requests, Writes(responses, files[..stop]))
  {
    requests' := requests;
    for i := 0 to |files|
      invariant i <= Stop(responses, files)
      invariant requests' == WriteAll(requests, Writes(responses, files[..i]))
    {
      WritesStep(responses, files, requests, i);
      StopStep(responses, files, i);
      var threw;
      requests', threw := BuildOne(responses, files[i], requests');
      if threw {
        return requests', i;
      }
    }
    stop := |files|;
  }

  /** One more file adds its request, if it builds one, to the writes so far. */
  lemma WritesStep(responses: Dir, files: seq<string>, requests: Dir, i: nat)
    requires i < |files|
    ensures WriteAll(requests, Writes(responses, files[..i + 1])) ==
            WriteAll(WriteAll(requests, Writes(responses, files[..i])), ToSeq(RequestOf(responses, files[i])))
  {
    CollectStep(file => RequestOf(responses, file), files, i);
    WriteAllSnocOpt(requests, Writes(responses, files[..i]), RequestOf(responses, files[i]));
  }

  /** The loop body for one file: it throws, or writes the file's request if it builds one. */
  method BuildOne(responses: Dir, file: string, requests: Dir) returns (requests': Dir, threw: bool)
    ensures threw <==> DecisionOf(responses, file).Threw?
    ensures requests' == WriteAll(requests, ToSeq(RequestOf(responses, file)))
  {
    var decision := Decide(file, Load(responses, file));
    requests' := requests;
    match decision {
      case Threw =>
        return requests', true;
      case Built(creditNote) =>
        requests' := requests[Key(file) + JsonExt := Parsed(creditNote)];
        WriteOne(requests, (Key(file) + JsonExt, creditNote));
      case _ =>
    }
    threw := false;
  }

  /** A file the loop reaches ends it exactly when it throws. */
  lemma StopStep(responses: Dir, files: seq<string>, i: nat)
    requires i <= Stop(responses, files) && i < |files|
    ensures DecisionOf(responses, files[i]).Threw? <==> Stop(responses, files) == i
  {
  }

  /** No file after `i` writes the request name that file `i` writes. */
  predicate LastToWrite(responses: Dir, done: seq<string>, i: nat)
    requires i < |done|
  {
    forall j :: i < j < |done| ==> RequestOf(responses, done[j]).None? || RequestOf(responses, done[j]).value.0 != Key(done[i]) + JsonExt
  }

  /** Some file writes a request under `name`. */
  predicate WrittenBy(responses: Dir, done: seq<string>, name: string) {
    exists i :: 0 <= i < |done| && RequestOf(responses, done[i]).Some? && RequestOf(responses, done[i]).value.0 == name
  }

  /**
   * After the stage, every file before the one that threw (if any) whose response
   * is successful has its request `${relevantNumber}.json`, holding the request
   * built from it unless a later reached file writes the same name; every new
   * name is such a request, and every name no reached file writes is unchanged.
   */
  lemma RequestsWritten(listing: seq<string>, responses: Dir, requests: Dir)
    ensures var files := Filter(Considered, listing);
            var done := files[..Stop(responses, files)];
            var requests' := WriteAll(requests, Writes(responses, done));
            && (forall i :: 0 <= i < |done| && DecisionOf(responses, done[i]).Built? ==> Key(done[i]) + JsonExt in requests')
            && (forall i :: 0 <= i < |done| && DecisionOf(responses, done[i]).Built? && LastToWrite(responses, done, i) ==>
                  requests'[Key(done[i]) + JsonExt] == Parsed(DecisionOf(responses, done[i]).doc))
            && (forall name :: name !in requests ==> name in requests' ==>
                  exists i :: 0 <= i < |done| && DecisionOf(responses, done[i]).Built? && Key(done[i]) + JsonExt == name)
            && (forall name :: !WrittenBy(responses, done, name) ==>
                  (name in requests' <==> name in requests) && (name in requests ==> requests'[name] == requests[name]))
  {
    var files := Filter(Considered, listing);
    var done := files[..Stop(responses, files)];
    RequestsReached(responses, requests, done);
    RequestsUnwritten(responses, requests, done);
  }

  /** Each reached file's request: it exists, and holds the built request unless a later file writes the same name. */
  lemma RequestsReached(responses: Dir, requests: Dir, done: seq<string>)
    ensures var requests' := WriteAll(requests, Writes(responses, done));
            && (forall i :: 0 <= i < |done| && DecisionOf(responses, done[i]).Built? ==> Key(done[i]) + JsonExt in requests')
            && (forall i :: 0 <= i < |done| && DecisionOf(responses, done[i]).Built? && LastToWrite(responses, done, i) ==>
                  requests'[Key(done[i]) + JsonExt] == Parsed(DecisionOf(responses, done[i]).doc))
  {
    var requestOf := file => RequestOf(responses, file);
    forall i | 0 <= i < |done| && DecisionOf(responses, done[i]).Built?
      ensures Key(done[i]) + JsonExt in WriteAll(requests, Writes(responses, done))
    {
      CollectWritten(requests, requestOf, done, i);
    }
    forall i | 0 <= i < |done| && DecisionOf(responses, done[i]).Built? && LastToWrite(responses, done, i)
      ensures WriteAll(requests, Writes(responses, done))[Key(done[i]) + JsonExt] == Parsed(DecisionOf(responses, done[i]).doc)
    {
      CollectLast(requests, requestOf, done, i);
    }
  }

  /** A name no reached file writes keeps its old content, and every new name is a reached file's request. */
  lemma RequestsUnwritten(responses: Dir, requests: Dir, done: seq<string>)
    ensures var requests' := WriteAll(requests, Writes(responses, done));
            && (forall name :: name !in requests ==> name in requests' ==>
                  exists i :: 0 <= i < |done| && DecisionOf(responses, done[i]).Built? && Key(done[i]) + JsonExt == name)
            && (forall name :: !WrittenBy(responses, done, name) ==>
                  (name in requests' <==> name in requests) && (name in requests ==> requests'[name] == requests[name]))
  {
    var requestOf := file => RequestOf(responses, file);
    forall name | !WrittenBy(responses, done, name)
      ensures (name in WriteAll(requests, Writes(responses, done)) <==> name in requests)
      ensures name in requests ==> WriteAll(requests, Writes(responses, done))[name] == requests[name]
    {
      CollectFrame(requests, requestOf, done, name);
    }
  }

  /** Running stage 2 again on its own output writes the same requests and leaves the directory as it was. */
  lemma RerunSameRequests(listing: seq<string>, responses: Dir, requests: Dir)
    ensures var files := Filter(Considered, listing);
            var writes := Writes(responses, files[..Stop(responses, files)]);
            WriteAll(WriteAll(requests, writes), writes) == WriteAll(requests, writes)
  {
    var files := Filter(Considered, listing);
    WriteAllIdempotent(requests, Writes(responses, files[..Stop(responses, files)]));
  }

  /** A response file named after a relevant number writes its request under the same name. */
  lemma SameName(relevantNumber: string)
    requires !Contains(relevantNumber, JsonExt)
    ensures Key(relevantNumber + JsonExt) + JsonExt == relevantNumber + JsonExt
  {
    RemoveJsonExt(relevantNumber);
  }
}
