/**
 * Stage 4: for every relevant number stage 3 checkpointed, turn its credit-note
 * request into a correct invoice for the buyer the spreadsheet names, written to
 * `CorrectInvoices/${relevantNumber}.json`.
 */
module CorrectInvoices {
  import opened Wrappers
  import opened Json
  import opened Text
  import opened Store
  import opened Sheet
  import opened Lookup
  import CreditNoteRequests

  /** The buyer block of one spreadsheet row. */
  datatype BuyerInfo = BuyerInfo(traderSystemInvoiceNumber: string, buyerPin: string, buyerName: string)

  /** `cell && cell.v ? cell.v.toString().trim() : ''`. */
  function TrimmedOrEmpty(row: Row, col: nat): (t: string)
    ensures Cell(row, col).None? ==> t == ""
    ensures Trim(t) == t
  {
    match Cell(row, col)
    case None => ""
    case Some(v) => TrimIdempotent(v); Trim(v)
  }

  /**
   * Row entry of the buyer table: a row with a truthy column B maps trim(B) to its
   * A, F and G texts, each trimmed, a missing or falsy cell giving ''.
   */
  function BuyerEntry(row: Row): (e: Option<(string, BuyerInfo)>)
    ensures e.Some? <==> Cell(row, ColB).Some?
    ensures e.Some? ==> e.value.0 == Trim(Cell(row, ColB).value)
    ensures e.Some? && Cell(row, ColA).None? ==> e.value.1.traderSystemInvoiceNumber == ""
    ensures e.Some? && Cell(row, ColF).None? ==> e.value.1.buyerPin == ""
    ensures e.Some? && Cell(row, ColG).None? ==> e.value.1.buyerName == ""
    ensures e.Some? ==> var info := e.value.1;
              Trim(info.traderSystemInvoiceNumber) == info.traderSystemInvoiceNumber &&
              Trim(info.buyerPin) == info.buyerPin && Trim(info.buyerName) == info.buyerName
  {
    match Cell(row, ColB)
    case None => None
    case Some(b) => Some((Trim(b), BuyerInfo(TrimmedOrEmpty(row, ColA), TrimmedOrEmpty(row, ColF), TrimmedOrEmpty(row, ColG))))
  }

  function BuyerEntries(rows: seq<Row>): seq<Option<(string, BuyerInfo)>> {
    seq(|rows|, i requires 0 <= i < |rows| => BuyerEntry(rows[i]))
  }

  lemma BuyerEntriesAt(rows: seq<Row>, i: nat)
    requires i < |rows|
    ensures |BuyerEntries(rows)| == |rows| && BuyerEntries(rows)[i] == BuyerEntry(rows[i])
  {
  }

  /** The buyer table of a run: empty without a spreadsheet. */
  function BuyerMap(sheet: Option<Sheet>): map<string, BuyerInfo> {
    if sheet.None? then map[] else Assign(BuyerEntries(DataRows(sheet.value)))
  }

  /** `buildRelevantNumberToBuyerMap()`: `sheet` is None when the spreadsheet file does not exist. */
  method BuildRelevantNumberToBuyerMap(sheet: Option<Sheet>) returns (m: map<string, BuyerInfo>)
    ensures m == BuyerMap(sheet)
  {
    if sheet.None? {
      return map[];
    }
    m := BuyerColumns(DataRows(sheet.value));
  }

  /** The row loop of `buildRelevantNumberToBuyerMap`. */
  method BuyerColumns(rows: seq<Row>) returns (m: map<string, BuyerInfo>)
    ensures m == Assign(BuyerEntries(rows))
  {
    ghost var entries := BuyerEntries(rows);
    m := map[];
    for i := 0 to |rows|
      invariant m == Assign(entries[..i])
    {
      AssignStep(entries, i);
      var invoiceCell := Cell(rows[i], ColB);
      if invoiceCell.Some? {
        var relevantNumber := Trim(invoiceCell.value);
        m := m[relevantNumber := BuyerRow(rows[i])];
      }
    }
    assert entries[..|rows|] == entries;
  }

  /** The buyer block the loop stores for a row with a truthy column B. */
  function BuyerRow(row: Row): (info: BuyerInfo)
    requires Cell(row, ColB).Some?
    ensures BuyerEntry(row) == Some((Trim(Cell(row, ColB).value), info))
  {
    BuyerInfo(TrimmedOrEmpty(row, ColA), TrimmedOrEmpty(row, ColF), TrimmedOrEmpty(row, ColG))
  }

  /** The buyer table has a key exactly when some data row has a truthy column B that trims to it. */
  lemma BuyerMapKeys(sheet: Sheet, k: string)
    ensures k in BuyerMap(Some(sheet)) <==>
              exists r :: 0 <= r < |DataRows(sheet)| && Assigns(BuyerEntry(DataRows(sheet)[r]), k)
  {
    var rows := DataRows(sheet);
    var entries := BuyerEntries(rows);
    AssignKeys(entries);
    if k in Assign(entries) {
      var i :| 0 <= i < |entries| && Assigns(entries[i], k);
      BuyerEntriesAt(rows, i);
    } else {
      forall r | 0 <= r < |rows|
        ensures !Assigns(BuyerEntry(rows[r]), k)
      {
        BuyerEntriesAt(rows, r);
      }
    }
  }

  /** A key's buyer block is the one of the last data row with that relevant number. */
  lemma BuyerMapLastRow(sheet: Sheet, k: string)
    requires k in BuyerMap(Some(sheet))
    ensures var rows := DataRows(sheet);
            var entries := BuyerEntries(rows);
            exists r :: 0 <= r < |rows| && entries[r] == BuyerEntry(rows[r]) &&
              entries[r] == Some((k, BuyerMap(Some(sheet))[k])) && IsLast(entries, r)
  {
    var rows := DataRows(sheet);
    var entries := BuyerEntries(rows);
    LastEntry(entries, k);
  }

  /** `j.key` is present and truthy. */
  predicate TruthyField(j: Json, key: string) {
    Get(j, key).Some? && Truthy(Get(j, key).value)
  }

  /**
   * What `buildCorrectInvoice` needs to return instead of throwing: the credit
   * note's `items` is an array without null elements (`items.map` on anything
   * else, or `item.name` on a null item, throws a TypeError).
   */
  predicate Buildable(creditNote: Json) {
    var items := Get(creditNote, "items");
    && items.Some? && items.value.Arr?
    && forall i :: 0 <= i < |items.value.elems| ==> !items.value.elems[i].Null?
  }

  function ItemsOf(creditNote: Json): seq<Json>
    requires Buildable(creditNote)
  {
    Get(creditNote, "items").value.elems
  }

  /**
   * The invoice item `out` re-expresses `item`: the same `name`, a `quantity`
   * that is the item's when truthy and 1 otherwise, a `unitPrice` that is the
   * item's `totalAmount` when truthy and otherwise its `unitPrice` (omitted when
   * that is undefined), `hsCode` exactly when the item's is truthy, and nothing
   * else.
   */
  predicate ReexpressesItem(item: Json, out: Json) {
    && out.Obj?
    && (forall k :: k in out.fields ==> k == "name" || k == "quantity" || k == "unitPrice" || k == "hsCode")
    && Get(out, "name") == Get(item, "name")
    && Get(out, "quantity") == Some(if TruthyField(item, "quantity") then Get(item, "quantity").value else Num(1.0))
    && Get(out, "unitPrice") == (if TruthyField(item, "totalAmount") then Get(item, "totalAmount") else Get(item, "unitPrice"))
    && Get(out, "hsCode") == (if TruthyField(item, "hsCode") then Get(item, "hsCode") else None)
  }

  /** The `items.map(...)` callback of `buildCorrectInvoice`. */
  function CorrectItem(item: Json): (out: Json)
    requires !item.Null?
    ensures ReexpressesItem(item, out)
    ensures TruthyField(out, "quantity")
  {
    var quantity := if TruthyField(item, "quantity") then Get(item, "quantity").value else Num(1.0);
    var unitPrice := if TruthyField(item, "totalAmount") then Get(item, "totalAmount") else Get(item, "unitPrice");
    var fields := Put(Put(Put(map[], "name", Get(item, "name")), "quantity", Some(quantity)), "unitPrice", unitPrice);
    Obj(if TruthyField(item, "hsCode") then fields["hsCode" := Get(item, "hsCode").value] else fields)
  }

  /** The one text line every correct invoice carries. */
  const ThanksLine: Json :=
    Obj(map["lineType" := Str("Text"), "alignment" := Str("boldcenter"), "format" := Str("Bold"), "value" := Str("Thanksforyourbusiness!")])

  /** The fields every correct invoice has; `payment` joins them when the credit note defines one. */
  const InvoiceFields: set<string> :=
    {"invoiceType", "transactionType", "cashier", "items", "buyer", "lines", "TraderSystemInvoiceNumber"}

  /** `buildCorrectInvoice(creditNote, buyerInfo)`. */
  function BuildCorrectInvoice(creditNote: Json, buyer: BuyerInfo): (doc: Json)
    requires Buildable(creditNote)
    ensures doc.Obj?
    ensures doc.fields.Keys == InvoiceFields + (if Get(creditNote, "payment").Some? then {"payment"} else {})
    ensures doc.fields["invoiceType"] == Num(0.0) && doc.fields["transactionType"] == Num(0.0)
    ensures doc.fields["cashier"] == Str("ADMIN")
    ensures doc.fields["lines"] == Arr([ThanksLine])
    // the items, one for one and in order
    ensures doc.fields["items"].Arr? && |doc.fields["items"].elems| == |ItemsOf(creditNote)|
    ensures forall i :: 0 <= i < |ItemsOf(creditNote)| ==> ReexpressesItem(ItemsOf(creditNote)[i], doc.fields["items"].elems[i])
    // the payment as it was, and the buyer block from the spreadsheet
    ensures Get(doc, "payment") == Get(creditNote, "payment")
    ensures doc.fields["buyer"] == Obj(map["buyerName" := Str(buyer.buyerName), "pinOfBuyer" := Str(buyer.buyerPin)])
    ensures doc.fields["TraderSystemInvoiceNumber"] == Str(buyer.traderSystemInvoiceNumber)
  {
    var source := ItemsOf(creditNote);
    var items := seq(|source|, i requires 0 <= i < |source| => CorrectItem(source[i]));
    Obj(Put(map[
      "invoiceType" := Num(0.0),
      "transactionType" := Num(0.0),
      "cashier" := Str("ADMIN"),
      "items" := Arr(items),
      "buyer" := Obj(map["buyerName" := Str(buyer.buyerName), "pinOfBuyer" := Str(buyer.buyerPin)]),
      "lines" := Arr([ThanksLine]),
      "TraderSystemInvoiceNumber" := Str(buyer.traderSystemInvoiceNumber)], "payment", Get(creditNote, "payment")))
  }

  /**
   * Reissuing a credit note that stage 2 built: the builder never throws on it,
   * every invoice item has the credit-note item's name, quantity 1 and the
   * original `totalAmount` as unit price (omitted when falsy), and the payment is
   * the credit note's single cash line.
   */
  lemma ReissueOfCreditNote(relevantNumber: string, data: Json, buyer: BuyerInfo)
    requires CreditNoteRequests.Buildable(data)
    ensures var note := CreditNoteRequests.BuildCreditNoteRequest(relevantNumber, data);
            && Buildable(note)
            && var invoice := BuildCorrectInvoice(note, buyer);
               var source := CreditNoteRequests.ItemsOf(data);
               && |invoice.fields["items"].elems| == |source|
               && (forall i :: 0 <= i < |source| ==>
                     var out := invoice.fields["items"].elems[i];
                     && Get(out, "name") == Get(source[i], "name")
                     && Get(out, "quantity") == Some(Num(1.0))
                     && Get(out, "unitPrice") == (if TruthyField(source[i], "totalAmount") then Get(source[i], "totalAmount") else None)
                     && Get(out, "hsCode") == (if TruthyField(source[i], "hsCode") then Get(source[i], "hsCode") else None))
               && Get(invoice, "payment") == Some(note.fields["payment"])
  {
    var note := CreditNoteRequests.BuildCreditNoteRequest(relevantNumber, data);
    CreditNoteIsBuildable(relevantNumber, data);
    var invoice := BuildCorrectInvoice(note, buyer);
    var source := CreditNoteRequests.ItemsOf(data);
    forall i | 0 <= i < |source|
      ensures var out := invoice.fields["items"].elems[i];
              && Get(out, "name") == Get(source[i], "name")
              && Get(out, "quantity") == Some(Num(1.0))
              && Get(out, "unitPrice") == (if TruthyField(source[i], "totalAmount") then Get(source[i], "totalAmount") else None)
              && Get(out, "hsCode") == (if TruthyField(source[i], "hsCode") then Get(source[i], "hsCode") else None)
    {
      ReissuedItem(source[i], ItemsOf(note)[i], invoice.fields["items"].elems[i]);
    }
  }

  /** A credit note built by stage 2 has an items array of objects, each copying its source item. */
  lemma CreditNoteIsBuildable(relevantNumber: string, data: Json)
    requires CreditNoteRequests.Buildable(data)
    ensures var note := CreditNoteRequests.BuildCreditNoteRequest(relevantNumber, data);
            && Buildable(note)
            && |ItemsOf(note)| == |CreditNoteRequests.ItemsOf(data)|
            && forall i :: 0 <= i < |ItemsOf(note)| ==> CreditNoteRequests.CopiesItem(CreditNoteRequests.ItemsOf(data)[i], ItemsOf(note)[i])
  {
    var note := CreditNoteRequests.BuildCreditNoteRequest(relevantNumber, data);
    var noteItems := note.fields["items"].elems;
    forall i | 0 <= i < |noteItems|
      ensures !noteItems[i].Null?
    {
      assert CreditNoteRequests.CopiesItem(CreditNoteRequests.ItemsOf(data)[i], noteItems[i]);
    }
  }

  /** Re-expressing an item that copies a source item: the source's name, quantity 1, the source's truthy `totalAmount` as unit price. */
  lemma ReissuedItem(source: Json, item: Json, out: Json)
    requires CreditNoteRequests.CopiesItem(source, item)
    requires ReexpressesItem(item, out)
    ensures Get(out, "name") == Get(source, "name")
    ensures Get(out, "quantity") == Some(Num(1.0))
    ensures Get(out, "unitPrice") == (if TruthyField(source, "totalAmount") then Get(source, "totalAmount") else None)
    ensures Get(out, "hsCode") == (if TruthyField(source, "hsCode") then Get(source, "hsCode") else None)
  {
    assert Get(item, "quantity").None? && Get(item, "unitPrice").None?;
  }

  /** The buyer info is complete: present, with a non-empty PIN and name. */
  predicate HasBuyer(buyers: map<string, BuyerInfo>, rn: string) {
    rn in buyers && buyers[rn].buyerPin != "" && buyers[rn].buyerName != ""
  }

  /** What stage 4 does with one checkpointed relevant number. */
  datatype Decision =
    | NoRequest          // no `${rn}.json` request: logged, skipped
    | Threw              // the request does not parse, or the builder throws: the stage ends
    | MissingBuyer       // logged, skipped
    | Built(doc: Json)   // written to `CorrectInvoices/${rn}.json`

  function Decide(requests: Dir, buyers: map<string, BuyerInfo>, rn: string): (d: Decision)
    ensures d.NoRequest? <==> rn + JsonExt !in requests
    // the request is parsed before the buyer test, so a malformed one throws even without a buyer
    ensures d.Threw? <==>
              rn + JsonExt in requests &&
              (requests[rn + JsonExt].Malformed? || (HasBuyer(buyers, rn) && !Buildable(requests[rn + JsonExt].doc)))
    ensures d.MissingBuyer? <==> rn + JsonExt in requests && requests[rn + JsonExt].Parsed? && !HasBuyer(buyers, rn)
    ensures d.Built? ==> HasBuyer(buyers, rn) && d.doc == BuildCorrectInvoice(requests[rn + JsonExt].doc, buyers[rn])
  {
    var creditNoteFile := rn + JsonExt;
    if creditNoteFile !in requests then NoRequest
    else match requests[creditNoteFile]
      case Malformed => Threw
      case Parsed(creditNote) =>
        if !HasBuyer(buyers, rn) then MissingBuyer
        else if !Buildable(creditNote) then Threw
        else Built(BuildCorrectInvoice(creditNote, buyers[rn]))
  }

  /** The invoice a relevant number writes, if any. */
  function InvoiceOf(requests: Dir, buyers: map<string, BuyerInfo>, rn: string): (w: Option<(string, Json)>)
    ensures w.Some? <==> Decide(requests, buyers, rn).Built?
    ensures w.Some? ==> w.value == (rn + JsonExt, Decide(requests, buyers, rn).doc)
  {
    match Decide(requests, buyers, rn)
    case Built(doc) => Some((rn + JsonExt, doc))
    case _ => None
  }

  function Writes(requests: Dir, buyers: map<string, BuyerInfo>, keys: seq<string>): seq<(string, Json)> {
    Collect(rn => InvoiceOf(requests, buyers, rn), keys)
  }

  /** How many keys the loop gets through: up to the first one that throws, or all of them. */
  function Stop(requests: Dir, buyers: map<string, BuyerInfo>, keys: seq<string>): (k: nat)
    ensures k <= |keys|
    ensures forall j :: 0 <= j < k ==> !Decide(requests, buyers, keys[j]).Threw?
    ensures k < |keys| ==> Decide(requests, buyers, keys[k]).Threw?
    decreases |keys|
  {
    if keys == [] || Decide(requests, buyers, keys[0]).Threw? then 0
    else 1 + Stop(requests, buyers, keys[1..])
  }

  /** A key the loop reaches ends it exactly when it throws. */
  lemma StopStep(requests: Dir, buyers: map<string, BuyerInfo>, keys: seq<string>, i: nat)
    requires i <= Stop(requests, buyers, keys) && i < |keys|
    ensures Decide(requests, buyers, keys[i]).Threw? <==> Stop(requests, buyers, keys) == i
  {
  }

  /** One more key adds its invoice, if it builds one, to the writes so far. */
  lemma WritesStep(requests: Dir, buyers: map<string, BuyerInfo>, keys: seq<string>, invoices: Dir, i: nat)
    requires i < |keys|
    ensures WriteAll(invoices, Writes(requests, buyers, keys[..i + 1])) ==
            WriteAll(WriteAll(invoices, Writes(requests, buyers, keys[..i])), ToSeq(InvoiceOf(requests, buyers, keys[i])))
  {
    CollectStep(rn => InvoiceOf(requests, buyers, rn), keys, i);
    WriteAllSnocOpt(invoices, Writes(requests, buyers, keys[..i]), InvoiceOf(requests, buyers, keys[i]));
  }

  /**
   * `createCorrectInvoices`: `processed` is `processedCreditnotes.json`, `requests`
   * the credit-note request directory, `invoices` the correct-invoice directory.
   */
  method CreateCorrectInvoices(processed: CheckpointFile, requests: Dir, sheet: Option<Sheet>, invoices: Dir)
    returns (invoices': Dir, ending: Ending)
    ensures processed.Absent? ==> invoices' == invoices && ending == NoCheckpointFile
    ensures processed.Unreadable? ==> invoices' == invoices && ending == CheckpointFileThrew
    ensures processed.Saved? ==>
              var buyers := BuyerMap(sheet);
              var stop := Stop(requests, buyers, processed.keys);
              && invoices' == WriteAll(invoices, Writes(requests, buyers, processed.keys[..stop]))
              && ending == if stop < |processed.keys| then ThrewAt(stop) else Finished
  {
    match processed {
      case Absent =>
        return invoices, NoCheckpointFile;
      case Unreadable =>
        return invoices, CheckpointFileThrew;
      case Saved(processedCreditNotes) =>
        var buyerMap := BuildRelevantNumberToBuyerMap(sheet);
        var stop;
        invoices', stop := CreateInvoices(processedCreditNotes, requests, buyerMap, invoices);
        ending := if stop < |processedCreditNotes| then ThrewAt(stop) else Finished;
    }
  }

  /** The loop over the checkpointed keys; it returns how far it got. */
  method CreateInvoices(keys: seq<string>, requests: Dir, buyers: map<string, BuyerInfo>, invoices: Dir)
    returns (invoices': Dir, stop: nat)
    ensures stop == Stop(requests, buyers, keys)
    ensures invoices' == WriteAll(invoices, Writes(requests, buyers, keys[..stop]))
  {
    invoices' := invoices;
    for i := 0 to |keys|
      invariant i <= Stop(requests, buyers, keys)
      invariant invoices' == WriteAll(invoices, Writes(requests, buyers, keys[..i]))
    {
      WritesStep(requests, buyers, keys, invoices, i);
      StopStep(requests, buyers, keys, i);
      var threw;
      invoices', threw := CreateOne(requests, buyers, keys[i], invoices');
      if threw {
        return invoices', i;
      }
    }
    stop := |keys|;
  }

  /** The loop body for one key: it throws, or writes the key's invoice if it builds one. */
  method CreateOne(requests: Dir, buyers: map<string, BuyerInfo>, relevantNumber: string, invoices: Dir)
    returns (invoices': Dir, threw: bool)
    ensures threw <==> Decide(requests, buyers, relevantNumber).Threw?
    ensures invoices' == WriteAll(invoices, ToSeq(InvoiceOf(requests, buyers, relevantNumber)))
  {
    var decision := Decide(requests, buyers, relevantNumber);
    invoices' := invoices;
    match decision {
      case Threw =>
        return invoices', true;
      case Built(correctInvoice) =>
        invoices' := invoices[relevantNumber + JsonExt := Parsed(correctInvoice)];
        WriteOne(invoices, (relevantNumber + JsonExt, correctInvoice));
      case _ =>
    }
    threw := false;
  }

  /**
   * After the loop, every key it got through whose invoice was built has that
   * invoice in `${key}.json`, and every other name is as it was.
   */
  lemma InvoicesWritten(keys: seq<string>, requests: Dir, buyers: map<string, BuyerInfo>, invoices: Dir)
    ensures var done := keys[..Stop(requests, buyers, keys)];
            var invoices' := WriteAll(invoices, Writes(requests, buyers, done));
            && (forall i :: 0 <= i < |done| && Decide(requests, buyers, done[i]).Built? ==>
                  done[i] + JsonExt in invoices' && invoices'[done[i] + JsonExt] == Parsed(Decide(requests, buyers, done[i]).doc))
            && (forall name :: (forall i :: 0 <= i < |done| && Decide(requests, buyers, done[i]).Built? ==> done[i] + JsonExt != name) ==>
                  (name in invoices' <==> name in invoices) && (name in invoices ==> invoices'[name] == invoices[name]))
  {
    var done := keys[..Stop(requests, buyers, keys)];
    var invoiceOf := rn => InvoiceOf(requests, buyers, rn);
    forall i | 0 <= i < |done| && Decide(requests, buyers, done[i]).Built?
      ensures done[i] + JsonExt in WriteAll(invoices, Writes(requests, buyers, done))
      ensures WriteAll(invoices, Writes(requests, buyers, done))[done[i] + JsonExt] == Parsed(Decide(requests, buyers, done[i]).doc)
    {
      var name := done[i] + JsonExt;
      forall j | 0 <= j < |done| && invoiceOf(done[j]).Some? && invoiceOf(done[j]).value.0 == name
        ensures invoiceOf(done[j]).value.1 == Decide(requests, buyers, done[i]).doc
      {
        AppendCancel(done[j], done[i], JsonExt);
      }
      CollectValue(invoices, invoiceOf, done, name, Decide(requests, buyers, done[i]).doc);
    }
    forall name | forall i :: 0 <= i < |done| && Decide(requests, buyers, done[i]).Built? ==> done[i] + JsonExt != name
      ensures (name in WriteAll(invoices, Writes(requests, buyers, done)) <==> name in invoices)
      ensures name in invoices ==> WriteAll(invoices, Writes(requests, buyers, done))[name] == invoices[name]
    {
      CollectFrame(invoices, invoiceOf, done, name);
    }
  }
}
