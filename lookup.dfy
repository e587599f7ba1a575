/**
 * Lookup tables filled from spreadsheet rows by `map[key] = value` in row order,
 * so that a later row overwrites an earlier one with the same key.
 */
module Lookup {
  import opened Wrappers
  import opened Text
  import opened Sheet

  /** The entry assigns key `k`. */
  predicate Assigns<V>(e: Option<(string, V)>, k: string) {
    e.Some? && e.value.0 == k
  }

  /** The table after `m[k] = v` for each entry Some((k, v)), in order, starting from `{}`. */
  function Assign<V>(entries: seq<Option<(string, V)>>): map<string, V>
    decreases |entries|
  {
    if entries == [] then map[]
    else
      var m := Assign(entries[..|entries| - 1]);
      match entries[|entries| - 1]
      case None => m
      case Some(kv) => m[kv.0 := kv.1]
  }

  /** The table after entry `i` is the table before it, updated by that entry. */
  lemma AssignStep<V>(entries: seq<Option<(string, V)>>, i: nat)
    requires i < |entries|
    ensures entries[i].None? ==> Assign(entries[..i + 1]) == Assign(entries[..i])
    ensures entries[i].Some? ==> Assign(entries[..i + 1]) == Assign(entries[..i])[entries[i].value.0 := entries[i].value.1]
  {
    assert entries[..i + 1][..i] == entries[..i];
  }

  /** No entry after index `i` assigns the key entry `i` assigns. */
  predicate IsLast<V>(entries: seq<Option<(string, V)>>, i: nat)
    requires i < |entries| && entries[i].Some?
  {
    forall j :: i < j < |entries| ==> !Assigns(entries[j], entries[i].value.0)
  }

  /** The table has exactly the assigned keys, each with the value of the LAST entry assigning it. */
  ghost predicate LastWins<V>(m: map<string, V>, entries: seq<Option<(string, V)>>) {
    && (forall k :: k in m ==> exists i :: 0 <= i < |entries| && Assigns(entries[i], k))
    && (forall i :: 0 <= i < |entries| && entries[i].Some? ==> entries[i].value.0 in m)
    && (forall i :: 0 <= i < |entries| && entries[i].Some? && IsLast(entries, i) ==>
          m[entries[i].value.0] == entries[i].value.1)
  }

  /** The table's keys are exactly the keys some entry assigns. */
  lemma {:induction false} AssignKeys<V>(entries: seq<Option<(string, V)>>)
    ensures forall k :: k in Assign(entries) ==> exists i :: 0 <= i < |entries| && Assigns(entries[i], k)
    ensures forall i :: 0 <= i < |entries| && entries[i].Some? ==> entries[i].value.0 in Assign(entries)
    decreases |entries|
  {
    if entries != [] {
      var n := |entries| - 1;
      var prefix := entries[..n];
      AssignKeys(prefix);
      forall k | k in Assign(entries)
        ensures exists i :: 0 <= i < |entries| && Assigns(entries[i], k)
      {
        if k in Assign(prefix) {
          var i :| 0 <= i < |prefix| && Assigns(prefix[i], k);
          assert entries[i] == prefix[i];
        } else {
          assert Assigns(entries[n], k);
        }
      }
      forall i | 0 <= i < n && entries[i].Some?
        ensures entries[i].value.0 in Assign(entries)
      {
        assert prefix[i] == entries[i];
      }
    }
  }

  /** An entry that no later entry overrides gives its key's value in the table. */
  lemma {:induction false} AssignLastValue<V>(entries: seq<Option<(string, V)>>, i: nat)
    requires i < |entries| && entries[i].Some? && IsLast(entries, i)
    ensures entries[i].value.0 in Assign(entries)
    ensures Assign(entries)[entries[i].value.0] == entries[i].value.1
    decreases |entries|
  {
    var n := |entries| - 1;
    if i < n {
      var prefix := entries[..n];
      assert prefix[i] == entries[i];
      assert IsLast(prefix, i) by {
        forall j | i < j < |prefix|
          ensures !Assigns(prefix[j], entries[i].value.0)
        {
          assert prefix[j] == entries[j];
        }
      }
      AssignLastValue(prefix, i);
      assert !Assigns(entries[n], entries[i].value.0);
    }
  }

  /** Assigning in order is "last row wins". */
  lemma AssignLastWins<V>(entries: seq<Option<(string, V)>>)
    ensures LastWins(Assign(entries), entries)
  {
    AssignKeys(entries);
    forall i | 0 <= i < |entries| && entries[i].Some? && IsLast(entries, i)
      ensures Assign(entries)[entries[i].value.0] == entries[i].value.1
    {
      AssignLastValue(entries, i);
    }
  }

  /** Some entry with key `k` is the last one with that key. */
  lemma {:induction false} LastExists<V>(entries: seq<Option<(string, V)>>, i: nat)
    requires i < |entries| && entries[i].Some?
    ensures exists l :: i <= l < |entries| && Assigns(entries[l], entries[i].value.0) && IsLast(entries, l)
    decreases |entries| - i
  {
    var k := entries[i].value.0;
    if !IsLast(entries, i) {
      var j :| i < j < |entries| && Assigns(entries[j], k);
      LastExists(entries, j);
    }
  }

  /** "Last row wins" determines the table: any two tables that satisfy it are equal. */
  lemma LastWinsUnique<V>(m1: map<string, V>, m2: map<string, V>, entries: seq<Option<(string, V)>>)
    requires LastWins(m1, entries) && LastWins(m2, entries)
    ensures m1 == m2
  {
    forall k | k in m1
      ensures k in m2 && m1[k] == m2[k]
    {
      var i :| 0 <= i < |entries| && Assigns(entries[i], k);
      LastExists(entries, i);
    }
    forall k | k in m2
      ensures k in m1
    {
      var i :| 0 <= i < |entries| && Assigns(entries[i], k);
    }
  }

  /** Every value in the table is the value of some entry for its key. */
  lemma {:induction false} AssignedValue<V>(entries: seq<Option<(string, V)>>, k: string)
    requires k in Assign(entries)
    ensures exists i :: 0 <= i < |entries| && entries[i] == Some((k, Assign(entries)[k]))
    decreases |entries|
  {
    var n := |entries| - 1;
    var prefix := entries[..n];
    if !Assigns(entries[n], k) {
      AssignedValue(prefix, k);
      var i :| 0 <= i < |prefix| && prefix[i] == Some((k, Assign(prefix)[k]));
      assert entries[i] == prefix[i];
    }
  }

  /** Row entry of the device tables: relevant number (column B) to device number (column C), both trimmed. */
  function DeviceEntry(row: Row): Option<(string, string)> {
    match (Cell(row, ColB), Cell(row, ColC))
    case (Some(b), Some(c)) => Some((Trim(b), Trim(c)))
    case _ => None
  }

  function DeviceEntries(rows: seq<Row>): seq<Option<(string, string)>> {
    seq(|rows|, i requires 0 <= i < |rows| => DeviceEntry(rows[i]))
  }

  /** The device table is "last row wins". */
  lemma DeviceTable(rows: seq<Row>)
    ensures LastWins(Assign(DeviceEntries(rows)), DeviceEntries(rows))
  {
    AssignLastWins(DeviceEntries(rows));
  }

  /** The device table's device numbers are already trimmed. */
  lemma DeviceNumbersTrimmed(rows: seq<Row>, k: string)
    requires k in Assign(DeviceEntries(rows))
    ensures Trim(Assign(DeviceEntries(rows))[k]) == Assign(DeviceEntries(rows))[k]
  {
    var entries := DeviceEntries(rows);
    var m := Assign(entries);
    AssignedValue(entries, k);
    var i :| 0 <= i < |rows| && entries[i] == Some((k, m[k]));
    var c := Cell(rows[i], ColC).value;
    assert m[k] == Trim(c);
    TrimIdempotent(c);
  }

  /** A key of the table holds the value of the last entry assigning it. */
  lemma LastEntry<V>(entries: seq<Option<(string, V)>>, k: string)
    requires k in Assign(entries)
    ensures exists r :: 0 <= r < |entries| && entries[r] == Some((k, Assign(entries)[k])) && IsLast(entries, r)
  {
    AssignLastWins(entries);
    var i :| 0 <= i < |entries| && Assigns(entries[i], k);
    LastExists(entries, i);
  }

  /** A spreadsheet entry's device number is the column-C value of the last row with that relevant number. */
  lemma LastRowWins(rows: seq<Row>, k: string)
    requires k in Assign(DeviceEntries(rows))
    ensures exists r :: 0 <= r < |rows| && DeviceEntry(rows[r]) == Some((k, Assign(DeviceEntries(rows))[k])) && IsLast(DeviceEntries(rows), r)
  {
    var entries := DeviceEntries(rows);
    LastEntry(entries, k);
    var r :| 0 <= r < |entries| && entries[r] == Some((k, Assign(entries)[k])) && IsLast(entries, r);
    assert entries[r] == DeviceEntry(rows[r]);
  }

  /**
   * The row loop shared by stage 3 (its `excelMap`) and stage 5: every row with
   * both B and C truthy maps trim(B) to trim(C), a later row overwriting an
   * earlier one.
   */
  method DeviceColumns(rows: seq<Row>) returns (m: map<string, string>)
    ensures m == Assign(DeviceEntries(rows))
  {
    ghost var entries := DeviceEntries(rows);
    m := map[];
    for i := 0 to |rows|
      invariant m == Assign(entries[..i])
    {
      AssignStep(entries, i);
      var invoiceCell := Cell(rows[i], ColB);
      var deviceCell := Cell(rows[i], ColC);
      if invoiceCell.Some? && deviceCell.Some? {
        var relevantNumber := Trim(invoiceCell.value);
        var deviceNumber := Trim(deviceCell.value);
        m := m[relevantNumber := deviceNumber];
      }
    }
    assert entries[..|rows|] == entries;
  }
}
