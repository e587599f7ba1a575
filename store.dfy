/**
 * The durable state the stages share: artifact directories of JSON files and the
 * per-stage checkpoint files (`processedNumbers.json`, `processedCreditnotes.json`,
 * `processedCorrectInvoices.json`).
 */
module Store {
  import opened Wrappers
  import opened Json
  import opened Seqs

  /** What `JSON.parse(fs.readFileSync(...))` makes of a directory entry. */
  datatype Content = Parsed(doc: Json) | Malformed

  /** A directory: file name (with its extension) to content. */
  type Dir = map<string, Content>

  /** How a stage invocation ended: normally, or by an exception that escaped it. */
  datatype Ending =
    | Finished
    | NoCheckpointFile       // returned early: the checkpoint file it starts from does not exist
    | CheckpointFileThrew    // the checkpoint file it starts from did not parse
    | ThrewAt(index: nat)    // the record at this index of the work list threw

  /** Reading a listed name inside the stages' `try`: a name that is not a readable JSON file is Malformed. */
  function Load(dir: Dir, name: string): (c: Content)
    ensures name in dir ==> c == dir[name]
    ensures name !in dir ==> c.Malformed?
  {
    if name in dir then dir[name] else Malformed
  }

  /** The directory after `fs.writeFileSync` of each (name, document) in order: the last write to a name wins. */
  function WriteAll(dir: Dir, writes: seq<(string, Json)>): Dir
    decreases |writes|
  {
    if writes == [] then dir
    else
      var w := writes[|writes| - 1];
      WriteAll(dir, writes[..|writes| - 1])[w.0 := Parsed(w.1)]
  }

  lemma WriteAllSnoc(dir: Dir, writes: seq<(string, Json)>, w: (string, Json))
    ensures WriteAll(dir, writes + [w]) == WriteAll(dir, writes)[w.0 := Parsed(w.1)]
  {
    assert (writes + [w])[..|writes|] == writes;
  }

  /** A single write. */
  lemma WriteOne(dir: Dir, w: (string, Json))
    ensures WriteAll(dir, [w]) == dir[w.0 := Parsed(w.1)]
  {
    assert [w][..0] == [];
  }

  /** Appending at most one write: the step of a loop that writes one artifact or none. */
  lemma WriteAllSnocOpt(dir: Dir, writes: seq<(string, Json)>, w: Option<(string, Json)>)
    ensures WriteAll(dir, writes + ToSeq(w)) == WriteAll(WriteAll(dir, writes), ToSeq(w))
  {
    match w
    case None => assert writes + [] == writes;
    case Some(x) => WriteAllSnoc(dir, writes, x);
  }

  /** Writes never touch a name nobody writes to. */
  lemma {:induction false} WriteAllFrame(dir: Dir, writes: seq<(string, Json)>, name: string)
    requires forall i :: 0 <= i < |writes| ==> writes[i].0 != name
    ensures (name in WriteAll(dir, writes)) == (name in dir)
    ensures name in dir ==> WriteAll(dir, writes)[name] == dir[name]
    decreases |writes|
  {
    if writes != [] {
      WriteAllFrame(dir, writes[..|writes| - 1], name);
    }
  }

  /** A name holds the document of the last write to it. */
  lemma {:induction false} WriteAllLast(dir: Dir, writes: seq<(string, Json)>, i: nat)
    requires i < |writes|
    requires forall j :: i < j < |writes| ==> writes[j].0 != writes[i].0
    ensures writes[i].0 in WriteAll(dir, writes)
    ensures WriteAll(dir, writes)[writes[i].0] == Parsed(writes[i].1)
    decreases |writes|
  {
    if i < |writes| - 1 {
      WriteAllLast(dir, writes[..|writes| - 1], i);
    }
  }

  /** Every written name exists afterwards. */
  lemma {:induction false} WriteAllWritten(dir: Dir, writes: seq<(string, Json)>, i: nat)
    requires i < |writes|
    ensures writes[i].0 in WriteAll(dir, writes)
    decreases |writes|
  {
    if i < |writes| - 1 {
      WriteAllWritten(dir, writes[..|writes| - 1], i);
    }
  }

  /** The writes overlay the directory: what they leave does not depend on what was there. */
  lemma {:induction false} WriteAllOverlay(dir: Dir, writes: seq<(string, Json)>)
    ensures WriteAll(dir, writes) == dir + WriteAll(map[], writes)
    decreases |writes|
  {
    if writes != [] {
      WriteAllOverlay(dir, writes[..|writes| - 1]);
    }
  }

  /** Repeating the same writes changes nothing (overwrites with identical content). */
  lemma WriteAllIdempotent(dir: Dir, writes: seq<(string, Json)>)
    ensures WriteAll(WriteAll(dir, writes), writes) == WriteAll(dir, writes)
  {
    WriteAllOverlay(dir, writes);
    WriteAllOverlay(WriteAll(dir, writes), writes);
  }

  /** The writes of a loop that writes at most one file per element, in element order. */
  function Collect<T>(artifact: T -> Option<(string, Json)>, xs: seq<T>): seq<(string, Json)>
    decreases |xs|
  {
    if xs == [] then [] else Collect(artifact, xs[..|xs| - 1]) + ToSeq(artifact(xs[|xs| - 1]))
  }

  lemma CollectStep<T>(artifact: T -> Option<(string, Json)>, xs: seq<T>, i: nat)
    requires i < |xs|
    ensures Collect(artifact, xs[..i + 1]) == Collect(artifact, xs[..i]) + ToSeq(artifact(xs[i]))
  {
    assert xs[..i + 1][..i] == xs[..i];
  }

  /** The writes are exactly the elements' artifacts. */
  lemma {:induction false} CollectMembers<T>(artifact: T -> Option<(string, Json)>, xs: seq<T>)
    ensures forall i :: 0 <= i < |xs| && artifact(xs[i]).Some? ==> artifact(xs[i]).value in Collect(artifact, xs)
    ensures forall w :: w in Collect(artifact, xs) ==> exists i :: 0 <= i < |xs| && artifact(xs[i]) == Some(w)
    decreases |xs|
  {
    if xs != [] {
      var n := |xs| - 1;
      CollectMembers(artifact, xs[..n]);
      forall i | 0 <= i < n
        ensures artifact(xs[..n][i]) == artifact(xs[i])
      {
        assert xs[..n][i] == xs[i];
      }
    }
  }

  /** Every element's artifact name exists after the writes. */
  lemma CollectWritten<T>(dir: Dir, artifact: T -> Option<(string, Json)>, xs: seq<T>, i: nat)
    requires i < |xs| && artifact(xs[i]).Some?
    ensures artifact(xs[i]).value.0 in WriteAll(dir, Collect(artifact, xs))
  {
    CollectMembers(artifact, xs);
    var writes := Collect(artifact, xs);
    var j :| 0 <= j < |writes| && writes[j] == artifact(xs[i]).value;
    WriteAllWritten(dir, writes, j);
  }

  /** A name no element's artifact uses keeps its old content. */
  lemma CollectFrame<T>(dir: Dir, artifact: T -> Option<(string, Json)>, xs: seq<T>, name: string)
    requires forall i :: 0 <= i < |xs| ==> artifact(xs[i]).None? || artifact(xs[i]).value.0 != name
    ensures (name in WriteAll(dir, Collect(artifact, xs))) == (name in dir)
    ensures name in dir ==> WriteAll(dir, Collect(artifact, xs))[name] == dir[name]
  {
    CollectMembers(artifact, xs);
    var writes := Collect(artifact, xs);
    forall j | 0 <= j < |writes|
      ensures writes[j].0 != name
    {
      assert writes[j] in writes;
    }
    WriteAllFrame(dir, writes, name);
  }

  /** A name written by element `i` and by no later element holds element `i`'s document afterwards. */
  lemma {:induction false} CollectLast<T>(dir: Dir, artifact: T -> Option<(string, Json)>, xs: seq<T>, i: nat)
    requires i < |xs| && artifact(xs[i]).Some?
    requires forall j :: i < j < |xs| ==> artifact(xs[j]).None? || artifact(xs[j]).value.0 != artifact(xs[i]).value.0
    ensures artifact(xs[i]).value.0 in WriteAll(dir, Collect(artifact, xs))
    ensures WriteAll(dir, Collect(artifact, xs))[artifact(xs[i]).value.0] == Parsed(artifact(xs[i]).value.1)
    decreases |xs|
  {
    var n := |xs| - 1;
    var prefix := xs[..n];
    var w := artifact(xs[i]).value;
    if i == n {
      WriteAllSnoc(dir, Collect(artifact, prefix), w);
    } else {
      assert prefix[i] == xs[i];
      forall j | i < j < |prefix|
        ensures artifact(prefix[j]).None? || artifact(prefix[j]).value.0 != w.0
      {
        assert prefix[j] == xs[j];
      }
      CollectLast(dir, artifact, prefix, i);
      WriteAllSnocOpt(dir, Collect(artifact, prefix), artifact(xs[n]));
      WriteOptElsewhere(WriteAll(dir, Collect(artifact, prefix)), artifact(xs[n]), w.0);
    }
  }

  /** At most one write to another name leaves a name's entry as it was. */
  lemma WriteOptElsewhere(dir: Dir, w: Option<(string, Json)>, name: string)
    requires name in dir && (w.None? || w.value.0 != name)
    ensures name in WriteAll(dir, ToSeq(w)) && WriteAll(dir, ToSeq(w))[name] == dir[name]
  {
    match w {
      case None =>
      case Some(x) => WriteOne(dir, x);
    }
  }

  /** A name written at least once, always with the same document, holds that document afterwards. */
  lemma {:induction false} WriteAllValue(dir: Dir, writes: seq<(string, Json)>, name: string, doc: Json)
    requires exists j :: 0 <= j < |writes| && writes[j].0 == name
    requires forall j :: 0 <= j < |writes| && writes[j].0 == name ==> writes[j].1 == doc
    ensures name in WriteAll(dir, writes)
    ensures WriteAll(dir, writes)[name] == Parsed(doc)
    decreases |writes|
  {
    var n := |writes| - 1;
    if writes[n].0 != name {
      var prefix := writes[..n];
      var j :| 0 <= j < |writes| && writes[j].0 == name;
      assert prefix[j] == writes[j];
      forall j | 0 <= j < n && prefix[j].0 == name
        ensures prefix[j].1 == doc
      {
        assert prefix[j] == writes[j];
      }
      WriteAllValue(dir, prefix, name, doc);
    }
  }

  /** A name that every element writing it writes with the same document holds that document afterwards. */
  lemma CollectValue<T>(dir: Dir, artifact: T -> Option<(string, Json)>, xs: seq<T>, name: string, doc: Json)
    requires exists i :: 0 <= i < |xs| && artifact(xs[i]).Some? && artifact(xs[i]).value.0 == name
    requires forall i :: 0 <= i < |xs| && artifact(xs[i]).Some? && artifact(xs[i]).value.0 == name ==> artifact(xs[i]).value.1 == doc
    ensures name in WriteAll(dir, Collect(artifact, xs))
    ensures WriteAll(dir, Collect(artifact, xs))[name] == Parsed(doc)
  {
    CollectMembers(artifact, xs);
    var writes := Collect(artifact, xs);
    var i :| 0 <= i < |xs| && artifact(xs[i]).Some? && artifact(xs[i]).value.0 == name;
    assert artifact(xs[i]).value in writes;
    forall j | 0 <= j < |writes| && writes[j].0 == name
      ensures writes[j].1 == doc
    {
      assert writes[j] in writes;
    }
    WriteAllValue(dir, writes, name, doc);
  }

  /** A checkpoint file: missing, present but not parseable, or a saved JSON array of keys. */
  datatype CheckpointFile = Absent | Unreadable | Saved(keys: seq<string>)

  /** `readProcessed*`: a missing or unparseable file reads as the empty list, never as an error. */
  function ReadProcessed(f: CheckpointFile): (keys: seq<string>)
    ensures f.Absent? || f.Unreadable? ==> keys == []
  {
    if f.Saved? then f.keys else []
  }

  /**
   * `writeProcessed*`: re-reads the file and appends the key unless it is already
   * there, in which case the file is not rewritten. An unparseable file is
   * replaced by a one-key list.
   */
  function WriteProcessed(f: CheckpointFile, key: string): (f': CheckpointFile)
    ensures f'.Saved? && key in ReadProcessed(f')
    ensures ReadProcessed(f) <= ReadProcessed(f')
    ensures |ReadProcessed(f')| <= |ReadProcessed(f)| + 1
    ensures key in ReadProcessed(f) ==> f' == f
    ensures NoDuplicates(ReadProcessed(f)) ==> NoDuplicates(ReadProcessed(f'))
    ensures f.Unreadable? ==> f' == Saved([key])
    ensures ReadProcessed(f') == if key in ReadProcessed(f) then ReadProcessed(f) else ReadProcessed(f) + [key]
  {
    var processed := ReadProcessed(f);
    if key in processed then f else Saved(processed + [key])
  }

  /** The checkpoint file after `writeProcessed*` of each key in order. */
  function RecordAll(f: CheckpointFile, keys: seq<string>): CheckpointFile
    decreases |keys|
  {
    if keys == [] then f
    else WriteProcessed(RecordAll(f, keys[..|keys| - 1]), keys[|keys| - 1])
  }

  lemma RecordAllSnoc(f: CheckpointFile, keys: seq<string>, key: string)
    ensures RecordAll(f, keys + [key]) == WriteProcessed(RecordAll(f, keys), key)
  {
    assert (keys + [key])[..|keys|] == keys;
  }

  /** Recording one key or none: the step of a loop that checkpoints some iterations. */
  lemma RecordAllSnocIf(f: CheckpointFile, keys: seq<string>, key: string, record: bool)
    ensures RecordAll(f, keys + (if record then [key] else []))
         == if record then WriteProcessed(RecordAll(f, keys), key) else RecordAll(f, keys)
  {
    if record {
      RecordAllSnoc(f, keys, key);
    } else {
      assert keys + [] == keys;
    }
  }

  /** Recording keys never drops or reorders an entry: the old list is a prefix of the new one. */
  lemma {:induction false} RecordAllPrefix(f: CheckpointFile, keys: seq<string>)
    ensures ReadProcessed(f) <= ReadProcessed(RecordAll(f, keys))
    decreases |keys|
  {
    if keys != [] {
      var prefix := keys[..|keys| - 1];
      RecordAllPrefix(f, prefix);
      var earlier, before, after := ReadProcessed(f), ReadProcessed(RecordAll(f, prefix)), ReadProcessed(RecordAll(f, keys));
      assert after == before || after == before + [keys[|keys| - 1]];
      assert after[..|before|] == before;
      assert earlier == before[..|earlier|];
      assert after[..|earlier|] == after[..|before|][..|earlier|];
    }
  }

  /** After recording, the list holds exactly the old keys and the recorded ones. */
  lemma {:induction false} RecordAllMembers(f: CheckpointFile, keys: seq<string>)
    ensures forall k :: k in ReadProcessed(RecordAll(f, keys)) <==> k in ReadProcessed(f) || k in keys
    decreases |keys|
  {
    if keys != [] {
      var prefix := keys[..|keys| - 1];
      RecordAllMembers(f, prefix);
      assert keys == prefix + [keys[|keys| - 1]];
    }
  }

  /** Every entry appended by recording was absent from the old list. */
  lemma {:induction false} RecordAllNew(f: CheckpointFile, keys: seq<string>)
    ensures forall j :: |ReadProcessed(f)| <= j < |ReadProcessed(RecordAll(f, keys))| ==>
              ReadProcessed(RecordAll(f, keys))[j] !in ReadProcessed(f)
    decreases |keys|
  {
    if keys != [] {
      var prefix := keys[..|keys| - 1];
      RecordAllNew(f, prefix);
      RecordAllMembers(f, prefix);
      var before := ReadProcessed(RecordAll(f, prefix));
      var after := ReadProcessed(RecordAll(f, keys));
      forall j | |ReadProcessed(f)| <= j < |after|
        ensures after[j] !in ReadProcessed(f)
      {
        if j < |before| {
          assert after[j] == before[j];
        } else {
          assert after[j] == keys[|keys| - 1] && after[j] !in before;
        }
      }
    }
  }

  /** Recording keeps a duplicate-free list duplicate-free. */
  lemma {:induction false} RecordAllNoDuplicates(f: CheckpointFile, keys: seq<string>)
    requires NoDuplicates(ReadProcessed(f))
    ensures NoDuplicates(ReadProcessed(RecordAll(f, keys)))
    decreases |keys|
  {
    if keys != [] {
      RecordAllNoDuplicates(f, keys[..|keys| - 1]);
    }
  }

  /**
   * The list is append-only, holds exactly the old keys and the recorded ones,
   * never gains a key it already had, and stays duplicate-free.
   */
  lemma RecordAllAppends(f: CheckpointFile, keys: seq<string>)
    ensures ReadProcessed(f) <= ReadProcessed(RecordAll(f, keys))
    ensures forall k :: k in ReadProcessed(RecordAll(f, keys)) <==> k in ReadProcessed(f) || k in keys
    ensures forall j :: |ReadProcessed(f)| <= j < |ReadProcessed(RecordAll(f, keys))| ==>
              ReadProcessed(RecordAll(f, keys))[j] !in ReadProcessed(f)
    ensures NoDuplicates(ReadProcessed(f)) ==> NoDuplicates(ReadProcessed(RecordAll(f, keys)))
  {
    RecordAllPrefix(f, keys);
    RecordAllMembers(f, keys);
    RecordAllNew(f, keys);
    if NoDuplicates(ReadProcessed(f)) {
      RecordAllNoDuplicates(f, keys);
    }
  }

  /** Recording keys that are all present already leaves the file as it is. */
  lemma {:induction false} RecordAllStable(f: CheckpointFile, keys: seq<string>)
    requires forall k :: k in keys ==> k in ReadProcessed(f)
    ensures RecordAll(f, keys) == f
    decreases |keys|
  {
    if keys != [] {
      RecordAllStable(f, keys[..|keys| - 1]);
    }
  }

  /** Checkpoint idempotence: recording the same keys again adds nothing and rewrites nothing. */
  lemma RecordAllIdempotent(f: CheckpointFile, keys: seq<string>)
    ensures RecordAll(RecordAll(f, keys), keys) == RecordAll(f, keys)
  {
    RecordAllAppends(f, keys);
    RecordAllStable(RecordAll(f, keys), keys);
  }
}
