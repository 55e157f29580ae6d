/**
 From bytes to streams: every run of the log is a run of byte batches, every state
 of it has an iterator over its messages, and so every published snapshot is one
 the read path and the subscription stream are proved for.
 */
module ByteRuns {
  import opened Types
  import opened Records
  import opened ChannelEvents
  import opened Encoding
  import opened Store
  import opened Log
  import opened LogInvariants
  import opened LogRuns
  import opened Scan
  import opened Paging
  import opened RawStore
  import opened Fetching
  import opened Subscription
  import Snapshots

  // ---------------------------------------------------------------- iterators exist

  lemma {:induction false} SortedCons(e: Entry<Cell>, cf: seq<Entry<Cell>>)
    requires Sorted(cf) && forall i :: 0 <= i < |cf| ==> Less(e.key, cf[i].key)
    ensures Sorted([e] + cf)
  {
    hide Less;
  }

  /** An entry with a new key has its place among the others. */
  lemma {:induction false} Insert(cf: seq<Entry<Cell>>, e: Entry<Cell>) returns (r: seq<Entry<Cell>>)
    requires Sorted(cf) && !Listed(cf, e.key)
    ensures Sorted(r) && forall x :: x in r <==> x in cf || x == e
  {
    hide Less;
    if |cf| == 0 {
      r := [e];
    } else {
      var head, tail := cf[0], cf[1..];
      assert cf == [head] + tail;
      assert e.key != head.key;
      LessTotal(e.key, head.key);
      if Less(e.key, head.key) {
        forall i | 0 <= i < |cf|
          ensures Less(e.key, cf[i].key)
        {
          if i > 0 {
            LessTransitive(e.key, head.key, cf[i].key);
          }
        }
        SortedCons(e, cf);
        r := [e] + cf;
      } else {
        assert forall i :: 0 <= i < |tail| ==> tail[i] == cf[i + 1];
        var rest := Insert(tail, e);
        forall i | 0 <= i < |rest|
          ensures Less(head.key, rest[i].key)
        {
          assert rest[i] in rest;
        }
        SortedCons(head, rest);
        r := [head] + rest;
      }
    }
  }

  /** Every table can be iterated. */
  lemma {:induction false} IteratorExists(t: Table) returns (cf: seq<Entry<Cell>>)
    ensures Iterates(cf, t)
    decreases |t|
  {
    hide Less;
    if t == map[] {
      cf := [];
    } else {
      var key :| key in t;
      var rest := t - {key};
      assert |rest| < |t| by {
        assert rest.Keys == t.Keys - {key};
      }
      var before := IteratorExists(rest);
      cf := Insert(before, Entry(key, t[key]));
      InsertIterates(t, key, before, cf);
    }
  }

  lemma {:induction false} InsertIterates(t: Table, key: Bytes, before: seq<Entry<Cell>>, cf: seq<Entry<Cell>>)
    requires key in t && Iterates(before, t - {key}) && Sorted(cf)
    requires forall x :: x in cf <==> x in before || x == Entry(key, t[key])
    ensures Iterates(cf, t)
  {
    hide Less;
    hide Sorted;
    forall i | 0 <= i < |cf|
      ensures cf[i].key in t && t[cf[i].key] == cf[i].value
    {
      assert cf[i] in cf;
    }
    forall k: Bytes | k in t
      ensures Listed(cf, k)
    {
      if k != key {
        assert k in t - {key};
        assert Listed(before, k);
        var i :| 0 <= i < |before| && before[i].key == k;
        assert before[i] in cf;
      } else {
        assert Entry(key, t[key]) in cf;
      }
    }
  }

  // ---------------------------------------------------------------- batches fit

  /** Identifiers and tokens a request names, where the state does not bound them: 64-bit numbers and bytes. */
  predicate FitsOp(op: Op) {
    match op
    case DeleteToken(c) => IsBytes(c.token)
    case DropPreparing(ids) => forall i :: 0 <= i < |ids| ==> ids[i] < TWO64
    case _ => true
  }

  ghost predicate FitsBatch(batch: Batch) {
    forall i :: 0 <= i < |batch| ==> FitsWrite(batch[i])
  }

  lemma {:induction false} PublishFits(db: Db, maxPayload: nat, r: PublishRequest)
    requires Inv(db) && Fits(db) && DecidePublish(db, maxPayload, r).Commit?
    requires Fits(Apply(db, DecidePublish(db, maxPayload, r).batch))
    ensures FitsBatch(DecidePublish(db, maxPayload, r).batch)
  {
    hide Apply;
    hide CheckPublish;
    hide CheckChannelWrite;
    hide CheckObjectKeys;
    hide ChannelTable;
    hide EventSourced;
    hide AllJustified;
    hide Readable;
    hide ObjectIds;
    hide KeysOpen;
    PublishUuid(db, maxPayload, r);
    ApplyPublish(db, r);
  }

  lemma {:induction false} ChangeFits64(db: Db, c: Channel, payload: string, timestamp: nat)
    requires Fits(db) && c.id < TWO64
    requires var db' := Apply(db, ChannelMutationBatch(db, c, payload, timestamp)); db'.maxSeq < TWO64 && db'.nextUuid < TWO64
    ensures FitsBatch(ChannelMutationBatch(db, c, payload, timestamp))
  {
    hide Apply;
    ApplyChannelMutation(db, c, payload, timestamp);
  }

  lemma {:induction false} CreateFits(db: Db, r: ChannelRequest, timestamp: nat)
    requires Fits(db) && DecideCreate(db, r, timestamp).Commit?
    requires Fits(Apply(db, DecideCreate(db, r, timestamp).batch))
    ensures FitsBatch(DecideCreate(db, r, timestamp).batch)
  {
    hide Apply;
    hide ChannelMutationBatch;
    hide InitializedText;
    hide Authenticate;
    var c := NewChannel(db, r);
    var b, bump := ChannelMutationBatch(db, c, InitializedText(c), timestamp), SetNextChannelId(db.nextChannelId + 1);
    ApplyConcat(db, b, [bump]);
    ApplyTwo(Apply(db, b), bump, SetNextUuid(0));
    ChangeFits64(db, c, InitializedText(c), timestamp);
  }

  lemma {:induction false} MemberFits(db: Db, maxPayload: nat, op: Op)
    requires Inv(db) && Fits(db) && (op.AddMember? || op.RemoveMember?) && Decide(db, maxPayload, op).Commit?
    requires Fits(Apply(db, Decide(db, maxPayload, op).batch))
    ensures FitsBatch(Decide(db, maxPayload, op).batch)
  {
    hide Inv;
    hide Apply;
    hide ChannelMutationBatch;
    hide MemberText;
    OwnedChannelStored(db, op.change);
    ReplayOfTable(db, op.change.channelId);
    var c := db.channels[op.change.channelId];
    if op.AddMember? {
      ChangeFits64(db, c.(members := c.members + [op.change.target]), MemberText("system.member_added", op.change.target), op.timestamp);
    } else {
      ChangeFits64(db, c.(members := EraseFirst(c.members, op.change.target)), MemberText("system.member_removed", op.change.target),
                   op.timestamp);
    }
  }

  lemma {:induction false} OtherFits(db: Db, maxPayload: nat, op: Op)
    requires Fits(db) && FitsOp(op) && Decide(db, maxPayload, op).Commit?
    requires !op.Publish? && !op.CreateChannel? && !op.AddMember? && !op.RemoveMember?
    requires Fits(Apply(db, Decide(db, maxPayload, op).batch))
    ensures FitsBatch(Decide(db, maxPayload, op).batch)
  {
    hide Apply;
    hide ValidObject;
    hide Authenticate;
    match op
    case AllocateUuids(count) => ApplyTwo(db, SetNextUuid(db.nextUuid + count), SetNextUuid(0));
    case AddToken(c) => ApplyTwo(db, PutToken(c), SetNextUuid(0));
    case PrepareObject(o, _) => ApplyTwo(db, PutPreparing(o.(id := db.nextObjectId)), SetNextObjectId(db.nextObjectId + 1));
    case _ =>
  }

  /** What a step commits fits 64 bits if the states before and after it do. */
  lemma {:induction false} StepFits(maxPayload: nat, db: Db, op: Op)
    requires Inv(db) && Fits(db) && FitsOp(op) && Decide(db, maxPayload, op).Commit?
    requires Fits(Apply(db, Decide(db, maxPayload, op).batch))
    ensures FitsBatch(Decide(db, maxPayload, op).batch)
  {
    hide Inv;
    hide Fits;
    hide Apply;
    hide FitsBatch;
    hide DecidePublish;
    hide DecideCreate;
    match op
    case Publish(r) => PublishFits(db, maxPayload, r);
    case CreateChannel(r, timestamp) => CreateFits(db, r, timestamp);
    case AddMember(_, _) => MemberFits(db, maxPayload, op);
    case RemoveMember(_, _) => MemberFits(db, maxPayload, op);
    case _ => OtherFits(db, maxPayload, op);
  }

  // ---------------------------------------------------------------- runs of bytes

  /** One step on the bytes: nothing, or the whole batch of the operation. */
  ghost predicate BytesStep(maxPayload: nat, db: Db, op: Op, raw: Raw, raw': Raw) {
    || raw' == raw
    || (var d := Decide(db, maxPayload, op);
        d.Commit? && FitsBatch(d.batch) && raw' == ApplyRaw(raw, TranslateAll(d.batch)))
  }

  /** The run stays within 64 bits. */
  ghost predicate FitsRun(run: Run) {
    && (forall i :: 0 <= i < |run.states| ==> Fits(run.states[i]))
    && (forall i :: 0 <= i < |run.ops| ==> FitsOp(run.ops[i]))
  }

  lemma {:induction false} StepHasBytes(maxPayload: nat, db: Db, op: Op, db': Db, raw: Raw) returns (raw': Raw)
    requires Inv(db) && Next(maxPayload, db, op, db') && Fits(db) && Fits(db') && FitsOp(op) && Refines(raw, db)
    ensures Refines(raw', db') && BytesStep(maxPayload, db, op, raw, raw')
  {
    hide Inv;
    hide Fits;
    hide Refines;
    hide Decide;
    hide Apply;
    hide ApplyRaw;
    if db' == db {
      raw' := raw;
    } else {
      var batch := Decide(db, maxPayload, op).batch;
      StepFits(maxPayload, db, op);
      BatchRefines(raw, db, batch);
      raw' := ApplyRaw(raw, TranslateAll(batch));
    }
  }

  /** Every run within 64 bits is a run of byte batches from the first batch on, and the bytes represent every state of it. */
  lemma {:induction false} RunHasBytes(maxPayload: nat, run: Run, n: nat) returns (raws: seq<Raw>)
    requires IsRun(maxPayload, run) && n < |run.states| && FitsRun(run)
    ensures |raws| == n + 1 && forall i :: 0 <= i <= n ==> Refines(raws[i], run.states[i])
    ensures forall i :: 0 <= i < n ==> BytesStep(maxPayload, run.states[i], run.ops[i], raws[i], raws[i + 1])
    ensures 0 in run.states[0].messages && run.states[0].messages[0].sequence == 0
    ensures raws[0] == InitialRaw(run.states[0].messages[0])
  {
    hide Inv;
    hide Next;
    hide InitialDb;
    hide Refines;
    hide BytesStep;
    hide InitialRaw;
    if n == 0 {
      var timestamp: nat :| run.states[0] == InitialDb(timestamp);
      InitialRefines(timestamp);
      raws := [InitialRaw(run.states[0].messages[0])];
    } else {
      var before := RunHasBytes(maxPayload, run, n - 1);
      RunInv(maxPayload, run, n - 1);
      assert Next(maxPayload, run.states[n - 1], run.ops[n - 1], run.states[n]);
      var raw' := StepHasBytes(maxPayload, run.states[n - 1], run.ops[n - 1], run.states[n], before[n - 1]);
      raws := before + [raw'];
    }
  }

  // ---------------------------------------------------------------- snapshots of bytes

  /** The snapshot is read from these bytes. */
  ghost predicate ReadFrom(snap: Snapshot, raw: Raw) {
    Refines(raw, snap.db) && exists cells :: Iterates(cells, raw.messages) && snap.cf == AsMessages(cells)
  }

  /** What is read from bytes that represent a state with headroom is exactly its log. */
  lemma {:induction false} ReadRepresents(snap: Snapshot, raw: Raw)
    requires ReadFrom(snap, raw) && snap.db.maxSeq + 1 < TWO64
    ensures Represents(snap.cf, snap.db)
  {
    hide Refines;
    hide Iterates;
    hide Represents;
    var cells :| Iterates(cells, raw.messages) && snap.cf == AsMessages(cells);
    ScanSeesTheLog(raw, snap.db, cells);
  }

  /** Every state of every run within 64 bits has bytes, and a snapshot of them that the read path is proved for. */
  lemma {:induction false} ReachableSnapshot(maxPayload: nat, run: Run, i: nat) returns (raw: Raw, snap: Snapshot)
    requires IsRun(maxPayload, run) && i < |run.states| && FitsRun(run) && run.states[i].maxSeq + 1 < TWO64
    ensures snap.db == run.states[i] && ReadFrom(snap, raw) && Faithful(snap)
  {
    hide IsRun;
    hide Inv;
    hide Refines;
    hide Iterates;
    hide BytesStep;
    hide FitsRun;
    hide Represents;
    var raws := RunHasBytes(maxPayload, run, i);
    raw := raws[i];
    var cells := IteratorExists(raw.messages);
    snap := Snapshot(run.states[i], AsMessages(cells));
    assert Iterates(cells, raw.messages) && snap.cf == AsMessages(cells);
    ReadRepresents(snap, raw);
    RunInv(maxPayload, run, i);
  }

  /** The run before the trace, and its history up to this moment, stay within 64 bits. */
  ghost predicate FitsTrace(t: Snapshots.Trace, moment: nat, base: Run)
    requires moment < |t.states| && moment <= |t.steps|
  {
    && FitsRun(base)
    && (forall k :: 0 <= k < |t.states[moment].history| ==> Fits(t.states[moment].history[k]))
    && (forall l :: 0 <= l < moment && (t.steps[l].CommitWrite? || t.steps[l].CommitFail?) ==> FitsOp(t.steps[l].op))
  }

  lemma {:induction false} TraceRunFits(maxPayload: nat, t: Snapshots.Trace, moment: nat, base: Run) returns (run: Run)
    requires Snapshots.IsTrace(maxPayload, t) && moment < |t.states| && Snapshots.EndsIn(maxPayload, base, t.states[0].history[0])
    requires FitsTrace(t, moment, base)
    ensures IsRun(maxPayload, run) && FitsRun(run) && |base.ops| < |base.states|
    ensures run.states == base.states[..|base.ops|] + t.states[moment].history
  {
    hide Next;
    hide InitialDb;
    hide Fits;
    hide FitsOp;
    run := Snapshots.HistoryIsRun(maxPayload, t, moment, base);
    forall k | 0 <= k < |run.ops|
      ensures FitsOp(run.ops[k])
    {
      if k < |base.ops| {
        assert run.ops[k] == run.ops[..|base.ops|][k];
      } else {
        assert Snapshots.Wrote(t, moment, run.ops[k]);
      }
    }
  }

  /**
   In every history of commits and refreshes, on whatever store it began, that stays
   within 64 bits, the published snapshot can be read from bytes that represent it, as
   a stream acquires it.
   */
  lemma {:induction false} PublishedIsReadable(maxPayload: nat, t: Snapshots.Trace, moment: nat, base: Run)
    returns (raw: Raw, snap: Snapshot)
    requires Snapshots.IsTrace(maxPayload, t) && moment < |t.states| && Snapshots.EndsIn(maxPayload, base, t.states[0].history[0])
    requires FitsTrace(t, moment, base)
    requires var s := t.states[moment];
             s.published.Some? && s.published.value < |s.history| && s.history[s.published.value].maxSeq + 1 < TWO64
    ensures ReadFrom(snap, raw) && AcquiredAt(t, moment, snap)
  {
    hide Snapshots.IsTrace;
    hide Snapshots.EndsIn;
    hide IsRun;
    hide FitsRun;
    hide FitsTrace;
    hide Inv;
    hide Represents;
    hide Refines;
    hide Iterates;
    var s := t.states[moment];
    var run := TraceRunFits(maxPayload, t, moment, base);
    raw, snap := ReachableSnapshot(maxPayload, run, |base.ops| + s.published.value);
    assert Snapshots.Shows(s, snap.db);
  }
}
