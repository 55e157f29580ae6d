/** The object protocol over whole runs, with crashes and restarts. */
module ObjectRuns {
  import opened Types
  import opened Records
  import opened ChannelEvents
  import opened Store
  import opened Log
  import opened LogInvariants
  import opened LogRuns
  import opened ObjectFiles
  import opened ObjectProtocol
  import opened ObjectSafety
  import ObjectIo

  // ---------------------------------------------------------------- steps outside the writers

  /** Requests that are not object writes leave the object table alone. */
  lemma {:induction false} OtherKeepsObjects(maxPayload: nat, db: Db, op: Op, db': Db)
    requires Next(maxPayload, db, op, db') && !IsObjectOp(op)
    ensures db'.preparing == db.preparing && db'.committed == db.committed && db'.nextObjectId == db.nextObjectId
  {
    hide Apply;
    hide ChannelMutationBatch;
    if db' != db {
      match op
      case Publish(r) => ApplyPublish(db, r);
      case CreateChannel(r, ts) =>
        var c := NewChannel(db, r);
        var b := ChannelMutationBatch(db, c, InitializedText(c), ts);
        ApplyChannelMutation(db, c, InitializedText(c), ts);
        ApplyConcat(db, b, [SetNextChannelId(db.nextChannelId + 1)]);
        ApplyTwo(Apply(db, b), SetNextChannelId(db.nextChannelId + 1), SetNextUuid(0));
      case AddMember(r, ts) =>
        OwnedChannelStored(db, r);
        var c := db.channels[r.channelId];
        ApplyChannelMutation(db, c.(members := c.members + [r.target]), MemberText("system.member_added", r.target), ts);
      case RemoveMember(r, ts) =>
        OwnedChannelStored(db, r);
        var c := db.channels[r.channelId];
        ApplyChannelMutation(db, c.(members := EraseFirst(c.members, r.target)),
                             MemberText("system.member_removed", r.target), ts);
      case AllocateUuids(count) => ApplyTwo(db, SetNextUuid(db.nextUuid + count), SetNextUuid(0));
      case AddToken(c) => ApplyTwo(db, PutToken(c), SetNextUuid(0));
      case DeleteToken(c) => ApplyTwo(db, Write.DeleteToken(c), SetNextUuid(0));
    }
  }

  /** A step that leaves files, object table and requests alone. */
  lemma {:induction false} QuietStep(s: State, s': State)
    requires Sound(s) && Inv(s'.db) && !s'.corrupt
    requires s'.fs == s.fs && s'.requested == s.requested
    requires s'.db.preparing == s.db.preparing && s'.db.committed == s.db.committed
    requires s'.db.nextObjectId == s.db.nextObjectId
    requires WritersSound(s') && PhaseSound(s')
    ensures Sound(s')
  {
    hide Inv;
    hide SlotSound;
    hide CommittedSound;
    hide WritersSound;
    hide PhaseSound;
    TableSlots(s, s');
    forall x: nat | x in s'.db.committed
      ensures CommittedSound(s', x)
    {
      SameForSelf(s.fs, x);
      CommittedFrame(s, s', x);
    }
  }

  lemma {:induction false} OtherSafe(maxPayload: nat, s: State, op: Op, s': State)
    requires Sound(s) && SystemStep(maxPayload, s, Other(op), s')
    ensures Sound(s')
  {
    hide Inv;
    hide Next;
    hide FilesAt;
    hide SlotSound;
    hide CommittedSound;
    NextInv(maxPayload, s.db, op, s'.db);
    OtherKeepsObjects(maxPayload, s.db, op, s'.db);
    QuietStep(s, s');
  }

  lemma {:induction false} ArriveSafe(maxPayload: nat, s: State, w: nat, record: StoredObject, token: string, data: string, s': State)
    requires Sound(s) && SystemStep(maxPayload, s, Arrive(w, record, token, data), s')
    ensures Sound(s')
  {
    hide Inv;
    hide FilesAt;
    hide SlotSound;
    hide CommittedSound;
    QuietStep(s, s');
  }

  lemma {:induction false} ProcessCrashSafe(s: State, s': State)
    requires Sound(s) && s' == s.(writers := map[], phase := Down)
    ensures Sound(s')
  {
    hide Inv;
    hide SlotSound;
    hide CommittedSound;
    QuietStep(s, s');
  }

  lemma {:induction false} PowerLossSlot(s: State, s': State, n: Name)
    requires SlotSound(s, n) && PowerLoss(s.fs, s'.fs) && s'.db == s.db
    ensures SlotSound(s', n)
  {
  }

  lemma {:induction false} PowerLossCommitted(s: State, s': State, id: nat)
    requires PowerLoss(s.fs, s'.fs) && s'.db == s.db && s'.requested == s.requested
    requires id in s.db.committed && CommittedSound(s, id)
    ensures CommittedSound(s', id)
    ensures At(s'.fs, Final(id)) == At(s.fs, Final(id))
  {
    var i: nat :| i in s.fs.files && s.fs.files[i] == File(id, s.requested[id], true)
                  && At(s.fs, Final(id)) == Slot(Some(i), {Some(i)});
    assert At(s'.fs, Tmp(id)).now == None && At(s'.fs, Final(id)).now == Some(i);
  }

  lemma {:induction false} PowerFailureSafe(s: State, s': State)
    requires Sound(s) && PowerLoss(s.fs, s'.fs) && s' == s.(fs := s'.fs, writers := map[], phase := Down)
    ensures Sound(s')
  {
    hide Inv;
    hide SlotSound;
    hide CommittedSound;
    hide PowerLoss;
    forall n: Name
      ensures SlotSound(s', n)
    {
      PowerLossSlot(s, s', n);
    }
    forall x: nat | x in s'.db.committed
      ensures CommittedSound(s', x)
    {
      PowerLossCommitted(s, s', x);
    }
  }

  // ---------------------------------------------------------------- recovery

  lemma {:induction false} RestartSafe(s: State, ids: seq<nat>, s': State)
    requires Sound(s) && RecoveryStep(s, Restart(ids), s')
    ensures Sound(s')
  {
    hide Inv;
    hide SlotSound;
    hide CommittedSound;
    hide ValidObject;
    ObjectFacts(s.db);
    assert forall i :: 0 <= i < |ids| ==> ids[i] in s.db.preparing && ids[i] !in s.db.committed;
    QuietStep(s, s');
  }

  /** A recovery step that changes only the names of one leftover object. */
  lemma {:induction false} RecoverUnlink(s: State, n: Name, s': State)
    requires Sound(s) && s.writers == map[] && n.id in s.db.preparing
    requires s' == s.(fs := Unlink(s.fs, n), phase := s'.phase)
    requires PhaseSound(s')
    ensures Sound(s')
  {
    hide Inv;
    hide SlotSound;
    hide CommittedSound;
    hide PhaseSound;
    ObjectFacts(s.db);
    EntryTouches(s.fs, n, None);
    forall m: Name
      ensures SlotSound(s', m)
    {
      if m.id != n.id {
        SlotFrame(s, s', m);
      } else if m == n {
        EntrySound(s, s', n, None);
      } else {
        KeptSound(s, s', m);
      }
    }
    forall x: nat | x in s'.db.committed
      ensures CommittedSound(s', x)
    {
      CommittedFrame(s, s', x);
    }
  }

  lemma {:induction false} RecoverTmpSafe(s: State, effect: bool, ok: bool, s': State)
    requires Sound(s) && RecoveryStep(s, RecoverTmp(effect, ok), s')
    ensures Sound(s')
  {
    hide Inv;
    hide SlotSound;
    hide CommittedSound;
    var n := Tmp(s.phase.ids[s.phase.index]);
    if effect {
      RecoverUnlink(s, n, s');
    } else {
      QuietStep(s, s');
    }
  }

  lemma {:induction false} RecoverFinalSafe(s: State, effect: bool, ok: bool, s': State)
    requires Sound(s) && RecoveryStep(s, RecoverFinal(effect, ok), s')
    ensures Sound(s')
  {
    hide Inv;
    hide SlotSound;
    hide CommittedSound;
    var n := Final(s.phase.ids[s.phase.index]);
    if effect {
      RecoverUnlink(s, n, s');
    } else {
      QuietStep(s, s');
    }
  }

  lemma {:induction false} RecoverSyncSafe(s: State, effect: bool, ok: bool, s': State)
    requires Sound(s) && RecoveryStep(s, RecoverSync(effect, ok), s')
    ensures Sound(s')
  {
    hide Inv;
    hide SlotSound;
    hide CommittedSound;
    if effect {
      forall n: Name
        ensures SlotSound(s', n)
      {
        SyncKeepsSlot(s, s', n);
      }
      forall x: nat | x in s'.db.committed
        ensures CommittedSound(s', x)
      {
        SyncKeepsCommitted(s, s', x);
      }
      forall k | 0 <= k < |s.phase.ids|
        ensures At(s'.fs, Tmp(s.phase.ids[k])) == EMPTY && At(s'.fs, Final(s.phase.ids[k])) == EMPTY
      {
        SyncedSlot(s.fs, Tmp(s.phase.ids[k]));
        SyncedSlot(s.fs, Final(s.phase.ids[k]));
      }
    } else {
      QuietStep(s, s');
    }
  }

  lemma {:induction false} RecoverCommitSafe(s: State, effect: bool, ok: bool, s': State)
    requires Sound(s) && RecoveryStep(s, RecoverCommit(effect, ok), s')
    ensures Sound(s')
    ensures effect ==> s'.db.preparing == map[]
  {
    hide Inv;
    hide CommittedSound;
    hide SlotSound;
    hide Apply;
    var ids := s.phase.ids;
    if effect {
      DropInv(s.db, ids);
      ApplyDeletes(s.db, ids);
      assert s'.db.preparing == map[];
      forall n: Name
        ensures SlotSound(s', n)
      {
        EmptiedSlot(s, s', n);
      }
      forall x: nat | x in s'.db.committed
        ensures CommittedSound(s', x)
      {
        SameForSelf(s.fs, x);
        CommittedFrame(s, s', x);
      }
    } else {
      QuietStep(s, s');
    }
  }

  lemma {:induction false} EmptiedSlot(s: State, s': State, n: Name)
    requires SlotSound(s, n) && s.phase.Emptied? && PhaseSound(s) && s'.fs == s.fs
    requires s'.db.preparing == map[] && s'.db.committed == s.db.committed
    ensures SlotSound(s', n)
  {
    if n.id in s.db.preparing {
      var k :| 0 <= k < |s.phase.ids| && s.phase.ids[k] == n.id;
      assert At(s.fs, Tmp(n.id)) == EMPTY && At(s.fs, Final(n.id)) == EMPTY;
      assert n == Tmp(n.id) || n == Final(n.id);
    }
  }

  // ---------------------------------------------------------------- every step, every run

  lemma {:induction false} WriterSafe(s: State, step: Step, s': State)
    requires Sound(s) && WriterStep(s, step, s')
    ensures Sound(s')
  {
    hide Sound;
    hide SyncDirectory;
    match step
    case Prepare(w, effect, ok) => PrepareSafe(s, w, effect, ok, s');
    case Create(w, inode, effect, ok) => CreateSafe(s, w, inode, effect, ok, s');
    case WriteSome(w, count, ok) => WriteSafe(s, w, count, ok, s');
    case SyncData(w, effect, ok) => SyncDataSafe(s, w, effect, ok, s');
    case Rename(w, effect, ok) => RenameSafe(s, w, effect, ok, s');
    case SyncDir(w, effect, ok) => SyncDirSafe(s, w, effect, ok, s');
    case Finish(w, effect, ok) => FinishSafe(s, w, effect, ok, s');
    case UnlinkTmp(w, effect, ok) => UnlinkSafe(s, w, Tmp(s.writers[w].record.id), effect, ok, CleanFinal, s');
    case UnlinkFinal(w, effect, ok) => UnlinkSafe(s, w, Final(s.writers[w].record.id), effect, ok, CleanSync, s');
    case SyncUnlinks(w, effect, ok) => SyncUnlinksSafe(s, w, effect, ok, s');
    case DropRecord(w, effect, ok) => DropRecordSafe(s, w, effect, ok, s');
    case Abandon(w) => MoveStep(s, w, Done(false), s');
    case _ =>
  }

  /** Every step of every actor, successful or not, keeps the protocol's invariant. */
  lemma {:induction false} StepSafe(maxPayload: nat, s: State, step: Step, s': State)
    requires Sound(s) && SystemStep(maxPayload, s, step, s')
    ensures Sound(s')
  {
    hide Sound;
    hide WriterStep;
    hide RecoveryStep;
    match step
    case Other(op) => OtherSafe(maxPayload, s, op, s');
    case Arrive(w, record, token, data) => ArriveSafe(maxPayload, s, w, record, token, data, s');
    case ProcessCrash => ProcessCrashSafe(s, s');
    case PowerFailure => PowerFailureSafe(s, s');
    case Restart(ids) => RestartSafe(s, ids, s');
    case RecoverTmp(effect, ok) => RecoverTmpSafe(s, effect, ok, s');
    case RecoverFinal(effect, ok) => RecoverFinalSafe(s, effect, ok, s');
    case RecoverSync(effect, ok) => RecoverSyncSafe(s, effect, ok, s');
    case RecoverCommit(effect, ok) => RecoverCommitSafe(s, effect, ok, s');
    case _ => WriterSafe(s, step, s');
  }

  /** A finite history of the whole system: requests, writers, crashes and restarts. */
  datatype History = History(states: seq<State>, steps: seq<Step>)

  ghost predicate IsHistory(maxPayload: nat, h: History) {
    && |h.states| == |h.steps| + 1 && Initial(h.states[0])
    && forall i :: 0 <= i < |h.steps| ==> SystemStep(maxPayload, h.states[i], h.steps[i], h.states[i + 1])
  }

  lemma {:induction false} InitialSound(s: State)
    requires Initial(s)
    ensures Sound(s)
  {
    hide Inv;
    hide InitialDb;
    var timestamp: nat :| s.db == InitialDb(timestamp);
    InitialInv(timestamp);
    InitialTables(timestamp);
  }

  lemma {:induction false} InitialTables(timestamp: nat)
    ensures InitialDb(timestamp).committed == map[] && InitialDb(timestamp).preparing == map[]
  {
  }

  lemma {:induction false} HistorySound(maxPayload: nat, h: History, i: nat)
    requires IsHistory(maxPayload, h) && i < |h.states|
    ensures Sound(h.states[i])
  {
    hide Sound;
    hide SystemStep;
    hide Initial;
    if i == 0 {
      InitialSound(h.states[0]);
    } else {
      HistorySound(maxPayload, h, i - 1);
      StepSafe(maxPayload, h.states[i - 1], h.steps[i - 1], h.states[i]);
    }
  }

  // ---------------------------------------------------------------- the system refines the log

  /** The serialized change of the durable state that a system step makes. */
  function OpOf(s: State, step: Step): Op {
    match step
    case Other(op) => op
    case Prepare(w, _, _) => if w in s.writers then PrepareObject(s.writers[w].record, s.writers[w].token) else DropPreparing([])
    case Finish(w, _, _) => if w in s.writers then CommitObject(s.writers[w].record, s.writers[w].token) else DropPreparing([])
    case DropRecord(w, _, _) => if w in s.writers then DropPreparing([s.writers[w].record.id]) else DropPreparing([])
    case RecoverCommit(_, _) => if s.phase.Emptied? then DropPreparing(s.phase.ids) else DropPreparing([])
    case _ => DropPreparing([])
  }

  lemma {:induction false} WriterProjects(maxPayload: nat, s: State, step: Step, s': State)
    requires WritersSound(s) && WriterStep(s, step, s')
    ensures Next(maxPayload, s.db, OpOf(s, step), s'.db)
  {
    hide Apply;
    hide DecidePrepare;
    hide DecideCommit;
    hide FilesAt;
    hide SyncDirectory;
    if step.Prepare? {
      assert WriterSound(s, s.writers[step.w]);
    }
  }

  /** Every step of the system is a step of the log machine on the durable state. */
  lemma {:induction false} StepProjects(maxPayload: nat, s: State, step: Step, s': State)
    requires Sound(s) && SystemStep(maxPayload, s, step, s')
    ensures Next(maxPayload, s.db, OpOf(s, step), s'.db)
  {
    hide Inv;
    hide SlotSound;
    hide CommittedSound;
    hide WriterStep;
    hide Apply;
    hide Next;
    match step
    case Other(op) =>
    case Arrive(_, _, _, _) => Unchanged(maxPayload, s.db, OpOf(s, step));
    case ProcessCrash => Unchanged(maxPayload, s.db, OpOf(s, step));
    case PowerFailure => Unchanged(maxPayload, s.db, OpOf(s, step));
    case Restart(_) => Unchanged(maxPayload, s.db, OpOf(s, step));
    case RecoverTmp(_, _) => Unchanged(maxPayload, s.db, OpOf(s, step));
    case RecoverFinal(_, _) => Unchanged(maxPayload, s.db, OpOf(s, step));
    case RecoverSync(_, _) => Unchanged(maxPayload, s.db, OpOf(s, step));
    case RecoverCommit(effect, _) =>
      Unchanged(maxPayload, s.db, OpOf(s, step));
      Dropped(maxPayload, s.db, s.phase.ids);
    case _ => WriterProjects(maxPayload, s, step, s');
  }

  lemma {:induction false} Unchanged(maxPayload: nat, db: Db, op: Op)
    ensures Next(maxPayload, db, op, db)
  {
  }

  lemma {:induction false} Dropped(maxPayload: nat, db: Db, ids: seq<nat>)
    ensures Next(maxPayload, db, DropPreparing(ids), Apply(db, Deletes(ids)))
  {
  }

  function DurableStates(states: seq<State>): (r: seq<Db>)
    ensures |r| == |states| && forall i :: 0 <= i < |r| ==> r[i] == states[i].db
  {
    seq(|states|, i requires 0 <= i < |states| => states[i].db)
  }

  function DurableOps(h: History): (r: seq<Op>)
    requires |h.states| == |h.steps| + 1
    ensures |r| == |h.steps| && forall i :: 0 <= i < |r| ==> r[i] == OpOf(h.states[i], h.steps[i])
  {
    seq(|h.steps|, i requires 0 <= i < |h.steps| => OpOf(h.states[i], h.steps[i]))
  }

  /**
   The durable states of a history, crashes and restarts included, form a run of
   the log machine; every theorem about runs therefore holds for histories.
   */
  lemma {:induction false} HistoryProjects(maxPayload: nat, h: History)
    requires IsHistory(maxPayload, h)
    ensures IsRun(maxPayload, Run(DurableStates(h.states), DurableOps(h)))
  {
    hide Sound;
    hide SystemStep;
    hide Next;
    hide InitialDb;
    hide OpOf;
    var run := Run(DurableStates(h.states), DurableOps(h));
    forall i | 0 <= i < |run.ops|
      ensures Next(maxPayload, run.states[i], run.ops[i], run.states[i + 1])
    {
      HistorySound(maxPayload, h, i);
      StepProjects(maxPayload, h.states[i], h.steps[i], h.states[i + 1]);
    }
  }

  // ---------------------------------------------------------------- main theorems

  /** The final file of `id` is there and holds exactly these bytes. */
  predicate Holds(fs: Fs, id: nat, data: string) {
    var e := At(fs, Final(id)).now;
    e.Some? && e.value in fs.files && fs.files[e.value].data == data
  }

  /**
   In every reachable state a committed object has its final file with exactly
   the requested bytes, and would still have it after a power loss at this point.
   */
  lemma {:induction false} CommittedFileSurvives(maxPayload: nat, h: History, i: nat, id: nat, after: Fs)
    requires IsHistory(maxPayload, h) && i < |h.states| && id in h.states[i].db.committed
    ensures var s := h.states[i];
            && id in s.requested && |s.requested[id]| == s.db.committed[id].size
            && Holds(s.fs, id, s.requested[id])
            && (PowerLoss(s.fs, after) ==> Holds(after, id, s.requested[id]))
  {
    hide IsHistory;
    hide Inv;
    hide SlotSound;
    HistorySound(maxPayload, h, i);
    var s := h.states[i];
    assert CommittedSound(s, id);
    if PowerLoss(s.fs, after) {
      PowerLossCommitted(s, s.(fs := after), id);
    }
  }

  /**
   In every reachable state a committed object can be read: no read within it is
   refused, and what is read are the bytes of the request, in every later state too.
   */
  lemma {:induction false} CommittedReads(maxPayload: nat, h: History, i: nat, j: nat, id: nat, offset: nat, nbytes: nat)
    requires IsHistory(maxPayload, h) && i <= j < |h.states| && id in h.states[i].db.committed
    requires nbytes > 0 && offset <= h.states[i].db.committed[id].size
    ensures var s, fs := h.states[i], h.states[j].fs;
            && id in s.requested && |s.requested[id]| == s.db.committed[id].size
            && ObjectIo.ReadRefusal(fs, id, s.db.committed[id].size, offset, nbytes) == Ok
            && ObjectIo.Slice(ObjectIo.CommittedFile(fs, id).value.data, offset, nbytes)
               == ObjectIo.Slice(s.requested[id], offset, nbytes)
  {
    hide IsHistory;
    hide Replay;
    hide Justified;
    hide ValidStoredMessage;
    hide SlotSound;
    hide CommittedSound;
    var s := h.states[i];
    CommittedForever(maxPayload, h, i, j, id);
    CommittedFileSurvives(maxPayload, h, i, id, s.fs);
    CommittedFileSurvives(maxPayload, h, j, id, h.states[j].fs);
    HistorySound(maxPayload, h, i);
    assert ValidObject(s.db.committed[id], id);
  }

  lemma {:induction false} StepKeepsRequests(maxPayload: nat, s: State, step: Step, s': State)
    requires Sound(s) && SystemStep(maxPayload, s, step, s')
    ensures forall id: nat :: id in s.requested ==> id in s'.requested && s'.requested[id] == s.requested[id]
  {
    hide Inv;
    hide SlotSound;
    hide CommittedSound;
    hide WritersSound;
    hide Apply;
    hide DecidePrepare;
    hide DecideCommit;
    hide Next;
    hide SyncDirectory;
    hide PowerLoss;
  }

  /** Once committed, an object stays committed with the same record and the same requested bytes. */
  lemma {:induction false} CommittedForever(maxPayload: nat, h: History, i: nat, j: nat, id: nat)
    requires IsHistory(maxPayload, h) && i <= j < |h.states| && id in h.states[i].db.committed
    ensures id in h.states[j].db.committed && h.states[j].db.committed[id] == h.states[i].db.committed[id]
    ensures id in h.states[i].requested && id in h.states[j].requested
    ensures h.states[j].requested[id] == h.states[i].requested[id]
    decreases j
  {
    hide Inv;
    hide SlotSound;
    hide WritersSound;
    hide PhaseSound;
    hide SystemStep;
    hide Initial;
    HistorySound(maxPayload, h, i);
    assert CommittedSound(h.states[i], id);
    if i < j {
      CommittedForever(maxPayload, h, i, j - 1, id);
      var s, s' := h.states[j - 1], h.states[j];
      HistorySound(maxPayload, h, j - 1);
      StepKeepsRequests(maxPayload, s, h.steps[j - 1], s');
      StepProjects(maxPayload, s, h.steps[j - 1], s');
      NextExtends(maxPayload, s.db, OpOf(s, h.steps[j - 1]), s'.db);
    }
  }

  /** No history takes a branch that reports storage corruption. */
  lemma {:induction false} CorruptionUnreachable(maxPayload: nat, h: History, i: nat)
    requires IsHistory(maxPayload, h) && i < |h.states|
    ensures !h.states[i].corrupt
  {
    hide IsHistory;
    hide Inv;
    hide SlotSound;
    hide CommittedSound;
    HistorySound(maxPayload, h, i);
  }

  /** Every file, visible now or after a power loss, belongs to an object in the table. */
  lemma {:induction false} FilesBelongToObjects(maxPayload: nat, h: History, i: nat, n: Name, entry: Option<nat>)
    requires IsHistory(maxPayload, h) && i < |h.states|
    requires entry.Some? && (entry == At(h.states[i].fs, n).now || entry in At(h.states[i].fs, n).may)
    ensures n.id in h.states[i].db.preparing || n.id in h.states[i].db.committed
  {
    hide IsHistory;
    hide Inv;
    hide CommittedSound;
    HistorySound(maxPayload, h, i);
    assert SlotSound(h.states[i], n);
  }

  /** Step `i` handed out an object identifier. */
  ghost predicate Allocates(h: History, i: nat)
    requires i + 1 < |h.states|
  {
    h.states[i + 1].db.nextObjectId != h.states[i].db.nextObjectId
  }

  /** Identifiers handed out at different moments differ, also across crashes. */
  lemma {:induction false} IdsNeverReused(maxPayload: nat, h: History, i: nat, j: nat)
    requires IsHistory(maxPayload, h) && i < j < |h.steps| && |h.steps| < |h.states|
    requires Allocates(h, i) && Allocates(h, j)
    ensures h.states[i].db.nextObjectId < h.states[j].db.nextObjectId
  {
    hide SystemStep;
    hide Initial;
    hide IsRun;
    var run := Run(DurableStates(h.states), DurableOps(h));
    HistoryProjects(maxPayload, h);
    RunExtends(maxPayload, run, i, i + 1);
    RunExtends(maxPayload, run, i + 1, j);
  }

  /** A writer that answers success has committed its record, and its bytes are the ones it was given. */
  lemma {:induction false} SuccessIsCommitted(s: State, w: nat, s': State)
    requires Sound(s) && Serving(s, w) && s.writers[w].pc.DirSynced? && s' == FinishStep(s, w, true, true)
    requires w in s'.writers && s'.writers[w].pc == Done(true)
    ensures var wr := s.writers[w];
            && wr.record.id in s'.db.committed && s'.db.committed[wr.record.id] == wr.record
            && Holds(s'.fs, wr.record.id, wr.data)
  {
    hide Inv;
    hide SlotSound;
    hide CommittedSound;
    hide Apply;
    hide ValidObject;
    assert WriterSound(s, s.writers[w]);
    ApplyFinish(s.db, s.writers[w].record);
  }

  // ---------------------------------------------------------------- recovery

  predicate IsRecovery(step: Step) {
    step.Restart? || step.RecoverTmp? || step.RecoverFinal? || step.RecoverSync? || step.RecoverCommit?
    || step.ProcessCrash? || step.PowerFailure?
  }

  /** Starting up, failing and crashing while starting up never touch anything but leftover records. */
  lemma {:induction false} RecoveryKeeps(maxPayload: nat, s: State, step: Step, s': State)
    requires Sound(s) && SystemStep(maxPayload, s, step, s') && IsRecovery(step)
    ensures s'.db == s.db.(preparing := s'.db.preparing)
    ensures forall id: nat :: id in s'.db.preparing ==> id in s.db.preparing && s'.db.preparing[id] == s.db.preparing[id]
    ensures s'.requested == s.requested
    ensures forall id: nat :: id in s.db.committed ==> CommittedSound(s', id)
  {
    hide Inv;
    hide SlotSound;
    hide CommittedSound;
    hide WritersSound;
    hide Apply;
    hide PowerLoss;
    hide SyncDirectory;
    StepSafe(maxPayload, s, step, s');
    if step.RecoverCommit? && step.effect {
      ApplyDeletes(s.db, s.phase.ids);
    }
  }

  /** A completed recovery leaves no PREPARING record and no file that is not a committed object's. */
  lemma {:induction false} RecoveryCompletes(s: State, s': State)
    requires Sound(s) && RecoveryStep(s, RecoverCommit(true, true), s')
    ensures s'.phase.Running? && s'.db.preparing == map[]
    ensures forall n: Name :: n.id !in s'.db.committed ==> At(s'.fs, n) == EMPTY
  {
    hide Inv;
    hide CommittedSound;
    hide Apply;
    hide SlotSound;
    RecoverCommitSafe(s, true, true, s');
    forall n: Name | n.id !in s'.db.committed
      ensures At(s'.fs, n) == EMPTY
    {
      UnknownIsEmpty(s', n);
    }
  }

  /** Running recovery again finds nothing to do and changes nothing. */
  lemma {:induction false} RecoveryIdempotent(s: State, ids: seq<nat>, s': State)
    requires Sound(s) && s.db.preparing == map[] && RecoveryStep(s, Restart(ids), s')
    ensures ids == [] && s' == s.(phase := Running)
  {
    hide Inv;
    hide SlotSound;
    hide CommittedSound;
    NothingListed(ids, s.db);
  }

  /** The server only starts serving once no PREPARING record is left. */
  lemma {:induction false} ServingMeansRecovered(maxPayload: nat, s: State, step: Step, s': State)
    requires Sound(s) && SystemStep(maxPayload, s, step, s') && IsRecovery(step) && s'.phase.Running?
    ensures s'.db.preparing == map[]
  {
    hide Sound;
    hide PowerLoss;
    hide Apply;
    hide ValidObject;
    if step.RecoverCommit? {
      RecoveryCompletes(s, s');
    } else {
      assert step.Restart? && |step.ids| == 0;
      AllListed(step.ids, s.db);
    }
  }

  lemma {:induction false} AllListed(ids: seq<nat>, db: Db)
    requires Lists(ids, db) && ids == []
    ensures db.preparing == map[]
  {
  }

  /**
   Recovery from any state the server can crash in, itself failing and crashing any
   number of times: once the server serves again, every PREPARING record and every
   file that is not a committed object's is gone, and nothing else has changed.
   */
  lemma {:induction false} RecoveryRun(maxPayload: nat, h: History, i: nat, j: nat)
    requires IsHistory(maxPayload, h) && i < j < |h.states|
    requires forall k :: i <= k < j ==> IsRecovery(h.steps[k])
    ensures h.states[j].db == h.states[i].db.(preparing := h.states[j].db.preparing)
    ensures h.states[j].requested == h.states[i].requested
    ensures forall id: nat :: id in h.states[i].db.committed ==> CommittedSound(h.states[j], id)
    ensures h.states[j].phase.Running? ==>
              && h.states[j].db.preparing == map[]
              && forall n: Name :: n.id !in h.states[j].db.committed ==> At(h.states[j].fs, n) == EMPTY
    decreases j
  {
    hide SystemStep;
    hide Initial;
    hide Sound;
    hide CommittedSound;
    var s, s' := h.states[j - 1], h.states[j];
    HistorySound(maxPayload, h, j - 1);
    HistorySound(maxPayload, h, j);
    assert SystemStep(maxPayload, s, h.steps[j - 1], s');
    RecoveryKeeps(maxPayload, s, h.steps[j - 1], s');
    if i + 1 < j {
      RecoveryRun(maxPayload, h, i, j - 1);
    }
    if s'.phase.Running? {
      ServingMeansRecovered(maxPayload, s, h.steps[j - 1], s');
      forall n: Name | n.id !in s'.db.committed
        ensures At(s'.fs, n) == EMPTY
      {
        SoundEmpty(s', n);
      }
    }
  }

  lemma {:induction false} SoundEmpty(s: State, n: Name)
    requires Sound(s) && n.id !in s.db.preparing && n.id !in s.db.committed
    ensures At(s.fs, n) == EMPTY
  {
    hide Inv;
    hide CommittedSound;
    assert SlotSound(s, n);
    UnknownIsEmpty(s, n);
  }

  /** The identifier handed out next has no record and no file, so a new write finds its names free. */
  lemma {:induction false} NextNamesFree(maxPayload: nat, h: History, i: nat)
    requires IsHistory(maxPayload, h) && i < |h.states|
    ensures var s, id := h.states[i], h.states[i].db.nextObjectId;
            && id !in s.db.preparing && id !in s.db.committed
            && At(s.fs, Tmp(id)) == EMPTY && At(s.fs, Final(id)) == EMPTY
  {
    hide IsHistory;
    hide SlotSound;
    hide CommittedSound;
    hide Replay;
    hide Justified;
    hide ValidStoredMessage;
    hide ValidObject;
    HistorySound(maxPayload, h, i);
    var s, id := h.states[i], h.states[i].db.nextObjectId;
    assert ObjectIds(s.db);
    SoundEmpty(s, Tmp(id));
    SoundEmpty(s, Final(id));
  }

  lemma {:induction false} NothingListed(ids: seq<nat>, db: Db)
    requires Lists(ids, db)
    ensures db.preparing == map[] ==> ids == []
  {
    if |ids| > 0 {
      assert ids[0] in db.preparing;
    }
  }

  // ---------------------------------------------------------------- log and objects together

  /**
   Every object key that ever reached the log names a committed object with that
   token whose file is durably there with as many bytes as its record says.
   */
  lemma {:induction false} LoggedObjectsReadable(maxPayload: nat, h: History, i: nat, sq: nat, k: nat, after: Fs)
    requires IsHistory(maxPayload, h) && i < |h.states|
    requires sq in h.states[i].db.messages && k < |h.states[i].db.messages[sq].objectKeys|
    ensures var s := h.states[i];
            var key := s.db.messages[sq].objectKeys[k];
            && KeyOpens(s.db, key) && key.objectId in s.requested
            && |s.requested[key.objectId]| == s.db.committed[key.objectId].size
            && Holds(s.fs, key.objectId, s.requested[key.objectId])
            && (PowerLoss(s.fs, after) ==> Holds(after, key.objectId, s.requested[key.objectId]))
  {
    hide IsHistory;
    hide SlotSound;
    hide CommittedSound;
    hide Replay;
    hide Justified;
    hide ValidStoredMessage;
    hide ValidObject;
    HistorySound(maxPayload, h, i);
    var s := h.states[i];
    var key := s.db.messages[sq].objectKeys[k];
    assert KeysOpen(s.db);
    CommittedFileSurvives(maxPayload, h, i, key.objectId, after);
  }
}
