/**
 The object protocol is not safe by standing still: from every reachable state a
 write that is admitted can go through to its answer, whatever else is under way.
 */
module ObjectProgress {
  import opened Types
  import opened Store
  import opened Log
  import opened LogInvariants
  import opened ObjectFiles
  import opened ObjectProtocol
  import opened ObjectRuns
  import ObjectIo

  /** There is always an unused file. */
  lemma {:induction false} FreshInode(used: set<nat>) returns (inode: nat)
    ensures inode !in used && forall i :: i in used ==> i < inode
  {
    if used == {} {
      inode := 0;
    } else {
      var some :| some in used;
      var rest := FreshInode(used - {some});
      inode := if rest <= some then some + 1 else rest;
      assert forall i :: i in used ==> i == some || i in used - {some};
    }
  }

  /** The call under way: the writer is where it was left, and its credential is still stored. */
  ghost predicate Under(s: State, w: nat, pc: Pc, token: string, data: string) {
    && Sound(s) && Serving(s, w) && s.writers[w].pc == pc && s.writers[w].token == token && s.writers[w].data == data
    && Authenticate(s.db, Credential(s.writers[w].record.creator, token)) == Ok
  }

  /** Consecutive states, each reached from the one before by a step. */
  ghost predicate Path(maxPayload: nat, states: seq<State>, steps: seq<Step>) {
    |states| == |steps| + 1 && forall k :: 0 <= k < |steps| ==> SystemStep(maxPayload, states[k], steps[k], states[k + 1])
  }

  /** What the steps of a writer leave alone: its record, its credential and the stored credentials. */
  ghost predicate Keeps(s: State, s': State, w: nat)
    requires w in s.writers
  {
    && s'.phase == s.phase && w in s'.writers && s'.writers[w].record == s.writers[w].record
    && s'.writers[w].token == s.writers[w].token && s'.writers[w].data == s.writers[w].data
    && s'.db.tokens == s.db.tokens
  }

  lemma {:induction false} KeepsUnder(s: State, s': State, w: nat, pc: Pc, token: string, data: string)
    requires Under(s, w, pc, token, data) && Keeps(s, s', w) && Sound(s')
    ensures Under(s', w, s'.writers[w].pc, token, data)
  {
    hide Sound;
  }

  lemma {:induction false} CanPrepare(maxPayload: nat, s: State, w: nat, token: string, data: string) returns (s': State)
    requires Under(s, w, Begin, token, data) && DecidePrepare(s.db, s.writers[w].record, token).Commit?
    ensures Path(maxPayload, [s, s'], [Prepare(w, true, true)]) && Under(s', w, Prepared, token, data) && |data| > 0
    ensures s'.writers[w].record == s.writers[w].record.(id := s.db.nextObjectId)
  {
    hide Sound;
    hide Apply;
    s' := PrepareStep(s, w, true, true);
    var record := s.writers[w].record.(id := s.db.nextObjectId);
    ApplyTwo(s.db, PutPreparing(record), SetNextObjectId(s.db.nextObjectId + 1));
    assert WriterStep(s, Prepare(w, true, true), s');
    SizeIsLength(s, w);
    StepSafe(maxPayload, s, Prepare(w, true, true), s');
  }

  lemma {:induction false} SizeIsLength(s: State, w: nat)
    requires Sound(s) && w in s.writers && (s.writers[w].pc.Begin? || Active(s.writers[w].pc))
    ensures s.writers[w].record.size == |s.writers[w].data|
  {
    hide Inv;
    hide SlotSound;
    hide CommittedSound;
    hide FilesAt;
    assert WriterSound(s, s.writers[w]);
  }

  /** The writer's own names are as it left them. */
  lemma {:induction false} OwnFiles(s: State, w: nat)
    requires Sound(s) && w in s.writers && Active(s.writers[w].pc)
    ensures FilesAt(s.fs, s.writers[w].pc, s.writers[w].record.id, s.writers[w].data)
    ensures s.writers[w].record.id in s.db.preparing && s.db.preparing[s.writers[w].record.id] == s.writers[w].record
    ensures ValidObject(s.writers[w].record, s.writers[w].record.id)
  {
    hide SlotSound;
    hide CommittedSound;
    hide FilesAt;
    hide ValidObject;
    hide ValidStoredMessage;
    hide Replay;
    hide Justified;
    assert WriterSound(s, s.writers[w]);
  }

  lemma {:induction false} CanCreate(maxPayload: nat, s: State, w: nat, token: string, data: string) returns (s': State, inode: nat)
    requires Under(s, w, Prepared, token, data)
    ensures Path(maxPayload, [s, s'], [Create(w, inode, true, true)]) && Under(s', w, Opened(inode, 0), token, data)
    ensures Keeps(s, s', w)
  {
    hide Sound;
    inode := FreshInode(s.fs.files.Keys);
    OwnFiles(s, w);
    var id := s.writers[w].record.id;
    s' := FileStep(s, w, CreateTemp(s.fs, id, inode), true, true, Opened(inode, 0));
    assert WriterStep(s, Create(w, inode, true, true), s');
    StepSafe(maxPayload, s, Create(w, inode, true, true), s');
    KeepsUnder(s, s', w, Prepared, token, data);
  }

  lemma {:induction false} CanWriteAll(maxPayload: nat, s: State, w: nat, token: string, data: string, inode: nat) returns (s': State)
    requires Under(s, w, Opened(inode, 0), token, data) && |data| > 0
    ensures Path(maxPayload, [s, s'], [WriteSome(w, |data|, true)]) && Under(s', w, Opened(inode, |data|), token, data)
    ensures Keeps(s, s', w)
  {
    hide Sound;
    OwnFiles(s, w);
    s' := FileStep(s, w, Append(s.fs, inode, data[0..|data|]), true, true, Opened(inode, |data|));
    assert WriterStep(s, WriteSome(w, |data|, true), s');
    StepSafe(maxPayload, s, WriteSome(w, |data|, true), s');
    KeepsUnder(s, s', w, Opened(inode, 0), token, data);
  }

  lemma {:induction false} CanSyncData(maxPayload: nat, s: State, w: nat, token: string, data: string, inode: nat) returns (s': State)
    requires Under(s, w, Opened(inode, |data|), token, data)
    ensures Path(maxPayload, [s, s'], [SyncData(w, true, true)]) && Under(s', w, FileSynced(inode), token, data)
    ensures Keeps(s, s', w)
  {
    hide Sound;
    OwnFiles(s, w);
    s' := FileStep(s, w, ObjectFiles.SyncFile(s.fs, inode), true, true, FileSynced(inode));
    assert WriterStep(s, SyncData(w, true, true), s');
    StepSafe(maxPayload, s, SyncData(w, true, true), s');
    KeepsUnder(s, s', w, Opened(inode, |data|), token, data);
  }

  lemma {:induction false} CanRename(maxPayload: nat, s: State, w: nat, token: string, data: string, inode: nat) returns (s': State)
    requires Under(s, w, FileSynced(inode), token, data)
    ensures Path(maxPayload, [s, s'], [Rename(w, true, true)]) && Under(s', w, Renamed(inode), token, data)
    ensures Keeps(s, s', w)
  {
    hide Sound;
    OwnFiles(s, w);
    s' := FileStep(s, w, RenameFinal(s.fs, s.writers[w].record.id), true, true, Renamed(inode));
    assert WriterStep(s, Rename(w, true, true), s');
    StepSafe(maxPayload, s, Rename(w, true, true), s');
    KeepsUnder(s, s', w, FileSynced(inode), token, data);
  }

  lemma {:induction false} CanSyncDir(maxPayload: nat, s: State, w: nat, token: string, data: string, inode: nat) returns (s': State)
    requires Under(s, w, Renamed(inode), token, data)
    ensures Path(maxPayload, [s, s'], [SyncDir(w, true, true)]) && Under(s', w, DirSynced(inode), token, data)
    ensures Keeps(s, s', w)
  {
    hide Sound;
    s' := FileStep(s, w, SyncDirectory(s.fs), true, true, DirSynced(inode));
    assert WriterStep(s, SyncDir(w, true, true), s');
    StepSafe(maxPayload, s, SyncDir(w, true, true), s');
    KeepsUnder(s, s', w, Renamed(inode), token, data);
  }

  lemma {:induction false} CanCommit(maxPayload: nat, s: State, w: nat, token: string, data: string, inode: nat) returns (s': State)
    requires Under(s, w, DirSynced(inode), token, data)
    ensures Path(maxPayload, [s, s'], [Finish(w, true, true)]) && w in s'.writers && s'.writers[w].pc == Done(true)
    ensures var record := s.writers[w].record;
            record.id in s'.db.committed && s'.db.committed[record.id] == record && Holds(s'.fs, record.id, data)
  {
    hide Sound;
    hide Apply;
    hide ValidObject;
    OwnFiles(s, w);
    s' := FinishStep(s, w, true, true);
    assert WriterStep(s, Finish(w, true, true), s');
    SuccessIsCommitted(s, w, s');
  }

  /**
   From every reachable state a write that is admitted can be completed: seven steps on,
   the writer answers success, its record is committed and its bytes are stored.
   */
  lemma {:induction false} WriteCanComplete(maxPayload: nat, s: State, w: nat) returns (states: seq<State>, steps: seq<Step>)
    requires Sound(s) && Serving(s, w) && s.writers[w].pc.Begin?
    requires ObjectIo.ObjectAdmitted(s.db, s.writers[w].record, s.writers[w].token)
    ensures Path(maxPayload, states, steps) && |steps| == 7 && states[0] == s
    ensures w in states[7].writers && states[7].writers[w].pc == Done(true)
    ensures var id := s.db.nextObjectId;
            && id in states[7].db.committed && states[7].db.committed[id] == s.writers[w].record.(id := id)
            && Holds(states[7].fs, id, s.writers[w].data)
  {
    hide SystemStep;
    hide Sound;
    hide Holds;
    var token, data := s.writers[w].token, s.writers[w].data;
    ObjectIo.AdmittedIff(s.db, s.writers[w].record, token);
    var s1 := CanPrepare(maxPayload, s, w, token, data);
    var s2, inode := CanCreate(maxPayload, s1, w, token, data);
    var s3 := CanWriteAll(maxPayload, s2, w, token, data, inode);
    var s4 := CanSyncData(maxPayload, s3, w, token, data, inode);
    var s5 := CanRename(maxPayload, s4, w, token, data, inode);
    var s6 := CanSyncDir(maxPayload, s5, w, token, data, inode);
    var s7 := CanCommit(maxPayload, s6, w, token, data, inode);
    hide Path;
    hide Under;
    states, steps := [s, s1], [Prepare(w, true, true)];
    states, steps := PathThen(maxPayload, states, steps, Create(w, inode, true, true), s2);
    states, steps := PathThen(maxPayload, states, steps, WriteSome(w, |data|, true), s3);
    states, steps := PathThen(maxPayload, states, steps, SyncData(w, true, true), s4);
    states, steps := PathThen(maxPayload, states, steps, Rename(w, true, true), s5);
    states, steps := PathThen(maxPayload, states, steps, SyncDir(w, true, true), s6);
    states, steps := PathThen(maxPayload, states, steps, Finish(w, true, true), s7);
  }

  lemma {:induction false} PathThen(maxPayload: nat, states: seq<State>, steps: seq<Step>, step: Step, s: State)
    returns (states': seq<State>, steps': seq<Step>)
    requires Path(maxPayload, states, steps) && |states| == |steps| + 1
    requires Path(maxPayload, [states[|steps|], s], [step])
    ensures Path(maxPayload, states', steps') && |states'| == |steps'| + 1
    ensures states' == states + [s] && steps' == steps + [step]
  {
    hide SystemStep;
    states', steps' := states + [s], steps + [step];
    forall k | 0 <= k < |steps'|
      ensures SystemStep(maxPayload, states'[k], steps'[k], states'[k + 1])
    {
      if k == |steps| {
        assert SystemStep(maxPayload, [states[|steps|], s][0], [step][0], [states[|steps|], s][1]);
      }
    }
  }
}
