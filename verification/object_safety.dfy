/** Every step of the object protocol keeps its invariant. */
module ObjectSafety {
  import opened Types
  import opened Records
  import opened Store
  import opened Log
  import opened LogInvariants
  import opened ObjectFiles
  import opened ObjectProtocol

  // ---------------------------------------------------------------- frames

  lemma {:induction false} ObjectFacts(db: Db)
    requires Inv(db)
    ensures ObjectIds(db)
    ensures forall id: nat :: id in db.preparing ==> ValidObject(db.preparing[id], id)
    ensures forall id: nat :: id in db.committed ==> ValidObject(db.committed[id], id)
  {
    hide Justified;
    hide Replay;
    hide ValidStoredMessage;
    hide ValidObject;
  }

  lemma {:induction false} SlotFrame(s: State, s': State, n: Name)
    requires SlotSound(s, n) && SameFor(s.fs, s'.fs, n.id)
    requires n.id in s.db.preparing || n.id in s.db.committed ==> n.id in s'.db.preparing || n.id in s'.db.committed
    ensures SlotSound(s', n)
  {
  }

  lemma {:induction false} CommittedFrame(s: State, s': State, id: nat)
    requires id in s.db.committed && id in s'.db.committed && s'.db.committed[id] == s.db.committed[id]
    requires CommittedSound(s, id) && SameFor(s.fs, s'.fs, id)
    requires id in s.requested ==> id in s'.requested && s'.requested[id] == s.requested[id]
    ensures CommittedSound(s', id)
  {
  }

  lemma {:induction false} WriterFrame(s: State, s': State, wr: Writer)
    requires WriterSound(s, wr) && (Active(wr.pc) ==> SameFor(s.fs, s'.fs, wr.record.id))
    requires Active(wr.pc) ==> wr.record.id in s'.db.preparing && s'.db.preparing[wr.record.id] == wr.record
    requires Active(wr.pc) ==> wr.record.id in s'.requested && s'.requested[wr.record.id] == wr.data
    ensures WriterSound(s', wr)
  {
  }

  lemma {:induction false} SameForSelf(fs: Fs, id: nat)
    ensures SameFor(fs, fs, id)
  {
  }

  /** A step of writer `w` that changes only the files of its own object. */
  lemma {:induction false} OwnFileStep(s: State, w: nat, pc: Pc, s': State)
    requires Sound(s) && Serving(s, w) && Active(s.writers[w].pc)
    requires s' == Goto(s.(fs := s'.fs), w, pc) && !pc.Begin?
    requires OnlyTouches(s.fs, s'.fs, s.writers[w].record.id)
    requires SlotSound(s', Tmp(s.writers[w].record.id)) && SlotSound(s', Final(s.writers[w].record.id))
    requires Active(pc) ==> FilesAt(s'.fs, pc, s.writers[w].record.id, s.writers[w].data)
    ensures Sound(s')
  {
    hide Inv;
    hide FilesAt;
    hide SlotSound;
    hide CommittedSound;
    var id := s.writers[w].record.id;
    ObjectFacts(s.db);
    assert SlotsSound(s') by {
      forall n: Name
        ensures SlotSound(s', n)
      {
        if n.id != id {
          SlotFrame(s, s', n);
        } else {
          assert n == Tmp(id) || n == Final(id);
        }
      }
    }
    assert AllCommittedSound(s') by {
      forall x: nat | x in s'.db.committed
        ensures CommittedSound(s', x)
      {
        CommittedFrame(s, s', x);
      }
    }
    OwnFileStepWriters(s, w, pc, s');
  }

  lemma {:induction false} OwnFileStepWriters(s: State, w: nat, pc: Pc, s': State)
    requires WritersSound(s) && Serving(s, w) && Active(s.writers[w].pc)
    requires s' == Goto(s.(fs := s'.fs), w, pc) && !pc.Begin?
    requires OnlyTouches(s.fs, s'.fs, s.writers[w].record.id)
    requires Active(pc) ==> FilesAt(s'.fs, pc, s.writers[w].record.id, s.writers[w].data)
    ensures WritersSound(s')
  {
    hide FilesAt;
    hide SameFor;
    var id := s.writers[w].record.id;
    forall v: nat | v in s'.writers
      ensures WriterSound(s', s'.writers[v])
    {
      if v != w {
        WriterFrame(s, s', s.writers[v]);
      }
    }
  }

  /** A step that only moves writer `w` to a place where nothing more is promised. */
  lemma {:induction false} MoveStep(s: State, w: nat, pc: Pc, s': State)
    requires Sound(s) && Serving(s, w) && (Active(s.writers[w].pc) || pc.Done?)
    requires s' == Goto(s, w, pc) && (pc.CleanTmp? || pc.Done?)
    ensures Sound(s')
  {
    hide Inv;
    hide FilesAt;
    hide SlotSound;
    hide CommittedSound;
    assert SlotsSound(s') by {
      forall n: Name
        ensures SlotSound(s', n)
      {
        SameForSelf(s.fs, n.id);
        SlotFrame(s, s', n);
      }
    }
    assert AllCommittedSound(s') by {
      forall x: nat | x in s'.db.committed
        ensures CommittedSound(s', x)
      {
        SameForSelf(s.fs, x);
        CommittedFrame(s, s', x);
      }
    }
    MoveStepWriters(s, w, pc, s');
  }

  lemma {:induction false} MoveStepWriters(s: State, w: nat, pc: Pc, s': State)
    requires WritersSound(s) && Serving(s, w) && (Active(s.writers[w].pc) || pc.Done?)
    requires s' == Goto(s, w, pc) && (pc.CleanTmp? || pc.Done?)
    ensures WritersSound(s')
  {
    forall v: nat | v in s'.writers
      ensures WriterSound(s', s'.writers[v])
    {
      if v != w {
        SameForSelf(s.fs, s.writers[v].record.id);
        WriterFrame(s, s', s.writers[v]);
      }
    }
  }

  // ---------------------------------------------------------------- directory fsync

  lemma {:induction false} SyncedSlot(fs: Fs, n: Name)
    ensures At(SyncDirectory(fs), n) == Slot(At(fs, n).now, {At(fs, n).now})
  {
  }

  /** An fsync of the directory by anyone keeps what every writer relies on. */
  lemma {:induction false} SyncKeepsFiles(fs: Fs, pc: Pc, id: nat, data: string)
    requires FilesAt(fs, pc, id, data)
    ensures FilesAt(SyncDirectory(fs), pc, id, data)
  {
    SyncedSlot(fs, Tmp(id));
    SyncedSlot(fs, Final(id));
  }

  lemma {:induction false} SyncKeepsSlot(s: State, s': State, n: Name)
    requires SlotSound(s, n) && s'.fs == SyncDirectory(s.fs)
    requires s'.db == s.db
    ensures SlotSound(s', n)
  {
    SyncedSlot(s.fs, n);
  }

  lemma {:induction false} SyncKeepsCommitted(s: State, s': State, id: nat)
    requires s'.fs == SyncDirectory(s.fs) && s'.db == s.db && s'.requested == s.requested
    requires id in s.db.committed && CommittedSound(s, id)
    ensures CommittedSound(s', id)
  {
    SyncedSlot(s.fs, Tmp(id));
    SyncedSlot(s.fs, Final(id));
  }

  lemma {:induction false} SyncKeepsWriters(s: State, s': State)
    requires WritersSound(s) && s' == s.(fs := SyncDirectory(s.fs))
    ensures WritersSound(s')
  {
    hide FilesAt;
    forall v: nat | v in s'.writers
      ensures WriterSound(s', s'.writers[v])
    {
      var wr := s.writers[v];
      if Active(wr.pc) {
        SyncKeepsFiles(s.fs, wr.pc, wr.record.id, wr.data);
      }
    }
  }

  lemma {:induction false} SyncStep(s: State, s': State)
    requires Sound(s) && s.phase.Running? && s' == s.(fs := SyncDirectory(s.fs))
    ensures Sound(s')
  {
    hide Inv;
    hide SlotSound;
    hide CommittedSound;
    hide WritersSound;
    hide SyncDirectory;
    forall n: Name
      ensures SlotSound(s', n)
    {
      SyncKeepsSlot(s, s', n);
    }
    forall x: nat | x in s'.db.committed
      ensures CommittedSound(s', x)
    {
      SyncKeepsCommitted(s, s', x);
    }
    SyncKeepsWriters(s, s');
  }

  /** A writer whose directory fsync succeeded moves on. */
  lemma {:induction false} AdvanceStep(s: State, w: nat, pc: Pc, s': State)
    requires Sound(s) && Serving(s, w) && Active(s.writers[w].pc) && Active(pc)
    requires s' == Goto(s, w, pc) && FilesAt(s.fs, pc, s.writers[w].record.id, s.writers[w].data)
    ensures Sound(s')
  {
    hide Inv;
    hide FilesAt;
    hide SlotSound;
    hide CommittedSound;
    var id := s.writers[w].record.id;
    forall x: nat
      ensures SameFor(s.fs, s'.fs, x)
    {
      SameForSelf(s.fs, x);
    }
    SlotFrame(s, s', Tmp(id));
    SlotFrame(s, s', Final(id));
    OwnFileStep(s, w, pc, s');
  }

  // ---------------------------------------------------------------- file steps of a writer

  /** A failed file step: with or without its effect, cleanup comes next. */
  lemma {:induction false} EntrySound(s: State, s': State, n: Name, entry: Option<nat>)
    requires SlotSound(s, n) && s'.db == s.db && At(s'.fs, n) == Slot(entry, At(s.fs, n).may + {entry})
    requires n.id in s.db.preparing
    requires entry.Some? ==> entry.value in s'.fs.files && s'.fs.files[entry.value].owner == n.id
    requires forall i: nat :: i in s.fs.files ==> i in s'.fs.files && s'.fs.files[i].owner == s.fs.files[i].owner
    ensures SlotSound(s', n)
  {
  }

  lemma {:induction false} KeptSound(s: State, s': State, n: Name)
    requires SlotSound(s, n) && s'.db == s.db && At(s'.fs, n) == At(s.fs, n)
    requires forall i: nat :: i in s.fs.files ==> i in s'.fs.files && s'.fs.files[i].owner == s.fs.files[i].owner
    ensures SlotSound(s', n)
  {
  }

  lemma {:induction false} CreateSafe(s: State, w: nat, inode: nat, effect: bool, ok: bool, s': State)
    requires Sound(s) && WriterStep(s, Create(w, inode, effect, ok), s')
    ensures Sound(s')
  {
    hide Inv;
    hide SlotSound;
    hide CommittedSound;
    var id := s.writers[w].record.id;
    assert WriterSound(s, s.writers[w]);
    assert At(s.fs, Tmp(id)) == EMPTY && At(s.fs, Final(id)) == EMPTY;
    if !effect {
      MoveStep(s, w, CleanTmp, s');
    } else {
      CreateTouches(s.fs, id, inode);
      EntrySound(s, s', Tmp(id), Some(inode));
      KeptSound(s, s', Final(id));
      OwnFileStep(s, w, if ok then Opened(inode, 0) else CleanTmp, s');
    }
  }

  lemma {:induction false} WriteSafe(s: State, w: nat, count: nat, ok: bool, s': State)
    requires Sound(s) && WriterStep(s, WriteSome(w, count, ok), s')
    ensures Sound(s')
  {
    hide Inv;
    hide SlotSound;
    hide CommittedSound;
    var wr := s.writers[w];
    var id, inode, k := wr.record.id, wr.pc.inode, wr.pc.written;
    assert WriterSound(s, wr);
    AppendTouches(s.fs, inode, wr.data[k..k + count]);
    assert wr.data[..k] + wr.data[k..k + count] == wr.data[..k + count];
    KeptSound(s, s', Tmp(id));
    KeptSound(s, s', Final(id));
    OwnFileStep(s, w, if ok then Opened(inode, k + count) else CleanTmp, s');
  }

  lemma {:induction false} SyncDataSafe(s: State, w: nat, effect: bool, ok: bool, s': State)
    requires Sound(s) && WriterStep(s, SyncData(w, effect, ok), s')
    ensures Sound(s')
  {
    hide Inv;
    hide SlotSound;
    hide CommittedSound;
    var wr := s.writers[w];
    var id, inode := wr.record.id, wr.pc.inode;
    assert WriterSound(s, wr);
    if !effect {
      MoveStep(s, w, CleanTmp, s');
    } else {
      AppendTouches(s.fs, inode, "");
      assert wr.data[..|wr.data|] == wr.data;
      KeptSound(s, s', Tmp(id));
      KeptSound(s, s', Final(id));
      OwnFileStep(s, w, if ok then FileSynced(inode) else CleanTmp, s');
    }
  }

  lemma {:induction false} RenameSafe(s: State, w: nat, effect: bool, ok: bool, s': State)
    requires Sound(s) && WriterStep(s, Rename(w, effect, ok), s')
    ensures Sound(s')
  {
    hide Inv;
    hide SlotSound;
    hide CommittedSound;
    var wr := s.writers[w];
    var id, inode := wr.record.id, wr.pc.inode;
    assert WriterSound(s, wr);
    if !effect {
      MoveStep(s, w, CleanTmp, s');
    } else {
      RenameTouches(s.fs, id);
      EntrySound(s, s', Tmp(id), None);
      EntrySound(s, s', Final(id), Some(inode));
      OwnFileStep(s, w, if ok then Renamed(inode) else CleanTmp, s');
    }
  }

  lemma {:induction false} SyncDirSafe(s: State, w: nat, effect: bool, ok: bool, s': State)
    requires Sound(s) && WriterStep(s, SyncDir(w, effect, ok), s')
    ensures Sound(s')
  {
    hide Inv;
    hide SlotSound;
    hide CommittedSound;
    hide SyncDirectory;
    var wr := s.writers[w];
    assert WriterSound(s, wr);
    if !effect {
      MoveStep(s, w, CleanTmp, s');
    } else {
      var t := s.(fs := SyncDirectory(s.fs));
      SyncStep(s, t);
      if ok {
        SyncedSlot(s.fs, Tmp(wr.record.id));
        SyncedSlot(s.fs, Final(wr.record.id));
        SyncedFiles(s.fs);
        AdvanceStep(t, w, DirSynced(wr.pc.inode), s');
      } else {
        MoveStep(t, w, CleanTmp, s');
      }
    }
  }

  lemma {:induction false} SyncedFiles(fs: Fs)
    ensures SyncDirectory(fs).files == fs.files
  {
  }

  // ---------------------------------------------------------------- cleanup of a writer

  lemma {:induction false} UnlinkSafe(s: State, w: nat, n: Name, effect: bool, ok: bool, pc: Pc, s': State)
    requires Sound(s) && Serving(s, w) && n.id == s.writers[w].record.id && (ok ==> effect)
    requires (n.Tmp? && s.writers[w].pc.CleanTmp? && pc.CleanFinal?)
          || (n.Final? && s.writers[w].pc.CleanFinal? && pc.CleanSync?)
    requires s' == CleanStep(s, w, Unlink(s.fs, n), effect, ok, pc)
    ensures Sound(s')
  {
    hide Inv;
    hide SlotSound;
    hide CommittedSound;
    var id := n.id;
    assert WriterSound(s, s.writers[w]);
    if !effect {
      MoveStep(s, w, Done(false), s');
    } else {
      EntryTouches(s.fs, n, None);
      var other := if n.Tmp? then Final(id) else Tmp(id);
      EntrySound(s, s', n, None);
      KeptSound(s, s', other);
      OwnFileStep(s, w, if ok then pc else Done(false), s');
    }
  }

  lemma {:induction false} SyncUnlinksSafe(s: State, w: nat, effect: bool, ok: bool, s': State)
    requires Sound(s) && WriterStep(s, SyncUnlinks(w, effect, ok), s')
    ensures Sound(s')
  {
    hide Inv;
    hide SlotSound;
    hide CommittedSound;
    hide SyncDirectory;
    var wr := s.writers[w];
    assert WriterSound(s, wr);
    if !effect {
      MoveStep(s, w, Done(false), s');
    } else {
      var t := s.(fs := SyncDirectory(s.fs));
      SyncStep(s, t);
      if ok {
        SyncedSlot(s.fs, Tmp(wr.record.id));
        SyncedSlot(s.fs, Final(wr.record.id));
        AdvanceStep(t, w, CleanRecord, s');
      } else {
        MoveStep(t, w, Done(false), s');
      }
    }
  }

  // ---------------------------------------------------------------- commits of a writer

  /** The state differs only in the object table and, for writers, in `w`. */
  lemma {:induction false} TableStep(s: State, w: nat, s': State)
    requires Sound(s) && Serving(s, w) && w in s'.writers
    requires s' == s.(db := s'.db, requested := s'.requested, writers := s.writers[w := s'.writers[w]])
    requires Inv(s'.db)
    requires forall id: nat :: id in s.db.committed ==> id in s'.db.committed && s'.db.committed[id] == s.db.committed[id]
    requires forall id: nat :: id in s'.db.committed && id !in s.db.committed ==> CommittedSound(s', id)
    requires forall id: nat :: id in s.requested ==> id in s'.requested && s'.requested[id] == s.requested[id]
    requires forall n: Name :: SlotSound(s', n)
    requires forall v: nat :: v in s.writers && v != w && Active(s.writers[v].pc) ==>
               && s.writers[v].record.id in s'.db.preparing
               && s'.db.preparing[s.writers[v].record.id] == s.writers[v].record
               && s.writers[v].record.id != s'.writers[w].record.id
    requires WriterSound(s', s'.writers[w])
    requires RequestsSound(s')
    ensures Sound(s')
  {
    hide Inv;
    hide SlotSound;
    hide CommittedSound;
    hide FilesAt;
    assert AllCommittedSound(s') by {
      forall x: nat | x in s'.db.committed
        ensures CommittedSound(s', x)
      {
        if x in s.db.committed {
          SameForSelf(s.fs, x);
          CommittedFrame(s, s', x);
        }
      }
    }
    assert WritersSound(s') by {
      forall v: nat | v in s'.writers
        ensures WriterSound(s', s'.writers[v])
      {
        if v != w {
          SameForSelf(s.fs, s.writers[v].record.id);
          WriterFrame(s, s', s.writers[v]);
        }
      }
    }
  }

  /** A name of an identifier in neither phase is empty, now and after any power loss. */
  lemma {:induction false} UnknownIsEmpty(s: State, n: Name)
    requires SlotSound(s, n) && n.id !in s.db.preparing && n.id !in s.db.committed
    ensures At(s.fs, n) == EMPTY
  {
    var slot := At(s.fs, n);
    assert forall e :: e in slot.may ==> e == None;
    assert slot.may == {None};
  }

  lemma {:induction false} TableSlots(s: State, s': State)
    requires SlotsSound(s) && s'.fs == s.fs
    requires forall id: nat :: id in s.db.preparing || id in s.db.committed ==> id in s'.db.preparing || id in s'.db.committed
    ensures SlotsSound(s')
  {
    hide SlotSound;
    forall n: Name
      ensures SlotSound(s', n)
    {
      SameForSelf(s.fs, n.id);
      SlotFrame(s, s', n);
    }
  }

  lemma {:induction false} ApplyPrepare(db: Db, o: StoredObject)
    ensures Apply(db, [PutPreparing(o.(id := db.nextObjectId)), SetNextObjectId(db.nextObjectId + 1)]) ==
            db.(preparing := db.preparing[db.nextObjectId := o.(id := db.nextObjectId)], nextObjectId := db.nextObjectId + 1)
  {
    ApplyTwo(db, PutPreparing(o.(id := db.nextObjectId)), SetNextObjectId(db.nextObjectId + 1));
  }

  lemma {:induction false} PrepareSafe(s: State, w: nat, effect: bool, ok: bool, s': State)
    requires Sound(s) && WriterStep(s, Prepare(w, effect, ok), s')
    ensures Sound(s')
  {
    hide Inv;
    hide SlotSound;
    hide CommittedSound;
    hide Apply;
    hide DecidePrepare;
    hide FilesAt;
    var wr := s.writers[w];
    assert WriterSound(s, wr);
    if !DecidePrepare(s.db, wr.record, wr.token).Commit? {
      MoveStep(s, w, Done(false), s');
    } else if !effect {
      var t := s.(writers := s.writers[w := wr.(record := wr.record.(id := s.db.nextObjectId), pc := Done(false))]);
      IdleRename(s, w, t);
    } else {
      PrepareInv(s.db, wr.record, wr.token);
      PrepareEffect(s, w, ok, s');
    }
  }

  lemma {:induction false} IdleRename(s: State, w: nat, s': State)
    requires Sound(s) && Serving(s, w) && w in s'.writers && s'.writers[w].pc.Done?
    requires s' == s.(writers := s.writers[w := s'.writers[w]])
    ensures Sound(s')
  {
    hide Inv;
    hide FilesAt;
    TableSlots(s, s');
    forall x: nat | x in s'.db.committed
      ensures CommittedSound(s', x)
    {
      SameForSelf(s.fs, x);
      CommittedFrame(s, s', x);
    }
    forall v: nat | v in s'.writers
      ensures WriterSound(s', s'.writers[v])
    {
      if v != w {
        SameForSelf(s.fs, s.writers[v].record.id);
        WriterFrame(s, s', s.writers[v]);
      }
    }
  }

  lemma {:induction false} PrepareEffect(s: State, w: nat, ok: bool, s': State)
    requires Sound(s) && Serving(s, w) && s.writers[w].pc.Begin?
    requires DecidePrepare(s.db, s.writers[w].record, s.writers[w].token).Commit?
    requires s' == PrepareStep(s, w, true, ok) && Inv(s'.db)
    ensures Sound(s')
  {
    hide Inv;
    hide SlotSound;
    hide CommittedSound;
    hide Apply;
    var wr := s.writers[w];
    var id := s.db.nextObjectId;
    ObjectFacts(s.db);
    ApplyPrepare(s.db, wr.record);
    assert WriterSound(s, wr);
    UnknownIsEmpty(s, Tmp(id));
    UnknownIsEmpty(s, Final(id));
    TableSlots(s, s');
    assert FilesAt(s'.fs, Prepared, id, wr.data);
    assert WriterSound(s', s'.writers[w]);
    OthersKeepRecord(s, w, s');
    TableStep(s, w, s');
  }

  /** Other active writers hold identifiers below the counter, so a new record is not theirs. */
  lemma {:induction false} OthersKeepRecord(s: State, w: nat, s': State)
    requires WritersSound(s) && ObjectIds(s.db) && w in s.writers && w in s'.writers
    requires s'.writers[w].record.id == s.db.nextObjectId
    requires s'.db.preparing == s.db.preparing[s.db.nextObjectId := s'.writers[w].record]
    ensures forall v: nat :: v in s.writers && v != w && Active(s.writers[v].pc) ==>
              && s.writers[v].record.id in s'.db.preparing
              && s'.db.preparing[s.writers[v].record.id] == s.writers[v].record
              && s.writers[v].record.id != s'.writers[w].record.id
  {
    hide FilesAt;
    forall v: nat | v in s.writers && v != w && Active(s.writers[v].pc)
      ensures s.writers[v].record.id in s.db.preparing && s.writers[v].record.id < s.db.nextObjectId
      ensures s.db.preparing[s.writers[v].record.id] == s.writers[v].record
    {
      assert WriterSound(s, s.writers[v]);
    }
  }

  /** Other active writers hold other identifiers, so removing this record leaves theirs. */
  lemma {:induction false} OthersKeepTheirs(s: State, w: nat, s': State)
    requires WritersSound(s) && w in s.writers && w in s'.writers && Active(s.writers[w].pc)
    requires s'.writers[w].record == s.writers[w].record
    requires s'.db.preparing == s.db.preparing - {s.writers[w].record.id}
    ensures forall v: nat :: v in s.writers && v != w && Active(s.writers[v].pc) ==>
              && s.writers[v].record.id in s'.db.preparing
              && s'.db.preparing[s.writers[v].record.id] == s.writers[v].record
              && s.writers[v].record.id != s'.writers[w].record.id
  {
    hide FilesAt;
    forall v: nat | v in s.writers && v != w && Active(s.writers[v].pc)
      ensures s.writers[v].record.id in s.db.preparing && s.writers[v].record.id != s.writers[w].record.id
      ensures s.db.preparing[s.writers[v].record.id] == s.writers[v].record
    {
      assert WriterSound(s, s.writers[v]);
    }
  }

  lemma {:induction false} ApplyFinish(db: Db, o: StoredObject)
    ensures Apply(db, [DeletePreparing(o.id), PutCommitted(o)]) ==
            db.(preparing := db.preparing - {o.id}, committed := db.committed[o.id := o])
  {
    ApplyTwo(db, DeletePreparing(o.id), PutCommitted(o));
  }

  /** The record a writer committed in the first phase is still there and still the same. */
  lemma {:induction false} FinishNotCorrupt(s: State, w: nat)
    requires Sound(s) && Serving(s, w) && s.writers[w].pc.DirSynced?
    ensures DecideCommit(s.db, s.writers[w].record, s.writers[w].token) != Rejected(CORRUPTION)
  {
    hide Inv;
    hide SlotSound;
    hide CommittedSound;
    hide ValidObject;
    ObjectFacts(s.db);
    assert WriterSound(s, s.writers[w]);
  }

  lemma {:induction false} FinishSafe(s: State, w: nat, effect: bool, ok: bool, s': State)
    requires Sound(s) && WriterStep(s, Finish(w, effect, ok), s')
    ensures Sound(s')
  {
    hide Inv;
    hide SlotSound;
    hide CommittedSound;
    hide Apply;
    hide DecideCommit;
    hide FilesAt;
    var wr := s.writers[w];
    FinishNotCorrupt(s, w);
    if !DecideCommit(s.db, wr.record, wr.token).Commit? {
      MoveStep(s, w, CleanTmp, s');
    } else if !effect {
      MoveStep(s, w, Done(ok), s');
    } else {
      CommitInv(s.db, wr.record, wr.token);
      FinishEffect(s, w, ok, s');
    }
  }

  lemma {:induction false} FinishEffect(s: State, w: nat, ok: bool, s': State)
    requires Sound(s) && Serving(s, w) && s.writers[w].pc.DirSynced?
    requires DecideCommit(s.db, s.writers[w].record, s.writers[w].token).Commit?
    requires s' == FinishStep(s, w, true, ok) && Inv(s'.db)
    ensures Sound(s')
  {
    hide Inv;
    hide SlotSound;
    hide Apply;
    hide ValidObject;
    var wr := s.writers[w];
    ObjectFacts(s.db);
    ApplyFinish(s.db, wr.record);
    assert WriterSound(s, wr);
    TableSlots(s, s');
    OthersKeepTheirs(s, w, s');
    assert CommittedSound(s', wr.record.id);
    TableStep(s, w, s');
  }

  lemma {:induction false} DropRecordSafe(s: State, w: nat, effect: bool, ok: bool, s': State)
    requires Sound(s) && WriterStep(s, DropRecord(w, effect, ok), s')
    ensures Sound(s')
  {
    hide Inv;
    hide CommittedSound;
    hide SlotSound;
    hide Apply;
    var wr := s.writers[w];
    var id := wr.record.id;
    assert WriterSound(s, wr);
    if !effect {
      MoveStep(s, w, Done(false), s');
    } else {
      DropInv(s.db, [id]);
      ApplyDeletes(s.db, [id]);
      assert s'.db.preparing == s.db.preparing - {id};
      forall n: Name
        ensures SlotSound(s', n)
      {
        DropSlot(s, s', id, n);
      }
      OthersKeepTheirs(s, w, s');
      TableStep(s, w, s');
    }
  }

  lemma {:induction false} DropSlot(s: State, s': State, id: nat, n: Name)
    requires SlotSound(s, n) && s'.fs == s.fs && s'.db.committed == s.db.committed
    requires s'.db.preparing == s.db.preparing - {id}
    requires At(s.fs, Tmp(id)) == EMPTY && At(s.fs, Final(id)) == EMPTY
    ensures SlotSound(s', n)
  {
    if n.id == id {
      assert n == Tmp(id) || n == Final(id);
    }
  }
}
