/**
 The two-phase object write with any number of concurrent writers, failures at
 every step, process crashes, power losses and restart recovery, over one shared
 durable state.
 */
module ObjectProtocol {
  import opened Types
  import opened Records
  import opened Store
  import opened Tokens
  import opened Log
  import opened LogInvariants
  import opened ObjectFiles

  /** Where a `WriteObject` call stands. */
  datatype Pc =
    | Begin
    | Prepared
    | Opened(inode: nat, written: nat)
    | FileSynced(inode: nat)
    | Renamed(inode: nat)
    | DirSynced(inode: nat)
    | CleanTmp
    | CleanFinal
    | CleanSync
    | CleanRecord
    | Done(ok: bool)

  /** One `WriteObject` call; `token` is the caller's credential. */
  datatype Writer = Writer(pc: Pc, record: StoredObject, token: string, data: string)

  /** The server is down, starting (deleting leftovers) or serving. */
  datatype Phase =
    | Down
    | Unlinking(ids: seq<nat>, index: nat, tmpGone: bool)
    | Emptied(ids: seq<nat>)
    | Running

  /**
   `requested` remembers, for every identifier ever handed out, the bytes of the
   request it was handed out for; `corrupt` records that a branch reporting
   storage corruption was taken.
   */
  datatype State = State(
    db: Db,
    fs: Fs,
    writers: map<nat, Writer>,
    requested: map<nat, string>,
    phase: Phase,
    corrupt: bool)

  /** `effect`: the change took place; `ok`: success was reported. */
  datatype Step =
    | Other(op: Op)
    | Arrive(w: nat, record: StoredObject, token: string, data: string)
    | Prepare(w: nat, effect: bool, ok: bool)
    | Create(w: nat, inode: nat, effect: bool, ok: bool)
    | WriteSome(w: nat, count: nat, ok: bool)
    | SyncData(w: nat, effect: bool, ok: bool)
    | Rename(w: nat, effect: bool, ok: bool)
    | SyncDir(w: nat, effect: bool, ok: bool)
    | Finish(w: nat, effect: bool, ok: bool)
    | UnlinkTmp(w: nat, effect: bool, ok: bool)
    | UnlinkFinal(w: nat, effect: bool, ok: bool)
    | SyncUnlinks(w: nat, effect: bool, ok: bool)
    | DropRecord(w: nat, effect: bool, ok: bool)
    | Abandon(w: nat)
    | ProcessCrash
    | PowerFailure
    | Restart(ids: seq<nat>)
    | RecoverTmp(effect: bool, ok: bool)
    | RecoverFinal(effect: bool, ok: bool)
    | RecoverSync(effect: bool, ok: bool)
    | RecoverCommit(effect: bool, ok: bool)

  function Goto(s: State, w: nat, pc: Pc): State
    requires w in s.writers
  {
    s.(writers := s.writers[w := s.writers[w].(pc := pc)])
  }

  function Corrupted(s: State, w: nat): State
    requires w in s.writers
  {
    Goto(s, w, Done(false)).(corrupt := true)
  }

  /** A file step that reports failure sends the writer to cleanup. */
  function FileStep(s: State, w: nat, fs: Fs, effect: bool, ok: bool, next: Pc): State
    requires w in s.writers
  {
    var t := if effect then s.(fs := fs) else s;
    Goto(t, w, if ok then next else CleanTmp)
  }

  /** A cleanup step that reports failure ends the call and leaves the rest to the next start. */
  function CleanStep(s: State, w: nat, fs: Fs, effect: bool, ok: bool, next: Pc): State
    requires w in s.writers
  {
    var t := if effect then s.(fs := fs) else s;
    Goto(t, w, if ok then next else Done(false))
  }

  /** Writer `w` of a serving process is at a place of this kind. */
  predicate Serving(s: State, w: nat) {
    s.phase.Running? && w in s.writers
  }

  predicate IsObjectOp(op: Op) {
    op.PrepareObject? || op.CommitObject? || op.DropPreparing?
  }

  function PrepareStep(s: State, w: nat, effect: bool, ok: bool): State
    requires w in s.writers
  {
    var wr := s.writers[w];
    var d := DecidePrepare(s.db, wr.record, wr.token);
    if !d.Commit? then Goto(s, w, Done(false))
    else
      var id := s.db.nextObjectId;
      var t := if effect then s.(db := Apply(s.db, d.batch), requested := s.requested[id := wr.data]) else s;
      var wr' := wr.(record := wr.record.(id := id), pc := if ok then Prepared else Done(false));
      t.(writers := t.writers[w := wr'])
  }

  /** The final commit; once it was attempted there is no cleanup. */
  function FinishStep(s: State, w: nat, effect: bool, ok: bool): State
    requires w in s.writers
  {
    var wr := s.writers[w];
    var d := DecideCommit(s.db, wr.record, wr.token);
    if d == Rejected(CORRUPTION) then Corrupted(s, w)
    else if !d.Commit? then Goto(s, w, CleanTmp)
    else Goto(if effect then s.(db := Apply(s.db, d.batch)) else s, w, Done(ok))
  }

  predicate Lists(ids: seq<nat>, db: Db) {
    Distinct(ids) && (forall i :: 0 <= i < |ids| ==> ids[i] in db.preparing)
    && (forall id: nat :: id in db.preparing ==> id in ids)
  }

  function RestartStep(s: State, ids: seq<nat>): State {
    if exists i :: 0 <= i < |ids| && (ids[i] in s.db.committed || ids[i] !in s.db.preparing
                                      || !ValidObject(s.db.preparing[ids[i]], ids[i]))
    then s.(corrupt := true)
    else s.(phase := if |ids| == 0 then Running else Unlinking(ids, 0, false))
  }

  function RecoverStep(s: State, fs: Fs, effect: bool, ok: bool, next: Phase): State {
    var t := if effect then s.(fs := fs) else s;
    t.(phase := if ok then next else Down)
  }

  /** The steps a writer takes. */
  ghost predicate WriterStep(s: State, step: Step, s': State) {
    match step
    case Prepare(w, effect, ok) =>
      Serving(s, w) && s.writers[w].pc.Begin? && (ok ==> effect) && s' == PrepareStep(s, w, effect, ok)
    case Create(w, inode, effect, ok) =>
      && Serving(s, w) && s.writers[w].pc.Prepared? && (ok ==> effect) && inode !in s.fs.files
      && var id := s.writers[w].record.id;
         s' == if At(s.fs, Tmp(id)).now.Some? then Corrupted(s, w)
               else FileStep(s, w, CreateTemp(s.fs, id, inode), effect, ok, Opened(inode, 0))
    case WriteSome(w, count, ok) =>
      && Serving(s, w) && s.writers[w].pc.Opened? && s.writers[w].pc.inode in s.fs.files
      && var k := s.writers[w].pc.written;
         && k + count <= |s.writers[w].data| && (ok ==> count > 0)
         && s' == FileStep(s, w, Append(s.fs, s.writers[w].pc.inode, s.writers[w].data[k..k + count]), true, ok,
                           Opened(s.writers[w].pc.inode, k + count))
    case SyncData(w, effect, ok) =>
      && Serving(s, w) && s.writers[w].pc.Opened? && s.writers[w].pc.inode in s.fs.files && (ok ==> effect)
      && s.writers[w].pc.written == |s.writers[w].data|
      && s' == FileStep(s, w, ObjectFiles.SyncFile(s.fs, s.writers[w].pc.inode), effect, ok,
                        FileSynced(s.writers[w].pc.inode))
    case Rename(w, effect, ok) =>
      && Serving(s, w) && s.writers[w].pc.FileSynced? && (ok ==> effect)
      && var id := s.writers[w].record.id;
         s' == if At(s.fs, Final(id)).now.Some? then Corrupted(s, w)
               else FileStep(s, w, RenameFinal(s.fs, id), effect && At(s.fs, Tmp(id)).now.Some?,
                             ok && At(s.fs, Tmp(id)).now.Some?, Renamed(s.writers[w].pc.inode))
    case SyncDir(w, effect, ok) =>
      && Serving(s, w) && s.writers[w].pc.Renamed? && (ok ==> effect)
      && s' == FileStep(s, w, SyncDirectory(s.fs), effect, ok, DirSynced(s.writers[w].pc.inode))
    case Finish(w, effect, ok) =>
      Serving(s, w) && s.writers[w].pc.DirSynced? && (ok ==> effect) && s' == FinishStep(s, w, effect, ok)
    case _ => CleanupStep(s, step, s')
  }

  ghost predicate CleanupStep(s: State, step: Step, s': State) {
    match step
    case UnlinkTmp(w, effect, ok) =>
      && Serving(s, w) && s.writers[w].pc.CleanTmp? && (ok ==> effect)
      && s' == CleanStep(s, w, Unlink(s.fs, Tmp(s.writers[w].record.id)), effect, ok, CleanFinal)
    case UnlinkFinal(w, effect, ok) =>
      && Serving(s, w) && s.writers[w].pc.CleanFinal? && (ok ==> effect)
      && s' == CleanStep(s, w, Unlink(s.fs, Final(s.writers[w].record.id)), effect, ok, CleanSync)
    case SyncUnlinks(w, effect, ok) =>
      && Serving(s, w) && s.writers[w].pc.CleanSync? && (ok ==> effect)
      && s' == CleanStep(s, w, SyncDirectory(s.fs), effect, ok, CleanRecord)
    case DropRecord(w, effect, ok) =>
      && Serving(s, w) && s.writers[w].pc.CleanRecord? && (ok ==> effect)
      && s' == Goto(if effect then s.(db := Apply(s.db, Deletes([s.writers[w].record.id]))) else s, w, Done(false))
    case Abandon(w) =>
      Serving(s, w) && s' == Goto(s, w, Done(false))
    case _ => false
  }

  ghost predicate RecoveryStep(s: State, step: Step, s': State) {
    match step
    case Restart(ids) =>
      s.phase.Down? && Lists(ids, s.db) && s' == RestartStep(s, ids)
    case RecoverTmp(effect, ok) =>
      && s.phase.Unlinking? && s.phase.index < |s.phase.ids| && !s.phase.tmpGone && (ok ==> effect)
      && s' == RecoverStep(s, Unlink(s.fs, Tmp(s.phase.ids[s.phase.index])), effect, ok,
                           Unlinking(s.phase.ids, s.phase.index, true))
    case RecoverFinal(effect, ok) =>
      && s.phase.Unlinking? && s.phase.index < |s.phase.ids| && s.phase.tmpGone && (ok ==> effect)
      && s' == RecoverStep(s, Unlink(s.fs, Final(s.phase.ids[s.phase.index])), effect, ok,
                           Unlinking(s.phase.ids, s.phase.index + 1, false))
    case RecoverSync(effect, ok) =>
      && s.phase.Unlinking? && s.phase.index == |s.phase.ids| && (ok ==> effect)
      && s' == RecoverStep(s, SyncDirectory(s.fs), effect, ok, Emptied(s.phase.ids))
    case RecoverCommit(effect, ok) =>
      && s.phase.Emptied? && (ok ==> effect)
      && s' == (if effect then s.(db := Apply(s.db, Deletes(s.phase.ids))) else s).(phase := if ok then Running else Down)
    case _ => false
  }

  /** One step of the whole system. */
  ghost predicate SystemStep(maxPayload: nat, s: State, step: Step, s': State) {
    match step
    case Other(op) =>
      s.phase.Running? && !IsObjectOp(op) && Next(maxPayload, s.db, op, s'.db) && s' == s.(db := s'.db)
    case Arrive(w, record, token, data) =>
      && s.phase.Running? && w !in s.writers && record.size == |data| && IsBase64UrlToken(record.token)
      && s' == s.(writers := s.writers[w := Writer(Begin, record, token, data)])
    case ProcessCrash =>
      s' == s.(writers := map[], phase := Down)
    case PowerFailure =>
      PowerLoss(s.fs, s'.fs) && s' == s.(fs := s'.fs, writers := map[], phase := Down)
    case Restart(_) => RecoveryStep(s, step, s')
    case RecoverTmp(_, _) => RecoveryStep(s, step, s')
    case RecoverFinal(_, _) => RecoveryStep(s, step, s')
    case RecoverSync(_, _) => RecoveryStep(s, step, s')
    case RecoverCommit(_, _) => RecoveryStep(s, step, s')
    case _ => WriterStep(s, step, s')
  }

  ghost predicate Initial(s: State) {
    && (exists timestamp: nat :: s.db == InitialDb(timestamp))
    && s.fs == Fs(map[], map[]) && s.writers == map[] && s.requested == map[] && s.phase.Down? && !s.corrupt
  }

  // ---------------------------------------------------------------- invariant

  /** A writer that holds an identifier. */
  predicate Active(pc: Pc) {
    !pc.Begin? && !pc.Done?
  }

  /** Every entry a name has or may come back with leads to a file of an object in the table. */
  ghost predicate SlotSound(s: State, n: Name) {
    var slot := At(s.fs, n);
    && slot.now in slot.may
    && forall e :: e in slot.may && e.Some? ==>
         && e.value in s.fs.files && s.fs.files[e.value].owner == n.id
         && (n.id in s.db.preparing || n.id in s.db.committed)
  }

  ghost predicate SlotsSound(s: State) {
    forall n: Name :: SlotSound(s, n)
  }

  /**
   A committed object has its final file, durably, with exactly the requested
   bytes, and nothing else.
   */
  ghost predicate CommittedSound(s: State, id: nat)
    requires id in s.db.committed
  {
    && id in s.requested && |s.requested[id]| == s.db.committed[id].size
    && At(s.fs, Tmp(id)) == EMPTY
    && exists i: nat :: i in s.fs.files && s.fs.files[i] == File(id, s.requested[id], true)
                        && At(s.fs, Final(id)) == Slot(Some(i), {Some(i)})
  }

  ghost predicate AllCommittedSound(s: State) {
    forall id: nat :: id in s.db.committed ==> CommittedSound(s, id)
  }

  /** What a writer at `pc` may rely on about its own names and file. */
  ghost predicate FilesAt(fs: Fs, pc: Pc, id: nat, data: string) {
    var tmp, final := At(fs, Tmp(id)), At(fs, Final(id));
    match pc
    case Prepared => tmp == EMPTY && final == EMPTY
    case Opened(i, k) =>
      && tmp.now == Some(i) && final == EMPTY && i in fs.files && fs.files[i].owner == id
      && k <= |data| && fs.files[i].data == data[..k]
    case FileSynced(i) =>
      tmp.now == Some(i) && final == EMPTY && i in fs.files && fs.files[i] == File(id, data, true)
    case Renamed(i) =>
      tmp.now == None && final.now == Some(i) && i in fs.files && fs.files[i] == File(id, data, true)
    case DirSynced(i) =>
      tmp == EMPTY && final == Slot(Some(i), {Some(i)}) && i in fs.files && fs.files[i] == File(id, data, true)
    case CleanFinal => tmp.now == None
    case CleanSync => tmp.now == None && final.now == None
    case CleanRecord => tmp == EMPTY && final == EMPTY
    case _ => true
  }

  ghost predicate WriterSound(s: State, wr: Writer) {
    && (wr.pc.Begin? ==> IsBase64UrlToken(wr.record.token) && wr.record.size == |wr.data|)
    && (Active(wr.pc) ==>
          && wr.record.id in s.db.preparing && s.db.preparing[wr.record.id] == wr.record
          && wr.record.id in s.requested && s.requested[wr.record.id] == wr.data && wr.record.size == |wr.data|
          && FilesAt(s.fs, wr.pc, wr.record.id, wr.data))
  }

  ghost predicate WritersSound(s: State) {
    && (forall w: nat :: w in s.writers ==> WriterSound(s, s.writers[w]))
    && (forall v: nat, w: nat ::
          v in s.writers && w in s.writers && v != w && Active(s.writers[v].pc) && Active(s.writers[w].pc)
          ==> s.writers[v].record.id != s.writers[w].record.id)
  }

  ghost predicate PhaseSound(s: State) {
    && (!s.phase.Running? ==> s.writers == map[])
    && match s.phase
       case Unlinking(ids, i, tmpGone) =>
         && Lists(ids, s.db) && i <= |ids|
         && (tmpGone ==> i < |ids| && At(s.fs, Tmp(ids[i])).now == None)
         && (forall k :: 0 <= k < i ==> At(s.fs, Tmp(ids[k])).now == None && At(s.fs, Final(ids[k])).now == None)
       case Emptied(ids) =>
         Lists(ids, s.db) && forall k :: 0 <= k < |ids| ==> At(s.fs, Tmp(ids[k])) == EMPTY && At(s.fs, Final(ids[k])) == EMPTY
       case _ => true
  }

  /** Identifiers are handed out once: below the counter, each with one request. */
  ghost predicate RequestsSound(s: State) {
    && (forall id: nat :: id in s.requested ==> id < s.db.nextObjectId)
    && (forall id: nat :: id in s.db.preparing ==> id in s.requested)
  }

  ghost predicate Sound(s: State) {
    && Inv(s.db) && !s.corrupt && SlotsSound(s) && AllCommittedSound(s) && WritersSound(s)
    && PhaseSound(s) && RequestsSound(s)
  }
}
