/**
 The object directory as the server drives it: the write loop, cleanup, ranged
 reads and the recovery of interrupted writes, whatever the operating system
 answers to each call.
 */
module ObjectIo {
  import opened Types
  import opened Records
  import opened Store
  import opened Log
  import opened LogInvariants
  import opened ObjectFiles
  import Requests

  /** A call that reports failure may still have taken effect. */
  datatype Outcome = Outcome(effect: bool, status: Status)

  predicate Possible(o: Outcome) {
    o.status == Ok ==> o.effect
  }

  /** The answer to call number `k`; calls beyond the list succeed. */
  function AnswerTo(outcomes: seq<Outcome>, k: nat): Outcome {
    if k < |outcomes| then outcomes[k] else Outcome(true, Ok)
  }

  /** `read` and `write`: a signal, some bytes moved, or an error. */
  datatype Transfer = Interrupted | Moved(count: nat) | Broken(status: Status)

  /** The answers to the calls of one file write, in the order they are made. */
  datatype Answers = Answers(inode: nat, create: Outcome, writes: seq<Transfer>, sync: Outcome, rename: Outcome, syncDir: Outcome)

  predicate PossibleAnswers(fs: Fs, a: Answers) {
    && a.inode !in fs.files
    && Possible(a.create) && Possible(a.sync) && Possible(a.rename) && Possible(a.syncDir)
    && (forall i :: 0 <= i < |a.writes| ==> a.writes[i] != Broken(Ok))
  }

  function Min(a: nat, b: nat): (r: nat)
    ensures r <= a && r <= b && (r == a || r == b)
  {
    if a <= b then a else b
  }

  // ---------------------------------------------------------------- transfers

  /** Signals and calls that move at least a byte. */
  predicate NoError(ts: seq<Transfer>) {
    forall i :: 0 <= i < |ts| ==> ts[i].Interrupted? || (ts[i].Moved? && ts[i].count > 0)
  }

  /** The bytes the calls offer to move together. */
  function MovedIn(ts: seq<Transfer>): nat {
    if |ts| == 0 then 0
    else MovedIn(ts[..|ts| - 1]) + (if ts[|ts| - 1].Moved? then ts[|ts| - 1].count else 0)
  }

  /** `n` bytes are moved before anything goes wrong. */
  ghost predicate Enough(ts: seq<Transfer>, n: nat) {
    exists k: nat :: EnoughAt(ts, k, n)
  }

  predicate EnoughAt(ts: seq<Transfer>, k: nat, n: nat) {
    k <= |ts| && NoError(ts[..k]) && MovedIn(ts[..k]) >= n
  }

  /** What a transfer that does not move enough reports: an error among the answers, a call that moved nothing, or no answer. */
  ghost predicate FaultOf(ts: seq<Transfer>, onZero: Status, status: Status) {
    status != Ok && (status == onZero || status == Reject(Unavailable) || Broken(status) in ts)
  }

  lemma {:induction false} MovedNext(ts: seq<Transfer>, k: nat)
    requires k < |ts|
    ensures MovedIn(ts[..k + 1]) == MovedIn(ts[..k]) + (if ts[k].Moved? then ts[k].count else 0)
    ensures NoError(ts[..k + 1]) <==> NoError(ts[..k]) && NoError([ts[k]])
  {
    assert ts[..k + 1][..k] == ts[..k];
    assert ts[..k + 1] == ts[..k] + [ts[k]];
    if NoError(ts[..k + 1]) {
      assert ts[..k + 1][k] == ts[k];
      assert forall i :: 0 <= i < k ==> ts[..k][i] == ts[..k + 1][i];
    }
  }

  lemma {:induction false} MovedGrows(ts: seq<Transfer>, j: nat, k: nat)
    requires j <= k <= |ts|
    ensures MovedIn(ts[..j]) <= MovedIn(ts[..k])
    decreases k
  {
    if j < k {
      MovedGrows(ts, j, k - 1);
      MovedNext(ts, k - 1);
    }
  }

  /** Short of `n` bytes, with an error next or no answer left, it is never enough. */
  lemma {:induction false} Stuck(ts: seq<Transfer>, call: nat, n: nat)
    requires call <= |ts| && MovedIn(ts[..call]) < n
    requires call == |ts| || !NoError([ts[call]])
    ensures !Enough(ts, n)
  {
    forall k: nat
      ensures !EnoughAt(ts, k, n)
    {
      if k <= call {
        MovedGrows(ts, k, call);
      } else if k <= |ts| {
        assert ts[..k][call] == ts[call];
      }
    }
  }

  // ---------------------------------------------------------------- when calls succeed

  /** Every unlink of `n` objects succeeds, and the sync behind them. */
  predicate FilesGo(unlinks: seq<Outcome>, sync: Outcome, n: nat) {
    (forall k :: 0 <= k < 2 * n ==> AnswerTo(unlinks, k).status == Ok) && (n > 0 ==> sync.status == Ok)
  }

  /** The answer of a cleanup is its first failure. */
  ghost predicate FirstFailure(unlinks: seq<Outcome>, sync: Outcome, n: nat, status: Status) {
    if status == Ok then FilesGo(unlinks, sync, n)
    else
      || (exists k :: 0 <= k < 2 * n && AnswerTo(unlinks, k).status == status
                      && forall j :: 0 <= j < k ==> AnswerTo(unlinks, j).status == Ok)
      || (n > 0 && sync.status == status && forall k :: 0 <= k < 2 * n ==> AnswerTo(unlinks, k).status == Ok)
  }

  /** Exactly when the file of `n` bytes is written: both names are free and no call fails. */
  ghost predicate WriteSucceeds(fs: Fs, id: nat, n: nat, a: Answers) {
    && At(fs, Tmp(id)).now.None? && At(fs, Final(id)).now.None? && Enough(a.writes, n)
    && a.create.status == Ok && a.sync.status == Ok && a.rename.status == Ok && a.syncDir.status == Ok
  }

  /** The answer of a file write: that of the first thing that goes wrong. */
  ghost predicate WriteAnswers(fs: Fs, id: nat, n: nat, a: Answers, status: Status) {
    if At(fs, Tmp(id)).now.Some? then status == CORRUPTION
    else if a.create.status != Ok then status == a.create.status
    else if !Enough(a.writes, n) then FaultOf(a.writes, Reject(Unavailable), status)
    else if a.sync.status != Ok then status == a.sync.status
    else if At(fs, Final(id)).now.Some? then status == CORRUPTION
    else if a.rename.status != Ok then status == a.rename.status
    else status == a.syncDir.status
  }

  // ---------------------------------------------------------------- what a write leaves

  /** The credential and the record that the final commit of an object write needs. */
  predicate Committable(record: StoredObject, id: nat, token: string, tokens: set<Credential>) {
    Credential(record.creator, token) in tokens && ValidObject(record.(id := id), id)
  }

  /** An object write is admitted: its fields are within the limits and its credential is stored. */
  predicate ObjectAdmitted(db: Db, record: StoredObject, token: string) {
    && record.creator != 0 && 1 <= |record.name| <= 255 && 1 <= |record.kind| <= 255 && |record.description| <= 4096
    && 1 <= record.size <= 4 * 1024 * 1024
    && token != "" && Credential(record.creator, token) in db.tokens
  }

  lemma {:induction false} AdmittedIff(db: Db, record: StoredObject, token: string)
    ensures ObjectAdmitted(db, record, token) <==> DecidePrepare(db, record, token).Commit?
    ensures ObjectAdmitted(db, record, token) <==> Requests.PrepareAnswer(db, record, token) == Ok
    ensures !ObjectAdmitted(db, record, token) ==>
              DecidePrepare(db, record, token) == Rejected(Requests.PrepareAnswer(db, record, token))
  {
    Requests.PrepareDecided(db, record, token);
  }

  /** Exactly when an object write succeeds: it is admitted, written and admitted again, and no commit fails. */
  ghost predicate ObjectSucceeds(db: Db, fs: Fs, record: StoredObject, token: string, n: nat, prepare: Outcome, answers: Answers,
                                 tokens: set<Credential>, commit: Outcome) {
    && ObjectAdmitted(db, record, token) && prepare.status == Ok
    && WriteSucceeds(fs, db.nextObjectId, n, answers)
    && Committable(record, db.nextObjectId, token, tokens) && commit.status == Ok
  }

  /** What an object write answers and leaves, from the first thing that goes wrong on. */
  ghost predicate ObjectAnswers(db: Db, fs: Fs, record: StoredObject, token: string, n: nat, prepare: Outcome, answers: Answers,
                                tokens: set<Credential>, commit: Outcome, faults: CleanupFaults, db': Db, fs': Fs, status: Status) {
    var id := db.nextObjectId;
    if !ObjectAdmitted(db, record, token) then
      status == Requests.PrepareAnswer(db, record, token) && db' == db && fs' == fs
    else if prepare.status != Ok then status == prepare.status && fs' == fs
    else if !WriteSucceeds(fs, id, n, answers) then
      exists why :: WriteAnswers(fs, id, n, answers, why) && why.Error?
                    && if why.fatal || why.code == DataLoss then status == why && id in db'.preparing
                       else Cleaned(db', fs', id, faults, why, status)
    else if Credential(record.creator, token) !in tokens then Cleaned(db', fs', id, faults, Reject(Unauthenticated), status)
    else if !Committable(record, id, token, tokens) then status == CORRUPTION && id in db'.preparing
    else status == commit.status && (commit.effect ==> id in db'.committed && id !in db'.preparing)
  }

  /** Nothing but the names of `id` looks different, and no other file changed. */
  ghost predicate OthersUnchanged(fs: Fs, fs': Fs, id: nat) {
    && (forall n: Name :: n.id != id ==> At(fs', n).now == At(fs, n).now)
    && (forall i: nat :: i in fs.files ==> i in fs'.files && fs'.files[i] == fs.files[i])
  }

  /** The final name leads, durably, to a synced file with exactly these bytes. */
  ghost predicate Stored(fs: Fs, id: nat, data: string) {
    && At(fs, Tmp(id)) == EMPTY
    && exists i: nat :: i in fs.files && fs.files[i] == File(id, data, true) && At(fs, Final(id)) == Slot(Some(i), {Some(i)})
  }

  lemma {:induction false} StoredHere(fs: Fs, id: nat, data: string, i: nat)
    requires At(fs, Tmp(id)) == EMPTY && i in fs.files && fs.files[i] == File(id, data, true)
    requires At(fs, Final(id)) == Slot(Some(i), {Some(i)})
    ensures Stored(fs, id, data)
  {
  }

  /** A stored object is still there after a power loss at any later moment that left it alone. */
  lemma {:induction false} StoredSurvives(fs: Fs, fs': Fs, id: nat, data: string)
    requires Stored(fs, id, data) && PowerLoss(fs, fs')
    ensures Stored(fs', id, data)
  {
    var i: nat :| i in fs.files && fs.files[i] == File(id, data, true) && At(fs, Final(id)) == Slot(Some(i), {Some(i)});
    assert At(fs', Final(id)).now == Some(i) && At(fs', Tmp(id)).now == None;
    StoredHere(fs', id, data, i);
  }

  /** Neither name of the object exists, now or after a power loss. */
  predicate Gone(fs: Fs, id: nat) {
    At(fs, Tmp(id)) == EMPTY && At(fs, Final(id)) == EMPTY
  }

  /** Records, names and files of other objects, the log and its tables are as they were. */
  ghost predicate LeavesOthers(db: Db, fs: Fs, db': Db, fs': Fs, id: nat) {
    && OthersUnchanged(fs, fs', id)
    && (forall x: nat :: x != id ==> (x in db'.preparing <==> x in db.preparing) && (x in db'.committed <==> x in db.committed))
    && (forall x: nat :: x != id && x in db.preparing ==> db'.preparing[x] == db.preparing[x])
    && (forall x: nat :: x != id && x in db.committed ==> db'.committed[x] == db.committed[x])
    && db' == db.(preparing := db'.preparing, committed := db'.committed, tokens := db'.tokens, nextObjectId := db'.nextObjectId)
    && db.nextObjectId <= db'.nextObjectId
  }

  /** The answers to the calls of one cleanup. */
  datatype CleanupFaults = CleanupFaults(unlinks: seq<Outcome>, sync: Outcome, drop: Outcome)

  predicate PossibleCleanup(f: CleanupFaults) {
    Possible(f.sync) && Possible(f.drop) && forall i :: 0 <= i < |f.unlinks| ==> Possible(f.unlinks[i])
  }

  /** Giving up: once the calls allow it, files and record are gone and the answer is the reason for giving up. */
  ghost predicate Cleaned(db: Db, fs: Fs, id: nat, faults: CleanupFaults, why: Status, status: Status) {
    && (FilesGo(faults.unlinks, faults.sync, 1) ==> Gone(fs, id))
    && (FilesGo(faults.unlinks, faults.sync, 1) && faults.drop.status == Ok ==> id !in db.preparing && status == why)
    && (why != Ok ==> status != Ok)
  }

  /** The volatile state while the temporary file is being written. */
  ghost predicate InTemp(was: Fs, fs: Fs, id: nat, inode: nat, data: string) {
    && OthersUnchanged(was, fs, id) && inode !in was.files
    && At(fs, Tmp(id)).now == Some(inode) && At(fs, Final(id)) == At(was, Final(id))
    && inode in fs.files && fs.files[inode].owner == id && fs.files[inode].data == data
  }

  lemma {:induction false} CreatedTemp(was: Fs, id: nat, inode: nat)
    requires inode !in was.files
    ensures InTemp(was, CreateTemp(was, id, inode), id, inode, "")
  {
  }

  lemma {:induction false} AppendedTemp(was: Fs, fs: Fs, id: nat, inode: nat, data: string, chunk: string)
    requires InTemp(was, fs, id, inode, data)
    ensures InTemp(was, Append(fs, inode, chunk), id, inode, data + chunk)
  {
  }

  lemma {:induction false} SyncedTemp(was: Fs, fs: Fs, id: nat, inode: nat, data: string)
    requires InTemp(was, fs, id, inode, data)
    ensures InTemp(was, SyncFile(fs, inode), id, inode, data) && SyncFile(fs, inode).files[inode].synced
  {
  }

  lemma {:induction false} RenamedTemp(was: Fs, fs: Fs, id: nat, inode: nat, data: string)
    requires InTemp(was, fs, id, inode, data) && fs.files[inode].synced
    ensures var fs' := RenameFinal(fs, id);
            && OthersUnchanged(was, fs', id) && OthersUnchanged(was, SyncDirectory(fs'), id)
            && Stored(SyncDirectory(fs'), id, data)
  {
    var fs' := RenameFinal(fs, id);
    assert At(fs', Final(id)).now == Some(inode) && At(fs', Tmp(id)).now == None;
    assert Tmp(id) in fs'.slots && Final(id) in fs'.slots;
    StoredHere(SyncDirectory(fs'), id, data, inode);
  }

  // ---------------------------------------------------------------- reads

  /** The bytes a read at `offset` of at most `nbytes` is for. */
  function Slice(data: string, offset: nat, nbytes: nat): (r: string)
    requires offset <= |data|
    ensures |r| == Min(nbytes, |data| - offset)
  {
    data[offset..offset + Min(nbytes, |data| - offset)]
  }

  /** The file a committed object is read from. */
  function CommittedFile(fs: Fs, id: nat): Option<File> {
    var entry := At(fs, Final(id)).now;
    if entry.Some? && entry.value in fs.files then Some(fs.files[entry.value]) else None
  }

  /** How a read is refused before a byte is moved. */
  function ReadRefusal(fs: Fs, id: nat, size: nat, offset: nat, nbytes: nat): Status {
    if id == 0 || size == 0 || size > MAX_OBJECT_BYTES then CORRUPTION
    else if nbytes == 0 then Reject(InvalidArgument)
    else if offset > size then Reject(OutOfRange)
    else if CommittedFile(fs, id).None? || |CommittedFile(fs, id).value.data| != size then CORRUPTION
    else Ok
  }

  /** Reads that each start where the one before ended. */
  ghost predicate Successive(data: string, lengths: seq<nat>, chunks: seq<string>)
    decreases |chunks|
  {
    && |lengths| == |chunks|
    && (|chunks| > 0 ==>
          var n := |chunks| - 1;
          && Successive(data, lengths[..n], chunks[..n]) && lengths[n] > 0
          && |Joined(chunks[..n])| <= |data|
          && chunks[n] == Slice(data, |Joined(chunks[..n])|, lengths[n]))
  }

  function Joined(chunks: seq<string>): string {
    if |chunks| == 0 then "" else Joined(chunks[..|chunks| - 1]) + chunks[|chunks| - 1]
  }

  /** Positive-length reads rebuild the object, and a read is empty exactly at its end. */
  lemma {:induction false} ReadsRebuildObject(data: string, lengths: seq<nat>, chunks: seq<string>)
    requires Successive(data, lengths, chunks)
    ensures |Joined(chunks)| <= |data| && Joined(chunks) == data[..|Joined(chunks)|]
    ensures |chunks| > 0 && chunks[|chunks| - 1] == "" ==> Joined(chunks) == data
    ensures |chunks| > 0 && chunks[|chunks| - 1] != "" ==> |Joined(chunks)| >= |chunks|
    decreases |chunks|
  {
    if |chunks| > 0 {
      var n := |chunks| - 1;
      ReadsRebuildObject(data, lengths[..n], chunks[..n]);
      var before := |Joined(chunks[..n])|;
      assert data[..before] + chunks[n] == data[..before + |chunks[n]|];
      assert n > 0 ==> chunks[..n][n - 1] == chunks[n - 1];
    }
  }

  // ---------------------------------------------------------------- the store

  lemma {:induction false} TempExists(was: Fs, fs: Fs, id: nat, inode: nat, data: string)
    requires InTemp(was, fs, id, inode, data)
    ensures inode in fs.files && OthersUnchanged(was, fs, id) && At(fs, Final(id)) == At(was, Final(id))
  {
  }

  lemma {:induction false} NoneLeft(m: map<nat, StoredObject>, ids: seq<nat>)
    requires ids == [] && forall id :: id in ids <==> id in m
    ensures m == map[]
  {
  }

  /** Deleting every listed record leaves none. */
  lemma {:induction false} DeletesAll(db: Db, ids: seq<nat>)
    requires forall id :: id in ids <==> id in db.preparing
    ensures Apply(db, Deletes(ids)) == db.(preparing := map[])
  {
    hide Apply;
    ApplyDeletes(db, ids);
    assert Apply(db, Deletes(ids)).preparing == map[];
  }

  /** What the final commit decides about the record this call prepared. */
  lemma {:induction false} CommitDecision(db: Db, record: StoredObject, token: string, tokens: set<Credential>)
    requires DecidePrepare(db, record, token).Commit?
    ensures var id := db.nextObjectId;
            var pending := record.(id := id);
            var d := DecideCommit(db.(preparing := db.preparing[id := pending], nextObjectId := id + 1, tokens := tokens), pending, token);
            if Credential(record.creator, token) !in tokens then d == Rejected(Reject(Unauthenticated))
            else if Committable(record, id, token, tokens) then d.Commit?
            else d == Rejected(CORRUPTION)
  {
    hide ValidObject;
  }

  lemma {:induction false} LeavesItself(db: Db, fs: Fs, id: nat)
    ensures LeavesOthers(db, fs, db, fs, id)
  {
  }

  lemma {:induction false} PrepareLeaves(db: Db, fs: Fs, pending: StoredObject)
    requires pending.id == db.nextObjectId
    ensures LeavesOthers(db, fs, db.(preparing := db.preparing[pending.id := pending], nextObjectId := pending.id + 1), fs, pending.id)
  {
  }

  lemma {:induction false} FilesLeave(db: Db, db': Db, fs: Fs, fs': Fs, id: nat)
    requires LeavesOthers(db, fs, db', fs, id) && OthersUnchanged(fs, fs', id)
    ensures LeavesOthers(db, fs, db', fs', id)
  {
  }

  lemma {:induction false} LeavesBoth(db: Db, fs: Fs, db1: Db, fs1: Fs, db2: Db, fs2: Fs, id: nat)
    requires LeavesOthers(db, fs, db1, fs1, id) && LeavesOthers(db1, fs1, db2, fs2, id)
    ensures LeavesOthers(db, fs, db2, fs2, id)
  {
  }

  /** The durable metadata and the object directory. */
  class ObjectStorage {
    var db: Db
    var fs: Fs

    constructor (timestamp: nat)
      ensures db == InitialDb(timestamp) && fs == Fs(map[], map[])
    {
      db, fs := InitialDb(timestamp), Fs(map[], map[]);
    }

    /**
     The write loop: it succeeds if and only if the calls move all of the data before
     anything goes wrong, however short the writes and however many the interrupts,
     and then the file holds exactly the data.  Answers that run out stand for an error.
     */
    method WriteLoop(id: nat, inode: nat, data: string, writes: seq<Transfer>, ghost was: Fs) returns (status: Status)
      requires InTemp(was, fs, id, inode, "")
      requires forall i :: 0 <= i < |writes| ==> writes[i] != Broken(Ok)
      modifies this`fs
      ensures exists k: nat :: k <= |data| && InTemp(was, fs, id, inode, data[..k])
      ensures status == Ok ==> InTemp(was, fs, id, inode, data)
      ensures status == Ok <==> Enough(writes, |data|)
      ensures status != Ok ==> FaultOf(writes, Reject(Unavailable), status)
    {
      hide InTemp;
      var written: nat, call := 0, 0;
      assert data[..0] == "";
      while written < |data|
        invariant 0 <= call <= |writes| && written <= |data|
        invariant NoError(writes[..call]) && written == Min(MovedIn(writes[..call]), |data|)
        invariant InTemp(was, fs, id, inode, data[..written])
        decreases |writes| - call
      {
        if call == |writes| {
          Stuck(writes, call, |data|);
          return Reject(Unavailable);
        }
        MovedNext(writes, call);
        var answer := writes[call];
        call := call + 1;
        match answer {
          case Interrupted =>
          case Broken(why) =>
            Stuck(writes, call - 1, |data|);
            return why;
          case Moved(count) =>
            if count == 0 {
              Stuck(writes, call - 1, |data|);
              return Reject(Unavailable);
            }
            var n := Min(count, |data| - written);
            TempExists(was, fs, id, inode, data[..written]);
            AppendedTemp(was, fs, id, inode, data[..written], data[written..written + n]);
            assert data[..written] + data[written..written + n] == data[..written + n];
            fs := Append(fs, inode, data[written..written + n]);
            written := written + n;
        }
      }
      assert data[..|data|] == data;
      assert EnoughAt(writes, call, |data|);
      return Ok;
    }

    /** `Write`: it succeeds exactly when no call fails, and then the object is stored; other objects are left alone. */
    method WriteFile(id: nat, data: string, answers: Answers) returns (status: Status)
      requires PossibleAnswers(fs, answers)
      modifies this`fs
      ensures status == Ok ==> Stored(fs, id, data)
      ensures status == Ok <==> WriteSucceeds(old(fs), id, |data|, answers)
      ensures WriteAnswers(old(fs), id, |data|, answers, status)
      ensures OthersUnchanged(old(fs), fs, id)
      ensures At(old(fs), Tmp(id)).now.Some? ==> status == CORRUPTION && fs == old(fs)
      ensures At(old(fs), Final(id)).now.Some? ==> status != Ok && At(fs, Final(id)) == At(old(fs), Final(id))
    {
      hide InTemp;
      hide Stored;
      if At(fs, Tmp(id)).now.Some? {
        return CORRUPTION;
      }
      CreatedTemp(fs, id, answers.inode);
      TempExists(fs, CreateTemp(fs, id, answers.inode), id, answers.inode, "");
      if answers.create.effect {
        fs := CreateTemp(fs, id, answers.inode);
      }
      if answers.create.status != Ok {
        return answers.create.status;
      }
      status := WriteLoop(id, answers.inode, data, answers.writes, old(fs));
      ghost var k: nat :| k <= |data| && InTemp(old(fs), fs, id, answers.inode, data[..k]);
      TempExists(old(fs), fs, id, answers.inode, data[..k]);
      if status != Ok {
        return;
      }
      SyncedTemp(old(fs), fs, id, answers.inode, data);
      if answers.sync.effect {
        fs := SyncFile(fs, answers.inode);
      }
      TempExists(old(fs), fs, id, answers.inode, data);
      if answers.sync.status != Ok {
        return answers.sync.status;
      }
      if At(fs, Final(id)).now.Some? {
        return CORRUPTION;
      }
      RenamedTemp(old(fs), fs, id, answers.inode, data);
      if answers.rename.effect {
        fs := RenameFinal(fs, id);
      }
      if answers.rename.status != Ok {
        return answers.rename.status;
      }
      if answers.syncDir.effect {
        fs := SyncDirectory(fs);
      }
      return answers.syncDir.status;
    }

    /** Both names of these objects are gone from view. */
    ghost predicate Unlinked(ids: seq<nat>, n: nat)
      requires n <= |ids|
      reads this`fs
    {
      forall k :: 0 <= k < n ==> At(fs, Tmp(ids[k])).now == None && At(fs, Final(ids[k])).now == None
    }

    /**
     `Cleanup`: unlink both names of every object, then sync the directory once.  On
     success the names are durably gone; no other name and no file content changes.
     */
    method Cleanup(ids: seq<nat>, unlinks: seq<Outcome>, sync: Outcome) returns (status: Status)
      requires Possible(sync) && forall i :: 0 <= i < |unlinks| ==> Possible(unlinks[i])
      modifies this`fs
      ensures status == Ok ==> forall k :: 0 <= k < |ids| ==> At(fs, Tmp(ids[k])) == EMPTY && At(fs, Final(ids[k])) == EMPTY
      ensures forall n: Name :: n.id !in ids ==> At(fs, n).now == At(old(fs), n).now && At(fs, n).may <= At(old(fs), n).may + {At(old(fs), n).now}
      ensures fs.files == old(fs).files
      ensures ids == [] ==> fs == old(fs)
      ensures FirstFailure(unlinks, sync, |ids|, status) && (status == Ok <==> FilesGo(unlinks, sync, |ids|))
    {
      var i := 0;
      while i < |ids|
        invariant 0 <= i <= |ids|
        invariant forall k :: 0 <= k < 2 * i ==> AnswerTo(unlinks, k).status == Ok
        invariant forall k :: 0 <= k < i ==> Tmp(ids[k]) in fs.slots && Final(ids[k]) in fs.slots
        invariant Unlinked(ids, i)
        invariant forall n: Name :: n.id !in ids ==> At(fs, n) == At(old(fs), n)
        invariant fs.files == old(fs).files && (i == 0 ==> fs == old(fs))
      {
        if AnswerTo(unlinks, 2 * i).effect {
          fs := Unlink(fs, Tmp(ids[i]));
        }
        if AnswerTo(unlinks, 2 * i).status != Ok {
          return AnswerTo(unlinks, 2 * i).status;
        }
        if AnswerTo(unlinks, 2 * i + 1).effect {
          fs := Unlink(fs, Final(ids[i]));
        }
        if AnswerTo(unlinks, 2 * i + 1).status != Ok {
          return AnswerTo(unlinks, 2 * i + 1).status;
        }
        i := i + 1;
      }
      if |ids| == 0 {
        return Ok;
      }
      if sync.effect {
        fs := SyncDirectory(fs);
      }
      return sync.status;
    }

    /**
     `ReadRange`: it succeeds if and only if the read is not refused and the calls move
     enough before anything goes wrong, however short the reads and however many the
     interrupts, and then the answer is exactly the requested slice, clipped at the end.
     */
    method ReadRange(id: nat, size: U64, offset: U64, nbytes: U64, transfers: seq<Transfer>) returns (r: Result<string>)
      requires forall i :: 0 <= i < |transfers| ==> transfers[i] != Broken(Ok)
      ensures r.Failure? ==> r.status != Ok
      ensures ReadRefusal(fs, id, size, offset, nbytes) != Ok ==> r == Failure(ReadRefusal(fs, id, size, offset, nbytes))
      ensures r.Success? ==> r.value == Slice(CommittedFile(fs, id).value.data, offset, nbytes)
      ensures r.Success? <==>
                ReadRefusal(fs, id, size, offset, nbytes) == Ok && Enough(transfers, Min(nbytes, size - offset))
      ensures r.Failure? && ReadRefusal(fs, id, size, offset, nbytes) == Ok ==> FaultOf(transfers, CORRUPTION, r.status)
    {
      if id == 0 || size == 0 || size > MAX_OBJECT_BYTES {
        return Failure(CORRUPTION);
      }
      if nbytes == 0 {
        return Failure(Reject(InvalidArgument));
      }
      if offset > size {
        return Failure(Reject(OutOfRange));
      }
      var entry := At(fs, Final(id)).now;
      if entry.None? || entry.value !in fs.files {
        return Failure(CORRUPTION);
      }
      var file := fs.files[entry.value];
      if |file.data| != size {
        return Failure(CORRUPTION);
      }
      var count := Min(nbytes, size - offset);
      var data, call := "", 0;
      while |data| < count
        invariant 0 <= call <= |transfers| && |data| <= count
        invariant offset + |data| <= size <= MAX_OBJECT_BYTES
        invariant data == file.data[offset..offset + |data|]
        invariant NoError(transfers[..call]) && |data| == Min(MovedIn(transfers[..call]), count)
        decreases |transfers| - call
      {
        if call == |transfers| {
          Stuck(transfers, call, count);
          return Failure(Reject(Unavailable));
        }
        MovedNext(transfers, call);
        var answer := transfers[call];
        call := call + 1;
        match answer {
          case Interrupted =>
          case Broken(why) =>
            Stuck(transfers, call - 1, count);
            return Failure(why);
          case Moved(n) =>
            if n == 0 {
              Stuck(transfers, call - 1, count);
              return Failure(CORRUPTION);
            }
            var got := Min(n, count - |data|);
            var at := offset + |data|;
            assert file.data[offset..at] + file.data[at..at + got] == file.data[offset..at + got];
            data := data + file.data[at..at + got];
        }
      }
      assert EnoughAt(transfers, call, count);
      return Success(data);
    }

    /** `CleanupPreparingObject`: first the files, then the record. */
    method CleanupPreparingObject(id: nat, result: Status, faults: CleanupFaults) returns (status: Status)
      requires PossibleCleanup(faults)
      modifies this
      ensures LeavesOthers(old(db), old(fs), db, fs, id) && db.committed == old(db).committed
      ensures id !in db.preparing && id in old(db).preparing ==> Gone(fs, id)
      ensures if FilesGo(faults.unlinks, faults.sync, 1) then
                && Gone(fs, id) && (faults.drop.effect ==> id !in db.preparing)
                && status == if faults.drop.status == Ok then result else faults.drop.status
              else db == old(db) && FirstFailure(faults.unlinks, faults.sync, 1, status)
    {
      hide Apply;
      status := Cleanup([id], faults.unlinks, faults.sync);
      assert forall n: Name :: n.id != id ==> n.id !in [id];
      if status != Ok {
        return;
      }
      assert Gone(fs, id) by {
        assert [id][0] == id;
      }
      ApplyDeletes(db, [id]);
      if faults.drop.effect {
        db := Apply(db, Deletes([id]));
      }
      status := if faults.drop.status == Ok then result else faults.drop.status;
    }

    /**
     The end of `WriteObject`: the credential is checked again, then the record is
     committed or everything is cleaned up; after an attempted commit nothing is.
     */
    method FinishObject(pending: StoredObject, token: string, data: string, tokens: set<Credential>, commit: Outcome,
                        faults: CleanupFaults)
      returns (status: Status)
      requires Possible(commit) && PossibleCleanup(faults) && Stored(fs, pending.id, data)
      requires pending.id in db.preparing
      modifies this
      ensures LeavesOthers(old(db), old(fs), db, fs, pending.id)
      ensures status == Ok ==> pending.id in db.committed && pending.id !in db.preparing
      ensures pending.id in db.committed && (status == Ok || pending.id !in old(db).committed) ==>
                db.committed[pending.id] == pending && Stored(fs, pending.id, data)
      ensures pending.id in old(db).committed ==>
                pending.id in db.committed && db.committed[pending.id] in {old(db).committed[pending.id], pending}
      ensures pending.id !in db.committed && pending.id !in db.preparing ==> Gone(fs, pending.id)
      ensures var d := DecideCommit(old(db).(tokens := tokens), pending, token);
              if d.Commit? then
                && status == commit.status && fs == old(fs)
                && (commit.effect ==> pending.id in db.committed && pending.id !in db.preparing)
                && db == if commit.effect then Apply(old(db).(tokens := tokens), d.batch) else old(db).(tokens := tokens)
              else if d == Rejected(CORRUPTION) then status == CORRUPTION && fs == old(fs) && db == old(db).(tokens := tokens)
              else Cleaned(db, fs, pending.id, faults, d.status, status)
    {
      hide Apply;
      hide Stored;
      hide ValidObject;
      hide Gone;
      db := db.(tokens := tokens);
      var decision := DecideCommit(db, pending, token);
      if decision.Rejected? {
        status := decision.status;
        if status != CORRUPTION {
          status := CleanupPreparingObject(pending.id, status, faults);
        }
        return;
      }
      ApplyTwo(db, DeletePreparing(pending.id), PutCommitted(pending));
      if commit.effect {
        db := Apply(db, decision.batch);
      }
      status := commit.status;
    }

    /**
     `WriteObject`, as one call sees it.  `tokens` are the credentials that are left
     when it comes to the final commit.  Success means the record is committed and the
     bytes are stored; however it fails, a record it committed has its bytes stored and
     is never cleaned up, files without a record do not stay behind, other objects are
     left alone, and files that should not exist yet are never replaced.
     */
    method WriteObject(record: StoredObject, token: string, data: string, prepare: Outcome, answers: Answers,
                       tokens: set<Credential>, commit: Outcome, faults: CleanupFaults)
      returns (status: Status, id: nat)
      requires record.size == |data| && PossibleAnswers(fs, answers) && Possible(prepare) && Possible(commit)
      requires PossibleCleanup(faults)
      modifies this
      ensures id == old(db).nextObjectId && LeavesOthers(old(db), old(fs), db, fs, id)
      ensures status == Ok ==> id in db.committed && id !in db.preparing
      ensures id in db.committed && (status == Ok || id !in old(db).committed) ==>
                db.committed[id] == record.(id := id) && Stored(fs, id, data)
      ensures id in old(db).committed ==> id in db.committed && db.committed[id] in {old(db).committed[id], record.(id := id)}
      ensures Gone(old(fs), id) && id !in db.committed && id !in db.preparing ==> Gone(fs, id)
      ensures At(old(fs), Tmp(id)).now.Some? && ObjectAdmitted(old(db), record, token) && prepare.status == Ok ==>
                status == CORRUPTION && fs == old(fs)
      ensures At(old(fs), Final(id)).now.Some? ==> status != Ok
      ensures status == Ok <==> ObjectSucceeds(old(db), old(fs), record, token, |data|, prepare, answers, tokens, commit)
      ensures ObjectAnswers(old(db), old(fs), record, token, |data|, prepare, answers, tokens, commit, faults, db, fs, status)
    {
      hide Apply;
      hide Stored;
      hide ValidObject;
      hide LeavesOthers;
      hide OthersUnchanged;
      id := db.nextObjectId;
      LeavesItself(db, fs, id);
      AdmittedIff(db, record, token);
      var prepared := DecidePrepare(db, record, token);
      if prepared.Rejected? {
        return prepared.status, id;
      }
      var pending := record.(id := id);
      ApplyTwo(db, PutPreparing(pending), SetNextObjectId(id + 1));
      PrepareLeaves(db, fs, pending);
      if prepare.effect {
        db := Apply(db, prepared.batch);
      }
      if prepare.status != Ok {
        return prepare.status, id;
      }
      ghost var mid := db;
      status := WriteFile(id, data, answers);
      FilesLeave(old(db), db, old(fs), fs, id);
      ghost var written := fs;
      if status != Ok {
        if !status.fatal && status.code != DataLoss {
          status := CleanupPreparingObject(id, status, faults);
          LeavesBoth(old(db), old(fs), mid, written, db, fs, id);
        }
        return;
      }
      CommitDecision(old(db), record, token, tokens);
      status := FinishObject(pending, token, data, tokens, commit, faults);
      LeavesBoth(old(db), old(fs), mid, written, db, fs, id);
    }

    /** The identifiers of the metadata left in PREPARING. */
    method ListPreparing() returns (ids: seq<nat>)
      ensures Distinct(ids) && forall id :: id in ids <==> id in db.preparing
    {
      ids := [];
      var left := db.preparing.Keys;
      while left != {}
        invariant left <= db.preparing.Keys && Distinct(ids)
        invariant forall id :: id in ids <==> id in db.preparing && id !in left
        decreases |left|
      {
        var id :| id in left;
        left := left - {id};
        ids := ids + [id];
      }
    }

    /** Some leftover is damaged or also committed. */
    ghost predicate Conflict()
      reads this`db
    {
      exists id: nat :: id in db.preparing && (!ValidObject(db.preparing[id], id) || id in db.committed)
    }

    /**
     `RecoverPreparingObjects`: on success no PREPARING record and none of its files
     is left; in every case committed records, all counters, all other names and all
     file contents are as before; running it again changes nothing.
     */
    method RecoverPreparingObjects(unlinks: seq<Outcome>, sync: Outcome, commit: Outcome) returns (status: Status)
      requires Possible(sync) && Possible(commit)
      requires forall i :: 0 <= i < |unlinks| ==> Possible(unlinks[i])
      modifies this
      ensures old(Conflict()) ==> status == CORRUPTION && db == old(db) && fs == old(fs)
      ensures db == old(db) || (!old(Conflict()) && db == old(db).(preparing := map[]))
      ensures status == Ok ==> db == old(db).(preparing := map[])
      ensures status == Ok || db != old(db) ==> forall id :: id in old(db).preparing ==> At(fs, Tmp(id)) == EMPTY && At(fs, Final(id)) == EMPTY
      ensures forall n: Name :: n.id !in old(db).preparing ==>
                At(fs, n).now == At(old(fs), n).now && At(fs, n).may <= At(old(fs), n).may + {At(old(fs), n).now}
      ensures fs.files == old(fs).files
      ensures old(db).preparing == map[] ==> db == old(db) && fs == old(fs)
      ensures status == Ok <==>
                && !old(Conflict())
                && (old(db).preparing == map[] || (FilesGo(unlinks, sync, |old(db).preparing|) && commit.status == Ok))
      ensures !old(Conflict()) && old(db).preparing != map[] ==>
                if FilesGo(unlinks, sync, |old(db).preparing|) then
                  status == commit.status && (commit.effect ==> db.preparing == map[])
                else db == old(db) && FirstFailure(unlinks, sync, |old(db).preparing|, status)
    {
      hide ValidObject;
      var ids := ListPreparing();
      if |ids| == 0 {
        NoneLeft(db.preparing, ids);
        return Ok;
      }
      assert ids[0] in ids;
      DistinctCount(ids, db.preparing.Keys);
      var i := 0;
      while i < |ids|
        invariant 0 <= i <= |ids|
        invariant forall k :: 0 <= k < i ==> ValidObject(db.preparing[ids[k]], ids[k]) && ids[k] !in db.committed
      {
        if !ValidObject(db.preparing[ids[i]], ids[i]) || ids[i] in db.committed {
          assert ids[i] in ids;
          return CORRUPTION;
        }
        i := i + 1;
      }
      assert !Conflict();
      status := Cleanup(ids, unlinks, sync);
      if status != Ok {
        return;
      }
      DeletesAll(db, ids);
      if commit.effect {
        db := Apply(db, Deletes(ids));
      }
      status := commit.status;
    }
  }
}
