/** What holds over whole runs of the server, from the initial state on. */
module LogRuns {
  import opened Types
  import opened Records
  import opened ChannelEvents
  import opened Store
  import opened Log
  import opened LogInvariants

  /** A finite history: `states[i + 1]` results from `ops[i]`. */
  datatype Run = Run(states: seq<Db>, ops: seq<Op>)

  ghost predicate IsRun(maxPayload: nat, run: Run) {
    && |run.states| == |run.ops| + 1
    && (exists timestamp: nat :: run.states[0] == InitialDb(timestamp))
    && (forall i :: 0 <= i < |run.ops| ==> Next(maxPayload, run.states[i], run.ops[i], run.states[i + 1]))
  }

  /** Every state of every run satisfies all the invariants. */
  lemma {:induction false} RunInv(maxPayload: nat, run: Run, i: nat)
    requires IsRun(maxPayload, run) && i < |run.states|
    ensures Inv(run.states[i])
  {
    hide Inv;
    hide Next;
    hide InitialDb;
    if i == 0 {
      var timestamp: nat :| run.states[0] == InitialDb(timestamp);
      InitialInv(timestamp);
    } else {
      RunInv(maxPayload, run, i - 1);
      NextInv(maxPayload, run.states[i - 1], run.ops[i - 1], run.states[i]);
    }
  }

  // ---------------------------------------------------------------- growth

  /** Only the member list of a channel ever changes. */
  predicate SameButMembers(c: Channel, d: Channel) {
    d == c.(members := d.members)
  }

  /** Nothing recorded in `a` is lost or altered in `b`, and no counter runs back. */
  ghost predicate Extends(a: Db, b: Db) {
    && a.maxSeq <= b.maxSeq && a.nextUuid <= b.nextUuid
    && a.nextChannelId <= b.nextChannelId && a.nextObjectId <= b.nextObjectId
    && (forall s: nat :: s in a.messages ==> s in b.messages && b.messages[s] == a.messages[s])
    && (forall u: nat :: u in a.usedUuids ==> u in b.usedUuids && b.usedUuids[u] == a.usedUuids[u])
    && (forall c: nat :: c in a.channels ==> c in b.channels && SameButMembers(a.channels[c], b.channels[c]))
    && (forall id: nat :: id in a.committed ==> id in b.committed && b.committed[id] == a.committed[id])
  }

  lemma {:induction false} ExtendsReflexive(a: Db)
    ensures Extends(a, a)
  {
  }

  lemma {:induction false} ExtendsTransitive(a: Db, b: Db, c: Db)
    requires Extends(a, b) && Extends(b, c)
    ensures Extends(a, c)
  {
  }

  lemma {:induction false} PublishExtends(db: Db, maxPayload: nat, r: PublishRequest)
    requires Inv(db) && DecidePublish(db, maxPayload, r).Commit?
    ensures Extends(db, Apply(db, DecidePublish(db, maxPayload, r).batch))
    ensures Apply(db, DecidePublish(db, maxPayload, r).batch).nextUuid == db.nextUuid
  {
    hide ChannelTable;
    hide EventSourced;
    hide AllJustified;
    hide Readable;
    hide ObjectIds;
    hide KeysOpen;
    hide CheckPublish;
    hide CheckChannelWrite;
    hide CheckObjectKeys;
    hide Apply;
    PublishUuid(db, maxPayload, r);
    ApplyPublish(db, r);
  }

  /** The newest log entry carries this UUID. */
  predicate EndsWith(db: Db, uuid: nat) {
    db.maxSeq in db.messages && db.messages[db.maxSeq].uuid == uuid
  }

  lemma {:induction false} ChangeExtends(db: Db, c: Channel, payload: string, timestamp: nat)
    requires Inv(db) && (c.id in db.channels ==> SameButMembers(db.channels[c.id], c))
    ensures var db' := Apply(db, ChannelMutationBatch(db, c, payload, timestamp));
            Extends(db, db') && db'.nextUuid == db.nextUuid + 1 && db'.nextChannelId == db.nextChannelId
  {
    hide ChannelTable;
    hide EventSourced;
    hide AllJustified;
    hide Readable;
    hide ObjectIds;
    hide KeysOpen;
    hide Apply;
    ApplyChannelMutation(db, c, payload, timestamp);
  }

  lemma {:induction false} CreateExtends(db: Db, r: ChannelRequest, timestamp: nat)
    requires Inv(db) && DecideCreate(db, r, timestamp).Commit?
    ensures var db' := Apply(db, DecideCreate(db, r, timestamp).batch);
            Extends(db, db') && db'.nextUuid == db.nextUuid + 1 && EndsWith(db', db.nextUuid)
  {
    hide Inv;
    hide Apply;
    hide ChannelMutationBatch;
    var c := NewChannel(db, r);
    ReplayOfTable(db, c.id);
    var b := ChannelMutationBatch(db, c, InitializedText(c), timestamp);
    ChangeExtends(db, c, InitializedText(c), timestamp);
    ChangeAppends(db, c, InitializedText(c), timestamp);
    ApplyConcat(db, b, [SetNextChannelId(db.nextChannelId + 1)]);
    ApplyTwo(Apply(db, b), SetNextChannelId(db.nextChannelId + 1), SetNextUuid(0));
  }

  lemma {:induction false} ChangeAppends(db: Db, c: Channel, payload: string, timestamp: nat)
    ensures var db' := Apply(db, ChannelMutationBatch(db, c, payload, timestamp));
            EndsWith(db', db.nextUuid)
  {
    hide Apply;
    ApplyChannelMutation(db, c, payload, timestamp);
  }

  lemma {:induction false} TablesExtend(db: Db, db': Db)
    requires LogUntouched(db, db') && db.nextObjectId <= db'.nextObjectId
    ensures Extends(db, db')
  {
  }

  lemma {:induction false} CommitExtends(db: Db, o: StoredObject, token: string)
    requires ObjectIds(db) && DecideCommit(db, o, token).Commit?
    ensures var db' := Apply(db, DecideCommit(db, o, token).batch);
            Extends(db, db') && db'.nextUuid == db.nextUuid
  {
    ApplyTwo(db, DeletePreparing(o.id), PutCommitted(o));
    TablesExtend(db, db.(preparing := db.preparing - {o.id}, committed := db.committed[o.id := o]));
  }

  lemma {:induction false} ObjectExtends(db: Db, maxPayload: nat, op: Op)
    requires Inv(db) && (op.PrepareObject? || op.CommitObject? || op.DropPreparing?)
    requires Decide(db, maxPayload, op).Commit?
    ensures var db' := Apply(db, Decide(db, maxPayload, op).batch);
            Extends(db, db') && db'.nextUuid == db.nextUuid
  {
    hide Justified;
    hide ValidStoredMessage;
    hide ValidObject;
    hide Replay;
    hide Apply;
    hide Extends;
    var db' := Apply(db, Decide(db, maxPayload, op).batch);
    match op
    case PrepareObject(o, _) =>
      ApplyTwo(db, PutPreparing(o.(id := db.nextObjectId)), SetNextObjectId(db.nextObjectId + 1));
      TablesExtend(db, db');
    case CommitObject(o, token) =>
      CommitExtends(db, o, token);
    case DropPreparing(ids) =>
      ApplyDeletes(db, ids);
      TablesExtend(db, db');
  }

  /** The UUIDs a step takes from the counter. */
  function UuidsTaken(op: Op): nat {
    match op
    case AllocateUuids(count) => count
    case CreateChannel(_, _) => 1
    case AddMember(_, _) => 1
    case RemoveMember(_, _) => 1
    case _ => 0
  }

  /** A step only adds, and takes its UUIDs from the front of the unallocated range. */
  lemma {:induction false} NextExtends(maxPayload: nat, db: Db, op: Op, db': Db)
    requires Inv(db) && Next(maxPayload, db, op, db')
    ensures Extends(db, db')
    ensures db' != db ==> db'.nextUuid == db.nextUuid + UuidsTaken(op)
    ensures db' != db && (op.CreateChannel? || op.AddMember? || op.RemoveMember?) ==> EndsWith(db', db.nextUuid)
  {
    hide Inv;
    hide Apply;
    hide ChannelMutationBatch;
    if db' != db {
      match op
      case Publish(r) => PublishExtends(db, maxPayload, r);
      case CreateChannel(r, ts) => CreateExtends(db, r, ts);
      case AddMember(r, ts) =>
        OwnedChannelStored(db, r);
        ReplayOfTable(db, r.channelId);
        var c := db.channels[r.channelId];
        var c' := c.(members := c.members + [r.target]);
        ChangeExtends(db, c', MemberText("system.member_added", r.target), ts);
        ChangeAppends(db, c', MemberText("system.member_added", r.target), ts);
      case RemoveMember(r, ts) =>
        OwnedChannelStored(db, r);
        ReplayOfTable(db, r.channelId);
        var c := db.channels[r.channelId];
        var c' := c.(members := EraseFirst(c.members, r.target));
        ChangeExtends(db, c', MemberText("system.member_removed", r.target), ts);
        ChangeAppends(db, c', MemberText("system.member_removed", r.target), ts);
      case AllocateUuids(count) => ApplyTwo(db, SetNextUuid(db.nextUuid + count), SetNextUuid(0));
      case AddToken(c) => ApplyTwo(db, PutToken(c), SetNextUuid(0));
      case DeleteToken(c) => ApplyTwo(db, Write.DeleteToken(c), SetNextUuid(0));
      case PrepareObject(_, _) => ObjectExtends(db, maxPayload, op);
      case CommitObject(_, _) => ObjectExtends(db, maxPayload, op);
      case DropPreparing(_) => ObjectExtends(db, maxPayload, op);
    }
  }

  /** Over any stretch of any run the log is append-only and nothing committed is lost. */
  lemma {:induction false} RunExtends(maxPayload: nat, run: Run, i: nat, j: nat)
    requires IsRun(maxPayload, run) && i <= j < |run.states|
    ensures Extends(run.states[i], run.states[j])
    decreases j
  {
    hide Inv;
    hide Next;
    hide InitialDb;
    hide Extends;
    ExtendsReflexive(run.states[i]);
    if i < j {
      RunExtends(maxPayload, run, i, j - 1);
      RunInv(maxPayload, run, j - 1);
      NextExtends(maxPayload, run.states[j - 1], run.ops[j - 1], run.states[j]);
      ExtendsTransitive(run.states[i], run.states[j - 1], run.states[j]);
    }
  }

  // ---------------------------------------------------------------- UUIDs

  /** In one log a UUID occurs at most once, and in every later log it is at the same place. */
  lemma {:induction false} UuidCommitsOnce(maxPayload: nat, run: Run, i: nat, j: nat, s: nat, t: nat)
    requires IsRun(maxPayload, run) && i <= j < |run.states|
    requires s in run.states[i].messages && t in run.states[j].messages
    requires run.states[i].messages[s].uuid == run.states[j].messages[t].uuid
    ensures s == t
  {
    RunExtends(maxPayload, run, i, j);
    RunInv(maxPayload, run, j);
    assert UuidIndex(run.states[j]);
  }

  /** The range step `i` took from the counter. */
  ghost predicate TakenBy(run: Run, i: nat, uuid: nat)
    requires i + 1 < |run.states|
  {
    run.states[i].nextUuid <= uuid < run.states[i + 1].nextUuid
  }

  /**
   Ranges handed to clients and UUIDs given to system events never meet: what one
   step takes, no other step takes.
   */
  lemma {:induction false} TakenRangesDisjoint(maxPayload: nat, run: Run, i: nat, j: nat, uuid: nat)
    requires IsRun(maxPayload, run) && i < j < |run.ops| && |run.ops| < |run.states|
    ensures !(TakenBy(run, i, uuid) && TakenBy(run, j, uuid))
  {
    hide IsRun;
    RunExtends(maxPayload, run, i + 1, j);
  }

  /** Which UUIDs a committed step takes: an allocation exactly its answer, a system event its own. */
  lemma {:induction false} TakenExactly(maxPayload: nat, run: Run, i: nat, uuid: nat)
    requires IsRun(maxPayload, run) && i < |run.ops| && run.states[i + 1] != run.states[i]
    ensures TakenBy(run, i, uuid) <==>
              run.states[i].nextUuid <= uuid < run.states[i].nextUuid + UuidsTaken(run.ops[i])
    ensures run.ops[i].CreateChannel? || run.ops[i].AddMember? || run.ops[i].RemoveMember? ==>
              (TakenBy(run, i, uuid) <==> EndsWith(run.states[i + 1], uuid))
  {
    hide Inv;
    hide Next;
    hide InitialDb;
    hide Extends;
    RunInv(maxPayload, run, i);
    NextExtends(maxPayload, run.states[i], run.ops[i], run.states[i + 1]);
  }

  // ---------------------------------------------------------------- channels

  lemma {:induction false} ReplayNeedsEntry(log: map<nat, Message>, n: nat, c: nat)
    requires forall s: nat :: s < n && s in log ==> log[s].channelId != c
    ensures Replay(log, n, c) == None
  {
    hide EventOf;
    if n > 0 {
      ReplayNeedsEntry(log, n - 1, c);
    }
  }

  /** The first log entry of a channel is its initialization event. */
  lemma {:induction false} FirstEntryInitializes(db: Db, s: nat)
    requires Inv(db) && s in db.messages && s > 0
    requires forall t: nat :: t < s ==> db.messages[t].channelId != db.messages[s].channelId
    ensures db.messages[s].principal == 0
    ensures EventOf(db.messages[s].payload).Some? && EventOf(db.messages[s].payload).value.Initialized?
  {
    hide EventOf;
    hide ValidStoredMessage;
    hide Replay;
    ReplayNeedsEntry(db.messages, s, db.messages[s].channelId);
    assert Justified(db.messages, s);
  }

  /** A channel in the table has an entry in the log. */
  lemma {:induction false} ChannelHasEntry(db: Db, c: nat) returns (s: nat)
    requires Inv(db) && c in db.channels
    ensures s in db.messages && s > 0 && db.messages[s].channelId == c
  {
    hide EventOf;
    hide ValidStoredMessage;
    hide Replay;
    hide Justified;
    assert Replay(db.messages, db.maxSeq + 1, c) == StoredChannel(db, c);
    if forall t: nat :: t < db.maxSeq + 1 && t in db.messages ==> db.messages[t].channelId != c {
      ReplayNeedsEntry(db.messages, db.maxSeq + 1, c);
      assert false;
    }
    s :| s in db.messages && db.messages[s].channelId == c;
    if s == 0 {
      MessageZero(db);
    }
  }

  lemma {:induction false} MessageZero(db: Db)
    requires Inv(db)
    ensures 0 in db.messages && ValidInitializationMessage(db.messages[0]) && db.messages[0].channelId == 0
    ensures 0 !in db.channels
  {
    hide Replay;
    hide Justified;
    assert ValidStoredMessage(db.messages[0]);
  }

  /** A business message was allowed by the channel as the log before it alone describes it. */
  lemma {:induction false} BusinessMessageAllowed(maxPayload: nat, run: Run, i: nat, s: nat)
    requires IsRun(maxPayload, run) && i < |run.states|
    requires s in run.states[i].messages && run.states[i].messages[s].principal != 0
    ensures var log := run.states[i].messages;
            var before := Replay(log, s, log[s].channelId);
            && before.Some? && CanWrite(before.value, log[s].principal)
            && forall k :: 0 <= k < |log[s].recipients| ==> log[s].recipients[k] in before.value.members
  {
    hide Replay;
    hide EventOf;
    RunInv(maxPayload, run, i);
    var db := run.states[i];
    if s == 0 {
      MessageZero(db);
    }
    assert Justified(db.messages, s);
  }

  /** Every field in range; the members distinct, nonzero, at most 1024, and the creator among them. */
  predicate ProperChannel(c: Channel, id: nat) {
    && c.id == id && 1 <= |c.name| <= 255 && |c.protocol| <= 255 && |c.description| <= 4096
    && (c.visibility.Public? || c.visibility.Protected? || c.visibility.Private?)
    && c.creator.Some? && c.creator.value in c.members && 0 !in c.members
    && |c.members| <= 1024 && forall i, j :: 0 <= i < j < |c.members| ==> c.members[i] != c.members[j]
  }

  lemma {:induction false} SoundIsProper(c: Channel, id: nat)
    requires ChannelSound(c, id)
    ensures ProperChannel(c, id)
  {
  }

  /** The stored record of every channel is the replay of its system events, in every reachable state. */
  lemma {:induction false} ChannelsAreReplays(maxPayload: nat, run: Run, i: nat, c: nat)
    requires IsRun(maxPayload, run) && i < |run.states|
    ensures var db := run.states[i];
            && (c in db.channels <==> 1 <= c < db.nextChannelId)
            && (c in db.channels <==> Replay(db.messages, db.maxSeq + 1, c).Some?)
            && (c in db.channels ==>
                  && Replay(db.messages, db.maxSeq + 1, c) == Some(db.channels[c])
                  && ProperChannel(db.channels[c], c))
  {
    hide IsRun;
    hide Inv;
    hide Replay;
    hide ChannelSound;
    RunInv(maxPayload, run, i);
    ReplayOfTable(run.states[i], c);
    if c in run.states[i].channels {
      SoundIsProper(run.states[i].channels[c], c);
    }
  }

  lemma {:induction false} ReplayOfTable(db: Db, c: nat)
    requires Inv(db)
    ensures c in db.channels <==> 1 <= c < db.nextChannelId
    ensures Replay(db.messages, db.maxSeq + 1, c) == StoredChannel(db, c)
    ensures c in db.channels ==> ChannelSound(db.channels[c], c)
  {
    hide Replay;
    hide ChannelSound;
    hide ValidStoredMessage;
    hide Justified;
  }

  /** The credential a request acts under. */
  function CredentialOf(op: Op): Option<Credential> {
    match op
    case Publish(r) => Some(r.credential)
    case CreateChannel(r, _) => Some(r.credential)
    case AddMember(r, _) => Some(r.credential)
    case RemoveMember(r, _) => Some(r.credential)
    case PrepareObject(o, token) => Some(Credential(o.creator, token))
    case CommitObject(o, token) => Some(Credential(o.creator, token))
    case _ => None
  }

  /** Nothing is committed for a principal whose token was not stored at that moment, and messages bear its name. */
  lemma {:induction false} CommitsAreAuthenticated(maxPayload: nat, run: Run, i: nat)
    requires IsRun(maxPayload, run) && i < |run.ops| && run.states[i + 1] != run.states[i]
    requires CredentialOf(run.ops[i]).Some?
    ensures var c := CredentialOf(run.ops[i]).value;
            c in run.states[i].tokens && c.principal != 0 && c.token != ""
    ensures var db := run.states[i + 1];
            run.ops[i].Publish? ==>
              EndsWith(db, run.ops[i].publish.uuid) && db.messages[db.maxSeq].principal == run.ops[i].publish.credential.principal
  {
    hide InitialDb;
    hide Apply;
    hide CheckChannelWrite;
    hide CheckObjectKeys;
    hide ChannelMutationBatch;
    hide LoadChannel;
    hide ValidObject;
    var db, op := run.states[i], run.ops[i];
    assert Next(maxPayload, db, op, run.states[i + 1]);
    if op.Publish? {
      ApplyPublish(db, op.publish);
    }
  }

  // ---------------------------------------------------------------- objects

  /** A key that reached the log opens its object in that state and in every later one. */
  lemma {:induction false} LoggedKeysStayOpen(maxPayload: nat, run: Run, i: nat, j: nat, s: nat, k: nat)
    requires IsRun(maxPayload, run) && i <= j < |run.states|
    requires s in run.states[i].messages && k < |run.states[i].messages[s].objectKeys|
    ensures KeyOpens(run.states[j], run.states[i].messages[s].objectKeys[k])
  {
    hide Replay;
    hide ValidStoredMessage;
    hide Justified;
    hide ValidObject;
    RunInv(maxPayload, run, i);
    RunExtends(maxPayload, run, i, j);
    assert KeyOpens(run.states[i], run.states[i].messages[s].objectKeys[k]);
  }

  // ---------------------------------------------------------------- no false alarms

  /** In a reachable state no read validator and no startup check reports DATA_LOSS. */
  lemma {:induction false} NothingIsCorrupt(maxPayload: nat, run: Run, i: nat)
    requires IsRun(maxPayload, run) && i < |run.states|
    ensures var db := run.states[i];
            && StartupValid(db)
            && (forall s: nat :: s in db.messages ==> ValidStoredMessage(db.messages[s]))
            && (forall c: nat :: LoadChannel(db, c).Success?)
            && (forall u: nat :: UsedUuidSeq(db, u).Success?)
            && (forall id: nat :: id in db.committed ==> ValidObject(db.committed[id], id))
            && (forall id: nat :: id in db.preparing ==> ValidObject(db.preparing[id], id))
  {
    hide Replay;
    hide Justified;
    hide ValidInitializationMessage;
    hide ValidStoredMessage;
    hide ValidObject;
    RunInv(maxPayload, run, i);
    var db := run.states[i];
    MessageZero(db);
    forall u: nat
      ensures UsedUuidSeq(db, u).Success?
    {
      UuidZero(db, u);
    }
    forall c: nat
      ensures LoadChannel(db, c).Success?
    {
      assert c in db.channels ==> ChannelSound(db.channels[c], c);
    }
  }

  lemma {:induction false} UuidZero(db: Db, u: nat)
    requires UuidIndex(db)
    ensures UsedUuidSeq(db, u).Success?
  {
  }

  /** No damage is visible to any request. */
  ghost predicate Undamaged(db: Db) {
    && (forall c: nat :: LoadChannel(db, c).Success?)
    && (forall u: nat :: UsedUuidSeq(db, u).Success?)
    && (forall id: nat :: id in db.committed ==> ValidObject(db.committed[id], id))
  }

  lemma {:induction false} PublishUndamaged(db: Db, maxPayload: nat, r: PublishRequest)
    requires Undamaged(db)
    ensures DecidePublish(db, maxPayload, r) != Rejected(CORRUPTION)
  {
    hide ValidObject;
    assert forall k :: 0 <= k < |r.objectKeys| ==> KeyReadable(db, r.objectKeys[k]);
    assert UsedUuidSeq(db, r.uuid).Success?;
    assert LoadChannel(db, r.channelId).Success?;
  }

  lemma {:induction false} OthersUndamaged(db: Db, maxPayload: nat, op: Op)
    requires Undamaged(db) && !op.Publish? && !op.CommitObject?
    ensures Decide(db, maxPayload, op) != Rejected(CORRUPTION)
  {
    hide ValidObject;
    if op.AddMember? || op.RemoveMember? {
      assert LoadChannel(db, op.change.channelId).Success?;
    }
  }

  /** The final commit of an object write finds its own record, unchanged. */
  predicate StillPrepared(db: Db, o: StoredObject) {
    o.id in db.preparing && db.preparing[o.id] == o
  }

  /**
   In a reachable state no request is refused with DATA_LOSS, but for the final commit
   of an object write under a valid credential whose record is not there as it was
   prepared, which is refused so exactly then.
   */
  lemma {:induction false} RequestsNeverSeeCorruption(maxPayload: nat, run: Run, i: nat, op: Op)
    requires IsRun(maxPayload, run) && i < |run.states|
    ensures var db := run.states[i];
            Decide(db, maxPayload, op) == Rejected(CORRUPTION) <==>
              && op.CommitObject? && !StillPrepared(db, op.record)
              && Authenticate(db, Credential(op.record.creator, op.token)) == Ok
  {
    hide IsRun;
    hide ValidStoredMessage;
    hide ValidObject;
    hide StartupValid;
    hide DecidePublish;
    NothingIsCorrupt(maxPayload, run, i);
    if op.Publish? {
      PublishUndamaged(run.states[i], maxPayload, op.publish);
    } else if !op.CommitObject? {
      OthersUndamaged(run.states[i], maxPayload, op);
    }
  }
}
