/**
 What holds of the log, the UUID index, the channel table and the object table in
 every state the server can reach.
 */
module LogInvariants {
  import opened Types
  import opened Records
  import opened ChannelEvents
  import opened Store
  import opened Tokens
  import opened Log

  // ---------------------------------------------------------------- replay

  /** The effect of one log entry on the record of channel `c`. */
  function ReplayOne(before: Option<Channel>, m: Message, c: nat): Option<Channel> {
    if m.principal != 0 || m.channelId != c || c == 0 then before
    else
      match EventOf(m.payload)
      case None => before
      case Some(e) =>
        if e.Initialized? then Some(ChannelOf(c, e))
        else if before.None? then before
        else if e.MemberAdded? then Some(before.value.(members := before.value.members + [e.member]))
        else if e.member in before.value.members
        then Some(before.value.(members := EraseFirst(before.value.members, e.member)))
        else before
  }

  /** The record of channel `c` that the first `n` log entries alone determine. */
  function Replay(log: map<nat, Message>, n: nat, c: nat): Option<Channel> {
    if n == 0 then None
    else
      var before := Replay(log, n - 1, c);
      if n - 1 in log then ReplayOne(before, log[n - 1], c) else before
  }

  ghost predicate AgreeBelow(a: map<nat, Message>, b: map<nat, Message>, n: nat) {
    forall s: nat :: s < n ==> (s in a <==> s in b) && (s in a ==> a[s] == b[s])
  }

  lemma {:induction false} ReplayAgrees(a: map<nat, Message>, b: map<nat, Message>, n: nat, c: nat)
    requires AgreeBelow(a, b, n)
    ensures Replay(a, n, c) == Replay(b, n, c)
  {
    if n > 0 {
      ReplayAgrees(a, b, n - 1, c);
    }
  }

  // ---------------------------------------------------------------- invariants

  /** The log has exactly the entries 0..maxSeq, each stored under its own number. */
  ghost predicate GapFree(db: Db) {
    && (forall s: nat :: s in db.messages <==> s <= db.maxSeq)
    && (forall s: nat :: s in db.messages ==> db.messages[s].sequence == s)
  }

  /** The UUID index is the inverse of the log's UUID column, below the allocation watermark. */
  ghost predicate UuidIndex(db: Db) {
    && db.nextUuid >= 1
    && (forall s: nat :: s in db.messages ==>
          db.messages[s].uuid in db.usedUuids && db.usedUuids[db.messages[s].uuid] == s)
    && (forall u: nat :: u in db.usedUuids ==>
          u < db.nextUuid && db.usedUuids[u] in db.messages && db.messages[db.usedUuids[u]].uuid == u)
    && (forall u: nat :: u in db.usedUuids ==> (u == 0 <==> db.usedUuids[u] == 0))
  }

  /** Distinct, nonzero, at most 1024 members, the creator among them, every field in range. */
  predicate ChannelSound(c: Channel, id: nat) {
    && c.id == id && ValidStoredChannel(c) && Distinct(c.members) && |c.members| <= MAX_CHANNEL_MEMBERS
  }

  ghost predicate ChannelTable(db: Db) {
    && db.nextChannelId >= 1
    && (forall c: nat :: c in db.channels <==> 1 <= c < db.nextChannelId)
    && (forall c: nat :: c in db.channels ==> ChannelSound(db.channels[c], c))
  }

  function StoredChannel(db: Db, c: nat): Option<Channel> {
    if c in db.channels then Some(db.channels[c]) else None
  }

  /** Each stored channel record is what replaying the log gives. */
  ghost predicate EventSourced(db: Db) {
    forall c: nat :: Replay(db.messages, db.maxSeq + 1, c) == StoredChannel(db, c)
  }

  /**
   Entry `s` is legitimate given only the entries before it: a business message
   comes from a principal that may write to a channel which exists there and goes
   to members of it; a system event creates a channel that did not exist or
   changes one that did.
   */
  predicate Justified(log: map<nat, Message>, s: nat)
    requires s in log
  {
    var m := log[s];
    var before := Replay(log, s, m.channelId);
    if s == 0 then true
    else if m.principal != 0 then
      && before.Some? && CanWrite(before.value, m.principal)
      && forall i :: 0 <= i < |m.recipients| ==> m.recipients[i] in before.value.members
    else
      var e := EventOf(m.payload);
      e.Some? && (e.value.Initialized? <==> before.None?)
  }

  ghost predicate AllJustified(db: Db) {
    forall s: nat :: s in db.messages ==> Justified(db.messages, s)
  }

  /** Everything stored passes the validators of the read path. */
  ghost predicate Readable(db: Db) {
    && (forall s: nat :: s in db.messages ==> ValidStoredMessage(db.messages[s]))
    && (forall id: nat :: id in db.preparing ==> ValidObject(db.preparing[id], id))
    && (forall id: nat :: id in db.committed ==> ValidObject(db.committed[id], id))
  }

  /** Object identifiers are below the counter and in one phase only. */
  ghost predicate ObjectIds(db: Db) {
    && db.nextObjectId >= 1
    && (forall id: nat :: id in db.preparing || id in db.committed ==> 1 <= id < db.nextObjectId)
    && (forall id: nat :: id in db.preparing ==> id !in db.committed)
  }

  /** Every object key in the log opens a committed object. */
  ghost predicate KeysOpen(db: Db) {
    forall s: nat :: s in db.messages ==>
      forall i :: 0 <= i < |db.messages[s].objectKeys| ==> KeyOpens(db, db.messages[s].objectKeys[i])
  }

  ghost predicate Inv(db: Db) {
    && GapFree(db) && UuidIndex(db) && ChannelTable(db) && EventSourced(db) && AllJustified(db)
    && Readable(db) && ObjectIds(db) && KeysOpen(db)
  }

  // ---------------------------------------------------------------- initial state

  lemma {:induction false} InitialMessageValid(timestamp: nat)
    ensures ValidStoredMessage(InitialDb(timestamp).messages[0])
  {
    hide ValidInitializationMessage;
    InitializationAccepted(InitialDb(timestamp).messages[0]);
  }

  lemma {:induction false} InitialInv(timestamp: nat)
    ensures Inv(InitialDb(timestamp))
  {
    hide ValidStoredMessage;
    hide EventOf;
    hide InitializationText;
    var db := InitialDb(timestamp);
    InitialMessageValid(timestamp);
    forall c: nat
      ensures Replay(db.messages, 1, c) == None
    {
      assert Replay(db.messages, 0, c) == None;
    }
  }

  // ---------------------------------------------------------------- appending one entry

  /** `db'` is `db` with `m` appended to the log and to the UUID index. */
  ghost predicate Appends(db: Db, m: Message, db': Db) {
    && m.sequence == db.maxSeq + 1 && db'.maxSeq == db.maxSeq + 1
    && db'.messages == db.messages[m.sequence := m]
    && db'.usedUuids == db.usedUuids[m.uuid := m.sequence]
  }

  lemma {:induction false} AppendGapFree(db: Db, m: Message, db': Db)
    requires GapFree(db) && Appends(db, m, db')
    ensures GapFree(db') && AgreeBelow(db.messages, db'.messages, db.maxSeq + 1)
  {
    hide ValidStoredMessage;
    hide Replay;
    hide ReplayOne;
    hide Justified;
    hide ValidObject;
  }

  lemma {:induction false} AppendUuidIndex(db: Db, m: Message, db': Db)
    requires GapFree(db) && UuidIndex(db) && Appends(db, m, db')
    requires m.uuid !in db.usedUuids && m.uuid < db'.nextUuid && db.nextUuid <= db'.nextUuid
    ensures UuidIndex(db')
  {
    hide ValidStoredMessage;
    hide Replay;
    hide ReplayOne;
    hide Justified;
    hide ValidObject;
    assert 0 in db.messages;
    assert db.usedUuids[db.messages[0].uuid] == 0;
  }

  /** Entries already in the log stay justified: they look only at what precedes them. */
  lemma {:induction false} AppendJustified(db: Db, m: Message, db': Db)
    requires GapFree(db) && AllJustified(db) && Appends(db, m, db')
    requires Justified(db'.messages, m.sequence)
    ensures AllJustified(db')
  {
    AppendGapFree(db, m, db');
    forall s: nat | s in db'.messages
      ensures Justified(db'.messages, s)
    {
      if s != m.sequence {
        ReplayAgrees(db.messages, db'.messages, s, db.messages[s].channelId);
      }
    }
  }

  lemma {:induction false} AppendReplay(db: Db, m: Message, db': Db, c: nat)
    requires GapFree(db) && EventSourced(db) && Appends(db, m, db')
    ensures Replay(db'.messages, db.maxSeq + 1, c) == StoredChannel(db, c)
    ensures Replay(db'.messages, db'.maxSeq + 1, c) == ReplayOne(StoredChannel(db, c), m, c)
  {
    AppendGapFree(db, m, db');
    ReplayAgrees(db.messages, db'.messages, db.maxSeq + 1, c);
  }

  lemma {:induction false} AppendReadable(db: Db, m: Message, db': Db)
    requires Readable(db) && KeysOpen(db) && Appends(db, m, db') && ValidStoredMessage(m)
    requires db'.preparing == db.preparing && db'.committed == db.committed
    requires forall i :: 0 <= i < |m.objectKeys| ==> KeyOpens(db, m.objectKeys[i])
    ensures Readable(db') && KeysOpen(db')
  {
    hide ValidStoredMessage;
    hide Replay;
    hide ReplayOne;
    hide Justified;
    hide ValidObject;
  }

  // ---------------------------------------------------------------- publish

  lemma {:induction false} ApplyPublish(db: Db, r: PublishRequest)
    ensures var s := db.maxSeq + 1;
            Apply(db, PublishBatch(r, s)) ==
            db.(messages := db.messages[s := PublishedMessage(r, s)], usedUuids := db.usedUuids[r.uuid := s], maxSeq := s)
  {
    var b := PublishBatch(r, db.maxSeq + 1);
    var b1, b2 := b[1..], b[2..];
    assert b1[1..] == b2 && b2[1..] == [];
    var d1 := ApplyOne(db, b[0]);
    var d2 := ApplyOne(d1, b[1]);
    assert Apply(db, b) == Apply(d1, b1) == Apply(d2, b2) == ApplyOne(d2, b[2]);
  }

  lemma {:induction false} PublishUuid(db: Db, maxPayload: nat, r: PublishRequest)
    requires UuidIndex(db) && CheckPublish(db, maxPayload, r) == Ok
    ensures 0 < r.uuid < db.nextUuid && r.uuid !in db.usedUuids && r.credential.principal != 0
  {
  }

  lemma {:induction false} PublishInv(db: Db, maxPayload: nat, r: PublishRequest)
    requires Inv(db) && DecidePublish(db, maxPayload, r).Commit?
    ensures Inv(Apply(db, DecidePublish(db, maxPayload, r).batch))
  {
    hide ValidStoredMessage;
    hide Replay;
    hide ReplayOne;
    hide Justified;
    hide ValidObject;
    hide Apply;
    hide PublishBatch;
    hide CheckPublish;
    hide CheckChannelWrite;
    hide CheckObjectKeys;
    PublishUuid(db, maxPayload, r);
    var m := PublishedMessage(r, db.maxSeq + 1);
    var db' := Apply(db, PublishBatch(r, db.maxSeq + 1));
    ApplyPublish(db, r);
    assert Appends(db, m, db');
    AppendGapFree(db, m, db');
    AppendUuidIndex(db, m, db');
    PublishJustified(db, maxPayload, r, db');
    PublishReplays(db, m, db');
    PublishValid(db, maxPayload, r);
    AppendReadable(db, m, db');
  }

  lemma {:induction false} PublishJustified(db: Db, maxPayload: nat, r: PublishRequest, db': Db)
    requires Inv(db) && DecidePublish(db, maxPayload, r).Commit?
    requires Appends(db, PublishedMessage(r, db.maxSeq + 1), db')
    ensures AllJustified(db')
  {
    var m := PublishedMessage(r, db.maxSeq + 1);
    AppendReplay(db, m, db', r.channelId);
    AppendJustified(db, m, db');
  }

  lemma {:induction false} PublishReplays(db: Db, m: Message, db': Db)
    requires GapFree(db) && EventSourced(db) && Appends(db, m, db')
    requires m.principal != 0 && db'.channels == db.channels
    ensures EventSourced(db')
  {
    forall c: nat
      ensures Replay(db'.messages, db'.maxSeq + 1, c) == StoredChannel(db', c)
    {
      AppendReplay(db, m, db', c);
    }
  }

  lemma {:induction false} PublishValid(db: Db, maxPayload: nat, r: PublishRequest)
    requires Inv(db) && DecidePublish(db, maxPayload, r).Commit?
    ensures ValidStoredMessage(PublishedMessage(r, db.maxSeq + 1))
    ensures forall i :: 0 <= i < |r.objectKeys| ==> KeyOpens(db, r.objectKeys[i])
  {
    hide Replay;
    hide ReplayOne;
    hide Justified;
    hide ValidChannelSystemMessage;
    hide ValidInitializationMessage;
    var keys := r.objectKeys;
    assert ValidateObjectKeysShape(keys) == Ok;
    assert CheckObjectKeys(db, keys) == Ok;
    forall i | 0 <= i < |keys|
      ensures KeyOpens(db, keys[i]) && keys[i].objectId != 0 && IsBase64UrlToken(keys[i].objectToken)
    {
      assert KeyReadable(db, keys[i]);
    }
  }

  // ---------------------------------------------------------------- channel changes

  lemma {:induction false} ApplyChannelMutation(db: Db, c: Channel, payload: string, timestamp: nat)
    ensures var s := db.maxSeq + 1;
            Apply(db, ChannelMutationBatch(db, c, payload, timestamp)) ==
            db.(channels := db.channels[c.id := c],
                messages := db.messages[s := SystemMessage(db, c.id, payload, timestamp)],
                usedUuids := db.usedUuids[db.nextUuid := s],
                maxSeq := s, nextUuid := db.nextUuid + 1)
  {
    var b := ChannelMutationBatch(db, c, payload, timestamp);
    var b1, b2, b3, b4 := b[1..], b[2..], b[3..], b[4..];
    assert b1[1..] == b2 && b2[1..] == b3 && b3[1..] == b4 && b4[1..] == [];
    var d1 := ApplyOne(db, b[0]);
    var d2 := ApplyOne(d1, b[1]);
    var d3 := ApplyOne(d2, b[2]);
    var d4 := ApplyOne(d3, b[3]);
    assert Apply(db, b) == Apply(d1, b1) == Apply(d2, b2) == Apply(d3, b3) == Apply(d4, b4);
    assert Apply(d4, b4) == ApplyOne(d4, b[4]);
  }

  /** What a channel change must satisfy for the table to stay the replay of the log. */
  ghost predicate ChangeFits(db: Db, c: Channel, payload: string) {
    && ChannelSound(c, c.id)
    && ValidChannelPayload(payload)
    && EventOf(payload).Some?
    && (EventOf(payload).value.Initialized? <==> c.id !in db.channels)
    && ReplayOne(StoredChannel(db, c.id), Message(0, c.id, 0, [], payload, 0, 0, []), c.id) == Some(c)
  }

  lemma {:induction false} ReplayOneDepends(before: Option<Channel>, m: Message, n: Message, c: nat)
    requires m.principal == n.principal && m.channelId == n.channelId && m.payload == n.payload
    ensures ReplayOne(before, m, c) == ReplayOne(before, n, c)
  {
  }

  lemma {:induction false} ChangeReplays(db: Db, c: Channel, payload: string, timestamp: nat, db': Db)
    requires GapFree(db) && EventSourced(db) && c.id != 0 && ChangeFits(db, c, payload)
    requires Appends(db, SystemMessage(db, c.id, payload, timestamp), db')
    requires db'.channels == db.channels[c.id := c]
    ensures EventSourced(db')
  {
    var m := SystemMessage(db, c.id, payload, timestamp);
    forall x: nat
      ensures Replay(db'.messages, db'.maxSeq + 1, x) == StoredChannel(db', x)
    {
      AppendReplay(db, m, db', x);
      ReplayOneDepends(StoredChannel(db, x), m, Message(0, c.id, 0, [], payload, 0, 0, []), x);
    }
  }

  lemma {:induction false} ChangeJustified(db: Db, c: Channel, payload: string, timestamp: nat, db': Db)
    requires GapFree(db) && EventSourced(db) && AllJustified(db) && ChangeFits(db, c, payload)
    requires Appends(db, SystemMessage(db, c.id, payload, timestamp), db')
    ensures AllJustified(db')
  {
    var m := SystemMessage(db, c.id, payload, timestamp);
    AppendReplay(db, m, db', c.id);
    AppendJustified(db, m, db');
  }

  lemma {:induction false} ChangeValid(db: Db, c: Channel, payload: string, timestamp: nat)
    requires UuidIndex(db) && c.id != 0 && ValidChannelPayload(payload)
    ensures ValidStoredMessage(SystemMessage(db, c.id, payload, timestamp))
  {
    hide ValidChannelPayload;
    hide ValidInitializationMessage;
  }

  /** The shared part of CreateChannel, AddMember and RemoveMember. */
  lemma {:induction false} ChangeInv(db: Db, c: Channel, payload: string, timestamp: nat, db': Db)
    requires Inv(db) && ChangeFits(db, c, payload) && 1 <= c.id <= db.nextChannelId
    requires db' == Apply(db, ChannelMutationBatch(db, c, payload, timestamp))
    ensures GapFree(db') && UuidIndex(db') && EventSourced(db') && AllJustified(db')
    ensures Readable(db') && ObjectIds(db') && KeysOpen(db')
    ensures db'.channels == db.channels[c.id := c] && db'.nextChannelId == db.nextChannelId
  {
    hide ValidStoredMessage;
    hide Replay;
    hide ReplayOne;
    hide Justified;
    hide ValidObject;
    hide ChangeFits;
    var m := SystemMessage(db, c.id, payload, timestamp);
    ApplyChannelMutation(db, c, payload, timestamp);
    assert Appends(db, m, db');
    AppendGapFree(db, m, db');
    AppendUuidIndex(db, m, db');
    ChangeReplays(db, c, payload, timestamp, db');
    ChangeJustified(db, c, payload, timestamp, db');
    ChangeFitsValid(db, c, payload, timestamp);
    AppendReadable(db, m, db');
  }

  lemma {:induction false} ChangeFitsValid(db: Db, c: Channel, payload: string, timestamp: nat)
    requires UuidIndex(db) && c.id != 0 && ChangeFits(db, c, payload)
    ensures ValidStoredMessage(SystemMessage(db, c.id, payload, timestamp))
  {
    hide ValidChannelPayload;
    hide EventOf;
    hide ValidStoredMessage;
    ChangeValid(db, c, payload, timestamp);
  }

  lemma {:induction false} NewChannelSound(db: Db, r: ChannelRequest, timestamp: nat)
    requires Inv(db) && DecideCreate(db, r, timestamp).Commit?
    ensures ChangeFits(db, NewChannel(db, r), InitializedText(NewChannel(db, r)))
    ensures ChannelSound(NewChannel(db, r), db.nextChannelId)
  {
    hide Justified;
    hide ValidStoredMessage;
    hide ValidChannelPayload;
    hide EventOf;
    hide Replay;
    hide InitializedText;
    var c := NewChannel(db, r);
    assert r.credential.principal in [r.credential.principal] + r.members;
    assert ChannelSound(c, c.id);
    InitializedRoundTrip(c);
    forall i | 0 <= i < |c.members|
      ensures c.members[i] > 0
    {
      assert c.members[i] in c.members;
    }
    InitializedAccepted(c);
  }

  lemma {:induction false} NewChannelTable(db: Db, c: Channel, db': Db)
    requires ChannelTable(db) && c.id == db.nextChannelId && ChannelSound(c, c.id)
    requires db'.channels == db.channels[c.id := c] && db'.nextChannelId == db.nextChannelId + 1
    ensures ChannelTable(db')
  {
  }

  lemma {:induction false} BumpChannelId(mid: Db, db': Db)
    requires GapFree(mid) && UuidIndex(mid) && EventSourced(mid) && AllJustified(mid)
    requires Readable(mid) && ObjectIds(mid) && KeysOpen(mid)
    requires db' == mid.(nextChannelId := db'.nextChannelId) && ChannelTable(db')
    ensures Inv(db')
  {
    hide ValidStoredMessage;
    hide Replay;
    hide Justified;
    hide ValidObject;
    forall x: nat
      ensures Replay(db'.messages, db'.maxSeq + 1, x) == StoredChannel(db', x)
    {
      assert StoredChannel(db', x) == StoredChannel(mid, x);
    }
  }

  lemma {:induction false} CreateInv(db: Db, r: ChannelRequest, timestamp: nat)
    requires Inv(db) && DecideCreate(db, r, timestamp).Commit?
    ensures Inv(Apply(db, DecideCreate(db, r, timestamp).batch))
  {
    hide ValidStoredMessage;
    hide Replay;
    hide ReplayOne;
    hide Justified;
    hide ValidObject;
    hide EventOf;
    hide ValidChannelPayload;
    hide Apply;
    hide ChangeFits;
    hide ChannelMutationBatch;
    hide ChannelSound;
    hide FirstOccurrences;
    var c := NewChannel(db, r);
    var b := ChannelMutationBatch(db, c, InitializedText(c), timestamp);
    var mid := Apply(db, b);
    var db' := mid.(nextChannelId := db.nextChannelId + 1);
    NewChannelSound(db, r, timestamp);
    ChangeInv(db, c, InitializedText(c), timestamp, mid);
    NewChannelTable(db, c, db');
    BumpChannelId(mid, db');
    ApplyConcat(db, b, [SetNextChannelId(db.nextChannelId + 1)]);
    ApplyTwo(mid, SetNextChannelId(db.nextChannelId + 1), SetNextUuid(0));
  }

  lemma {:induction false} AddedSound(db: Db, r: MemberRequest, timestamp: nat, c: Channel)
    requires Inv(db) && DecideAdd(db, r, timestamp).Commit?
    requires c == db.channels[r.channelId].(members := db.channels[r.channelId].members + [r.target])
    ensures ChangeFits(db, c, MemberText("system.member_added", r.target))
  {
    hide Justified;
    hide ValidStoredMessage;
    hide ValidChannelPayload;
    hide EventOf;
    hide Replay;
    hide MemberText;
    MemberRoundTrip(r.target);
    MemberAccepted("system.member_added", r.target);
  }

  lemma {:induction false} RemovedSound(db: Db, r: MemberRequest, timestamp: nat, c: Channel)
    requires Inv(db) && DecideRemove(db, r, timestamp).Commit?
    requires c == db.channels[r.channelId].(members := EraseFirst(db.channels[r.channelId].members, r.target))
    ensures ChangeFits(db, c, MemberText("system.member_removed", r.target))
  {
    hide Justified;
    hide ValidStoredMessage;
    hide ValidChannelPayload;
    hide EventOf;
    hide Replay;
    hide MemberText;
    var members := db.channels[r.channelId].members;
    MemberRoundTrip(r.target);
    MemberAccepted("system.member_removed", r.target);
    EraseFirstKeeps(members, r.target);
    EraseFirstDistinct(members, r.target);
  }

  lemma {:induction false} MembershipInv(db: Db, c: Channel, payload: string, timestamp: nat)
    requires Inv(db) && c.id in db.channels && ChangeFits(db, c, payload)
    ensures Inv(Apply(db, ChannelMutationBatch(db, c, payload, timestamp)))
  {
    hide ValidStoredMessage;
    hide Replay;
    hide ReplayOne;
    hide Justified;
    hide ValidObject;
    hide Apply;
    hide ChannelMutationBatch;
    hide EventOf;
    hide ValidChannelPayload;
    var db' := Apply(db, ChannelMutationBatch(db, c, payload, timestamp));
    ChangeInv(db, c, payload, timestamp, db');
    assert ChannelTable(db');
  }

  lemma {:induction false} OwnedChannelStored(db: Db, r: MemberRequest)
    requires LoadOwnedChannel(db, r).Success?
    ensures r.channelId in db.channels && LoadOwnedChannel(db, r).value == db.channels[r.channelId]
    ensures db.channels[r.channelId].id == r.channelId
  {
  }

  lemma {:induction false} AddInv(db: Db, r: MemberRequest, timestamp: nat)
    requires Inv(db) && DecideAdd(db, r, timestamp).Commit?
    ensures Inv(Apply(db, DecideAdd(db, r, timestamp).batch))
  {
    hide ValidStoredMessage;
    hide Replay;
    hide ReplayOne;
    hide Justified;
    hide ValidObject;
    hide Apply;
    hide Inv;
    hide ChangeFits;
    OwnedChannelStored(db, r);
    var c := db.channels[r.channelId].(members := db.channels[r.channelId].members + [r.target]);
    AddedSound(db, r, timestamp, c);
    MembershipInv(db, c, MemberText("system.member_added", r.target), timestamp);
  }

  lemma {:induction false} RemoveInv(db: Db, r: MemberRequest, timestamp: nat)
    requires Inv(db) && DecideRemove(db, r, timestamp).Commit?
    ensures Inv(Apply(db, DecideRemove(db, r, timestamp).batch))
  {
    hide ValidStoredMessage;
    hide Replay;
    hide ReplayOne;
    hide Justified;
    hide ValidObject;
    hide Apply;
    hide Inv;
    hide ChangeFits;
    OwnedChannelStored(db, r);
    var c := db.channels[r.channelId].(members := EraseFirst(db.channels[r.channelId].members, r.target));
    RemovedSound(db, r, timestamp, c);
    MembershipInv(db, c, MemberText("system.member_removed", r.target), timestamp);
  }

  // ---------------------------------------------------------------- the other operations

  /** Nothing but the object table, the tokens and two counters differs, and no object is lost. */
  ghost predicate LogUntouched(db: Db, db': Db) {
    && db'.messages == db.messages && db'.usedUuids == db.usedUuids && db'.channels == db.channels
    && db'.maxSeq == db.maxSeq && db'.nextChannelId == db.nextChannelId && db.nextUuid <= db'.nextUuid
    && (forall id: nat :: id in db.committed ==> id in db'.committed && db'.committed[id] == db.committed[id])
  }

  lemma {:induction false} UntouchedInv(db: Db, db': Db)
    requires Inv(db) && LogUntouched(db, db') && ObjectIds(db')
    requires forall id: nat :: id in db'.preparing ==> ValidObject(db'.preparing[id], id)
    requires forall id: nat :: id in db'.committed ==> ValidObject(db'.committed[id], id)
    ensures Inv(db')
  {
    hide ValidStoredMessage;
    hide Replay;
    hide ReplayOne;
    hide Justified;
    hide ValidObject;
    forall c: nat
      ensures Replay(db'.messages, db'.maxSeq + 1, c) == StoredChannel(db', c)
    {
      assert StoredChannel(db', c) == StoredChannel(db, c);
    }
  }

  lemma {:induction false} ApplyTwo(db: Db, a: Write, b: Write)
    ensures Apply(db, [a]) == ApplyOne(db, a)
    ensures Apply(db, [a, b]) == ApplyOne(ApplyOne(db, a), b)
  {
    assert [a, b][1..] == [b] && [b][1..] == [] && [a][1..] == [];
    assert Apply(ApplyOne(db, a), [b]) == Apply(ApplyOne(ApplyOne(db, a), b), []);
  }

  lemma {:induction false} ApplyDeletes(db: Db, ids: seq<nat>)
    ensures Apply(db, Deletes(ids)) == db.(preparing := Apply(db, Deletes(ids)).preparing)
    ensures forall id: nat :: id in Apply(db, Deletes(ids)).preparing <==> id in db.preparing && id !in ids
    ensures forall id: nat :: id in Apply(db, Deletes(ids)).preparing ==>
              Apply(db, Deletes(ids)).preparing[id] == db.preparing[id]
    decreases |ids|
  {
    if |ids| > 0 {
      assert Deletes(ids)[1..] == Deletes(ids[1..]);
      ApplyDeletes(ApplyOne(db, DeletePreparing(ids[0])), ids[1..]);
      assert ids == [ids[0]] + ids[1..];
    }
  }

  lemma {:induction false} PreparedValid(db: Db, o: StoredObject, token: string)
    requires db.nextObjectId >= 1 && IsBase64UrlToken(o.token) && DecidePrepare(db, o, token).Commit?
    ensures ValidObject(o.(id := db.nextObjectId), db.nextObjectId)
  {
  }

  lemma {:induction false} PrepareInv(db: Db, o: StoredObject, token: string)
    requires Inv(db) && IsBase64UrlToken(o.token) && DecidePrepare(db, o, token).Commit?
    ensures Inv(Apply(db, DecidePrepare(db, o, token).batch))
  {
    hide ValidStoredMessage;
    hide Replay;
    hide ReplayOne;
    hide Justified;
    hide ValidObject;
    PreparedValid(db, o, token);
    var p := o.(id := db.nextObjectId);
    ApplyTwo(db, PutPreparing(p), SetNextObjectId(db.nextObjectId + 1));
    UntouchedInv(db, db.(preparing := db.preparing[p.id := p], nextObjectId := db.nextObjectId + 1));
  }

  lemma {:induction false} CommitInv(db: Db, o: StoredObject, token: string)
    requires Inv(db) && DecideCommit(db, o, token).Commit?
    ensures Inv(Apply(db, DecideCommit(db, o, token).batch))
  {
    hide ValidStoredMessage;
    hide Replay;
    hide ReplayOne;
    hide Justified;
    ApplyTwo(db, DeletePreparing(o.id), PutCommitted(o));
    UntouchedInv(db, db.(preparing := db.preparing - {o.id}, committed := db.committed[o.id := o]));
  }

  lemma {:induction false} AllocateInv(db: Db, count: nat)
    requires Inv(db)
    ensures Inv(Apply(db, [SetNextUuid(db.nextUuid + count)]))
  {
    hide Justified;
    hide ValidStoredMessage;
    hide Replay;
    hide ValidObject;
    ApplyTwo(db, SetNextUuid(db.nextUuid + count), SetNextUuid(0));
    UntouchedInv(db, db.(nextUuid := db.nextUuid + count));
  }

  lemma {:induction false} TokenInv(db: Db, c: Credential)
    requires Inv(db)
    ensures Inv(Apply(db, [PutToken(c)])) && Inv(Apply(db, [Write.DeleteToken(c)]))
  {
    hide Justified;
    hide ValidStoredMessage;
    hide Replay;
    hide ValidObject;
    ApplyTwo(db, PutToken(c), SetNextUuid(0));
    ApplyTwo(db, Write.DeleteToken(c), SetNextUuid(0));
    UntouchedInv(db, db.(tokens := db.tokens + {c}));
    UntouchedInv(db, db.(tokens := db.tokens - {c}));
  }

  lemma {:induction false} DropInv(db: Db, ids: seq<nat>)
    requires Inv(db)
    ensures Inv(Apply(db, Deletes(ids)))
  {
    hide ValidObject;
    hide Justified;
    hide ValidStoredMessage;
    hide Replay;
    ApplyDeletes(db, ids);
    UntouchedInv(db, Apply(db, Deletes(ids)));
  }

  /** Every step of the server, whatever its outcome, keeps the invariants. */
  lemma {:induction false} NextInv(maxPayload: nat, db: Db, op: Op, db': Db)
    requires Inv(db) && Next(maxPayload, db, op, db')
    ensures Inv(db')
  {
    hide Inv;
    hide Apply;
    if db' != db {
      match op
      case Publish(r) => PublishInv(db, maxPayload, r);
      case CreateChannel(r, ts) => CreateInv(db, r, ts);
      case AddMember(r, ts) => AddInv(db, r, ts);
      case RemoveMember(r, ts) => RemoveInv(db, r, ts);
      case PrepareObject(o, token) => PrepareInv(db, o, token);
      case CommitObject(o, token) => CommitInv(db, o, token);
      case AllocateUuids(count) => AllocateInv(db, count);
      case AddToken(c) => TokenInv(db, c);
      case DeleteToken(c) => TokenInv(db, c);
      case DropPreparing(ids) => DropInv(db, ids);
    }
  }
}
