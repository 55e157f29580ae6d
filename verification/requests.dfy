/**
 What the requests promise their callers, in terms of what is stored and what was
 asked: the answer to each request, and what a granted request leaves behind.
 */
module Requests {
  import opened Types
  import opened Records
  import opened ChannelEvents
  import opened Store
  import opened Tokens
  import opened Log
  import opened LogInvariants
  import opened LogRuns

  // ---------------------------------------------------------------- answers

  function CredentialAnswer(db: Db, c: Credential): Status {
    if c.principal == 0 then Reject(InvalidArgument)
    else if c.token == "" || c !in db.tokens then Reject(Unauthenticated)
    else Ok
  }

  function AllocateAnswer(count: nat): Status {
    if 1 <= count <= 1024 then Ok else Reject(InvalidArgument)
  }

  predicate WellFormedKeys(keys: seq<ObjectKey>) {
    |keys| <= 1024 && forall i :: 0 <= i < |keys| ==> keys[i].objectId != 0 && keys[i].objectToken != ""
  }

  /** Every key, wherever it stands in the list, names a committed object and carries its token. */
  predicate KeysMatch(db: Db, keys: seq<ObjectKey>) {
    forall i :: 0 <= i < |keys| ==>
      keys[i].objectId in db.committed && db.committed[keys[i].objectId].token == keys[i].objectToken
  }

  predicate MayWrite(db: Db, channelId: nat, principal: U64)
    requires channelId in db.channels
  {
    db.channels[channelId].visibility.Public? || principal in db.channels[channelId].members
  }

  predicate AllMembers(db: Db, channelId: nat, recipients: seq<U64>)
    requires channelId in db.channels
  {
    forall i :: 0 <= i < |recipients| ==> recipients[i] in db.channels[channelId].members
  }

  /** The first thing that is wrong with a publish request, in the order the server looks. */
  function PublishAnswer(db: Db, maxPayload: nat, r: PublishRequest): Status {
    if r.credential.principal == 0 || 0 in r.recipients then Reject(InvalidArgument)
    else if CredentialAnswer(db, r.credential) != Ok then Reject(Unauthenticated)
    else if !(1 <= r.uuid < db.nextUuid) then Reject(InvalidArgument)
    else if r.uuid in db.usedUuids then Reject(AlreadyExists)
    else if |r.payload| > maxPayload then Reject(ResourceExhausted)
    else if !WellFormedKeys(r.objectKeys) then Reject(InvalidArgument)
    else if r.sequence.Some? && r.sequence.value != db.maxSeq + 1 then Reject(Aborted)
    else if r.channelId == 0 then Reject(PermissionDenied)
    else if r.channelId !in db.channels then Reject(NotFound)
    else if !MayWrite(db, r.channelId, r.credential.principal) then Reject(PermissionDenied)
    else if !AllMembers(db, r.channelId, r.recipients) then Reject(InvalidArgument)
    else if !KeysMatch(db, r.objectKeys) then Reject(NotFound)
    else Ok
  }

  /** Exactly when a publish request is granted. */
  predicate PublishAdmitted(db: Db, maxPayload: nat, r: PublishRequest) {
    && r.credential.principal != 0 && r.credential.token != "" && r.credential in db.tokens
    && 1 <= r.uuid < db.nextUuid && r.uuid !in db.usedUuids
    && |r.payload| <= maxPayload
    && |r.objectKeys| <= 1024
    && (forall i :: 0 <= i < |r.objectKeys| ==> r.objectKeys[i].objectId != 0 && r.objectKeys[i].objectToken != "")
    && (r.sequence.None? || r.sequence.value == db.maxSeq + 1)
    && r.channelId != 0 && r.channelId in db.channels
    && (db.channels[r.channelId].visibility.Public? || r.credential.principal in db.channels[r.channelId].members)
    && (forall i :: 0 <= i < |r.recipients| ==> r.recipients[i] != 0 && r.recipients[i] in db.channels[r.channelId].members)
    && (forall i :: 0 <= i < |r.objectKeys| ==>
          && r.objectKeys[i].objectId in db.committed
          && db.committed[r.objectKeys[i].objectId].token == r.objectKeys[i].objectToken)
  }

  /** The caller and the requested members, each once. */
  ghost function MemberSet(r: ChannelRequest): set<U64> {
    {r.credential.principal} + set m | m in r.members
  }

  ghost function CreateAnswer(db: Db, r: ChannelRequest): Status {
    if r.credential.principal == 0 || 0 in r.members || !(1 <= |r.name| <= 255) || |r.protocol| > 255
       || |r.description| > 4096 || |r.members| > 1024 || r.visibility.Unknown?
    then Reject(InvalidArgument)
    else if CredentialAnswer(db, r.credential) != Ok then Reject(Unauthenticated)
    else if |MemberSet(r)| > 1024 then Reject(ResourceExhausted)
    else Ok
  }

  /** Exactly when a channel is created. */
  ghost predicate CreateAdmitted(db: Db, r: ChannelRequest) {
    && r.credential.principal != 0 && r.credential.token != "" && r.credential in db.tokens
    && 1 <= |r.name| <= 255 && |r.protocol| <= 255 && |r.description| <= 4096
    && (r.visibility.Public? || r.visibility.Protected? || r.visibility.Private?)
    && 0 !in r.members && |r.members| <= 1024 && |MemberSet(r)| <= 1024
  }

  /** What both membership requests are refused for: only the creator of an existing channel may change it. */
  function OwnerAnswer(db: Db, r: MemberRequest): Status {
    if r.credential.principal == 0 || r.target == 0 then Reject(InvalidArgument)
    else if CredentialAnswer(db, r.credential) != Ok then Reject(Unauthenticated)
    else if r.channelId == 0 then Reject(PermissionDenied)
    else if r.channelId !in db.channels then Reject(NotFound)
    else if db.channels[r.channelId].creator != Some(r.credential.principal) then Reject(PermissionDenied)
    else Ok
  }

  function AddAnswer(db: Db, r: MemberRequest): Status {
    if OwnerAnswer(db, r) != Ok then OwnerAnswer(db, r)
    else if r.channelId in db.channels && r.target in db.channels[r.channelId].members then Reject(AlreadyExists)
    else if r.channelId in db.channels && |db.channels[r.channelId].members| >= 1024 then Reject(ResourceExhausted)
    else Ok
  }

  /** `Ok` for an absent target too, which changes nothing. */
  function RemoveAnswer(db: Db, r: MemberRequest): Status {
    if OwnerAnswer(db, r) != Ok then OwnerAnswer(db, r)
    else if r.target == r.credential.principal then Reject(PermissionDenied)
    else Ok
  }

  /** The fields of an object within the limits: a name, a type and 1 byte to 4 MiB of data. */
  predicate Storable(o: StoredObject) {
    && o.creator != 0 && 1 <= |o.name| <= 255 && 1 <= |o.kind| <= 255 && |o.description| <= 4096
    && 1 <= o.size <= 4 * 1024 * 1024
  }

  function PrepareAnswer(db: Db, o: StoredObject, token: string): Status {
    if !Storable(o) then Reject(InvalidArgument)
    else if token == "" || Credential(o.creator, token) !in db.tokens then Reject(Unauthenticated)
    else Ok
  }

  /** The final commit: the credential still holds and the record is there, valid and unchanged. */
  function CommitAnswer(db: Db, o: StoredObject, token: string): Status {
    if CredentialAnswer(db, Credential(o.creator, token)) != Ok then CredentialAnswer(db, Credential(o.creator, token))
    else if !StillPrepared(db, o) then CORRUPTION
    else Ok
  }

  ghost function AnswerTo(db: Db, maxPayload: nat, op: Op): Status {
    match op
    case AllocateUuids(count) => AllocateAnswer(count)
    case Publish(r) => PublishAnswer(db, maxPayload, r)
    case CreateChannel(r, _) => CreateAnswer(db, r)
    case AddMember(r, _) => AddAnswer(db, r)
    case RemoveMember(r, _) => RemoveAnswer(db, r)
    case AddToken(c) => if c.principal == 0 then Reject(InvalidArgument) else Ok
    case DeleteToken(c) => if c.principal == 0 || c.token == "" then Reject(InvalidArgument) else Ok
    case PrepareObject(o, token) => PrepareAnswer(db, o, token)
    case CommitObject(o, token) => CommitAnswer(db, o, token)
    case DropPreparing(_) => Ok
  }

  // ---------------------------------------------------------------- effects

  /** The message is the request's, field by field. */
  predicate Carries(m: Message, r: PublishRequest, sequence: nat) {
    && m.sequence == sequence && m.channelId == r.channelId && m.principal == r.credential.principal
    && m.recipients == r.recipients && m.payload == r.payload && m.timestamp == r.timestamp
    && m.uuid == r.uuid && m.objectKeys == r.objectKeys
  }

  /** The log grew by one message, with its UUID, and nothing else of it changed. */
  predicate Appended(db: Db, db': Db) {
    var s := db.maxSeq + 1;
    && db'.maxSeq == s && s in db'.messages && db'.messages == db.messages[s := db'.messages[s]]
    && db'.usedUuids == db.usedUuids[db'.messages[s].uuid := s]
  }

  /** A published message is the request's, and nothing but the log changed. */
  predicate PublishDone(db: Db, r: PublishRequest, db': Db) {
    && Appended(db, db') && Carries(db'.messages[db.maxSeq + 1], r, db.maxSeq + 1)
    && db' == db.(messages := db'.messages, usedUuids := db'.usedUuids, maxSeq := db'.maxSeq)
  }

  /** The log grew by a system event of this channel, under the next UUID. */
  predicate Announced(db: Db, channelId: nat, timestamp: nat, event: Event, db': Db) {
    && Appended(db, db') && db'.nextUuid == db.nextUuid + 1
    && var m := db'.messages[db.maxSeq + 1];
       && m.sequence == db.maxSeq + 1 && m.channelId == channelId && m.principal == 0 && m.recipients == []
       && m.timestamp == timestamp && m.uuid == db.nextUuid && m.objectKeys == [] && EventOf(m.payload) == Some(event)
  }

  /** Credentials, objects and their counter are as they were. */
  predicate ObjectsUntouched(db: Db, db': Db) {
    && db'.tokens == db.tokens && db'.preparing == db.preparing && db'.committed == db.committed
    && db'.nextObjectId == db.nextObjectId
  }

  /** The record has what was asked for, and the members in order of first mention, the caller first. */
  ghost predicate AsAsked(c: Channel, id: nat, r: ChannelRequest) {
    && c.id == id && c.name == r.name && c.protocol == r.protocol && c.description == r.description
    && c.visibility == r.visibility && c.creator == Some(r.credential.principal)
    && |c.members| > 0 && c.members[0] == r.credential.principal && Distinct(c.members)
    && (forall m :: m in c.members <==> m == r.credential.principal || m in r.members)
    && InOrderOfMention(c.members, [r.credential.principal] + r.members)
  }

  ghost predicate CreateDone(db: Db, r: ChannelRequest, timestamp: nat, db': Db) {
    var id := db.nextChannelId;
    && id in db'.channels && AsAsked(db'.channels[id], id, r) && db'.channels == db.channels[id := db'.channels[id]]
    && db'.nextChannelId == id + 1 && ObjectsUntouched(db, db')
    && Announced(db, id, timestamp,
                 Initialized(r.name, r.protocol, r.description, r.visibility, r.credential.principal, db'.channels[id].members), db')
  }

  /** One channel has a new member list, and nothing else of it or of another channel changed. */
  predicate MembersBecome(db: Db, c: nat, members: seq<U64>, db': Db) {
    && c in db.channels && db'.channels == db.channels[c := db.channels[c].(members := members)]
    && db'.nextChannelId == db.nextChannelId && ObjectsUntouched(db, db')
  }

  predicate AddDone(db: Db, r: MemberRequest, timestamp: nat, db': Db) {
    && r.channelId in db.channels && MembersBecome(db, r.channelId, db.channels[r.channelId].members + [r.target], db')
    && Announced(db, r.channelId, timestamp, MemberAdded(r.target), db')
  }

  /** `x` is taken out of the list at one place, and the rest keeps its order. */
  predicate TakenOut(s: seq<U64>, x: U64, r: seq<U64>) {
    exists i :: 0 <= i < |s| && s[i] == x && r == s[..i] + s[i + 1..]
  }

  ghost predicate RemoveDone(db: Db, r: MemberRequest, timestamp: nat, db': Db) {
    && r.channelId in db.channels && r.channelId in db'.channels
    && TakenOut(db.channels[r.channelId].members, r.target, db'.channels[r.channelId].members)
    && r.target !in db'.channels[r.channelId].members
    && MembersBecome(db, r.channelId, db'.channels[r.channelId].members, db')
    && Announced(db, r.channelId, timestamp, MemberRemoved(r.target), db')
  }

  /** The removal of a principal that is not a member. */
  predicate NothingToRemove(db: Db, op: Op) {
    op.RemoveMember? && op.change.channelId in db.channels && op.change.target !in db.channels[op.change.channelId].members
  }

  /** What a granted request leaves behind. */
  ghost predicate Done(db: Db, op: Op, db': Db) {
    match op
    case AllocateUuids(count) => db' == db.(nextUuid := db.nextUuid + count)
    case Publish(r) => PublishDone(db, r, db')
    case CreateChannel(r, timestamp) => CreateDone(db, r, timestamp, db')
    case AddMember(r, timestamp) => AddDone(db, r, timestamp, db')
    case RemoveMember(r, timestamp) => RemoveDone(db, r, timestamp, db')
    case AddToken(c) => db' == db.(tokens := db.tokens + {c})
    case DeleteToken(c) => db' == db.(tokens := db.tokens - {c})
    case PrepareObject(o, _) =>
      var id := db.nextObjectId;
      db' == db.(preparing := db.preparing[id := o.(id := id)], nextObjectId := id + 1)
    case CommitObject(o, _) =>
      db' == db.(preparing := db.preparing - {o.id}, committed := db.committed[o.id := o])
    case DropPreparing(ids) =>
      db' == db.(preparing := db.preparing - set id | id in ids)
  }

  // ---------------------------------------------------------------- credentials and channels

  lemma {:induction false} AuthenticateAnswers(db: Db, c: Credential)
    ensures Authenticate(db, c) == CredentialAnswer(db, c)
  {
  }

  /** In a sound state a channel loads exactly if it is stored. */
  lemma {:induction false} ChannelLoaded(db: Db, c: nat)
    requires Inv(db) && c != 0
    ensures LoadChannel(db, c) == Success(if c in db.channels then Some(db.channels[c]) else None)
    ensures c in db.channels ==> db.channels[c].id == c && db.channels[c].creator.Some? && !db.channels[c].visibility.Unknown?
    ensures c in db.channels ==> Distinct(db.channels[c].members)
  {
    hide Replay;
    hide ValidStoredMessage;
    hide Justified;
    hide ValidObject;
    if c in db.channels {
      assert ChannelSound(db.channels[c], c);
    }
  }

  // ---------------------------------------------------------------- publishing

  lemma {:induction false} KeysAnswers(db: Db, keys: seq<ObjectKey>)
    requires Inv(db)
    ensures CheckObjectKeys(db, keys) == if KeysMatch(db, keys) then Ok else Reject(NotFound)
    ensures ValidateObjectKeysShape(keys) == if WellFormedKeys(keys) then Ok else Reject(InvalidArgument)
  {
    hide Replay;
    hide ValidStoredMessage;
    hide Justified;
    hide ValidObject;
    assert forall i :: 0 <= i < |keys| ==> KeyReadable(db, keys[i]);
    if KeysMatch(db, keys) {
      assert forall i :: 0 <= i < |keys| ==> KeyOpens(db, keys[i]);
    }
  }

  lemma {:induction false} UuidAnswers(db: Db, uuid: nat)
    requires Inv(db)
    ensures ValidateAvailableUuid(db, uuid) ==
              if !(1 <= uuid < db.nextUuid) then Reject(InvalidArgument)
              else if uuid in db.usedUuids then Reject(AlreadyExists)
              else Ok
  {
    hide ChannelTable;
    hide EventSourced;
    hide AllJustified;
    hide Readable;
    hide ObjectIds;
    hide KeysOpen;
  }

  lemma {:induction false} ChannelWriteAnswers(db: Db, r: PublishRequest)
    requires Inv(db)
    ensures CheckChannelWrite(db, r) ==
              if r.channelId == 0 then Reject(PermissionDenied)
              else if r.channelId !in db.channels then Reject(NotFound)
              else if !MayWrite(db, r.channelId, r.credential.principal) then Reject(PermissionDenied)
              else if !AllMembers(db, r.channelId, r.recipients) then Reject(InvalidArgument)
              else Ok
  {
    hide Inv;
    hide LoadChannel;
    if r.channelId != 0 {
      ChannelLoaded(db, r.channelId);
    }
  }

  /** A publish request is answered as its answer says, granted exactly if admitted, and a granted one has its effect. */
  lemma {:induction false} PublishDecided(db: Db, maxPayload: nat, r: PublishRequest)
    requires Inv(db)
    ensures PublishAnswer(db, maxPayload, r) == Ok <==> PublishAdmitted(db, maxPayload, r)
    ensures var d := DecidePublish(db, maxPayload, r);
            if PublishAdmitted(db, maxPayload, r) then d.Commit? && PublishDone(db, r, Apply(db, d.batch))
            else d == Rejected(PublishAnswer(db, maxPayload, r))
  {
    hide Inv;
    hide Apply;
    hide CheckObjectKeys;
    hide ValidateObjectKeysShape;
    hide ValidateAvailableUuid;
    hide CheckChannelWrite;
    hide Authenticate;
    AuthenticateAnswers(db, r.credential);
    UuidAnswers(db, r.uuid);
    KeysAnswers(db, r.objectKeys);
    ChannelWriteAnswers(db, r);
    ApplyPublish(db, r);
  }

  // ---------------------------------------------------------------- channels

  lemma {:induction false} MembersAsked(r: ChannelRequest)
    ensures var members := FirstOccurrences([r.credential.principal] + r.members);
            && |members| > 0 && members[0] == r.credential.principal && Distinct(members)
            && (forall m :: m in members <==> m == r.credential.principal || m in r.members)
            && InOrderOfMention(members, [r.credential.principal] + r.members) && |members| == |MemberSet(r)|
  {
    var named := [r.credential.principal] + r.members;
    var members := FirstOccurrences(named);
    FirstOccurrencesInOrder(named);
    DistinctCount(members, MemberSet(r));
    assert r.credential.principal in members;
    FirstIndexIs(named, r.credential.principal, 0);
    var k :| 0 <= k < |members| && members[k] == r.credential.principal;
    assert FirstIndex(named, members[k]) == 0;
  }

  lemma {:induction false} CreateDecided(db: Db, r: ChannelRequest, timestamp: nat)
    ensures CreateAnswer(db, r) == Ok <==> CreateAdmitted(db, r)
    ensures var d := DecideCreate(db, r, timestamp);
            if CreateAdmitted(db, r) then
              && d.Commit? && CreateDone(db, r, timestamp, Apply(db, d.batch))
              && NewChannel(db, r) == Apply(db, d.batch).channels[db.nextChannelId]
            else d == Rejected(CreateAnswer(db, r))
  {
    hide Apply;
    hide Authenticate;
    hide InitializedText;
    hide EventOf;
    hide ChannelMutationBatch;
    hide FirstOccurrences;
    AuthenticateAnswers(db, r.credential);
    MembersAsked(r);
    if CreateAdmitted(db, r) {
      var c := NewChannel(db, r);
      var b, bump := ChannelMutationBatch(db, c, InitializedText(c), timestamp), SetNextChannelId(db.nextChannelId + 1);
      ApplyConcat(db, b, [bump]);
      ApplyTwo(Apply(db, b), bump, SetNextUuid(0));
      ApplyChannelMutation(db, c, InitializedText(c), timestamp);
      InitializedRoundTrip(c);
    }
  }

  lemma {:induction false} OwnerAnswers(db: Db, r: MemberRequest)
    requires Inv(db)
    ensures LoadOwnedChannel(db, r) ==
              if OwnerAnswer(db, r) != Ok then Failure(OwnerAnswer(db, r)) else Success(db.channels[r.channelId])
  {
    hide Inv;
    hide LoadChannel;
    hide Authenticate;
    AuthenticateAnswers(db, r.credential);
    if r.channelId != 0 {
      ChannelLoaded(db, r.channelId);
    }
  }

  lemma {:induction false} AddDecided(db: Db, r: MemberRequest, timestamp: nat)
    requires Inv(db)
    ensures var d := DecideAdd(db, r, timestamp);
            if AddAnswer(db, r) == Ok then d.Commit? && AddDone(db, r, timestamp, Apply(db, d.batch))
            else d == Rejected(AddAnswer(db, r))
  {
    hide Inv;
    hide Apply;
    hide LoadOwnedChannel;
    hide ChannelMutationBatch;
    hide MemberText;
    hide EventOf;
    OwnerAnswers(db, r);
    if AddAnswer(db, r) == Ok {
      ChannelLoaded(db, r.channelId);
      var c := db.channels[r.channelId];
      ApplyChannelMutation(db, c.(members := c.members + [r.target]), MemberText("system.member_added", r.target), timestamp);
      MemberRoundTrip(r.target);
    }
  }

  lemma {:induction false} ErasedIsTakenOut(s: seq<U64>, x: U64)
    requires x in s
    ensures TakenOut(s, x, EraseFirst(s, x))
  {
    var i := FirstIndex(s, x);
    EraseSplits(s, x, i);
  }

  lemma {:induction false} RemoveDecided(db: Db, r: MemberRequest, timestamp: nat)
    requires Inv(db)
    ensures var d := DecideRemove(db, r, timestamp);
            if RemoveAnswer(db, r) != Ok then d == Rejected(RemoveAnswer(db, r))
            else if NothingToRemove(db, RemoveMember(r, timestamp)) then d == NoChange
            else d.Commit? && RemoveDone(db, r, timestamp, Apply(db, d.batch))
  {
    hide Inv;
    hide Apply;
    hide LoadOwnedChannel;
    hide ChannelMutationBatch;
    hide MemberText;
    hide EventOf;
    OwnerAnswers(db, r);
    if RemoveAnswer(db, r) == Ok {
      ChannelLoaded(db, r.channelId);
      var c := db.channels[r.channelId];
      if r.target in c.members {
        ErasedIsTakenOut(c.members, r.target);
        EraseFirstDistinct(c.members, r.target);
        ApplyChannelMutation(db, c.(members := EraseFirst(c.members, r.target)), MemberText("system.member_removed", r.target), timestamp);
        MemberRoundTrip(r.target);
      }
    }
  }

  // ---------------------------------------------------------------- objects

  lemma {:induction false} PrepareDecided(db: Db, o: StoredObject, token: string)
    ensures var d := DecidePrepare(db, o, token);
            if PrepareAnswer(db, o, token) == Ok then d.Commit? && Done(db, PrepareObject(o, token), Apply(db, d.batch))
            else d == Rejected(PrepareAnswer(db, o, token))
  {
    hide Apply;
    hide Authenticate;
    AuthenticateAnswers(db, Credential(o.creator, token));
    ApplyTwo(db, PutPreparing(o.(id := db.nextObjectId)), SetNextObjectId(db.nextObjectId + 1));
  }

  /** The write path admits exactly the objects the read path accepts. */
  lemma {:induction false} AdmittedIsReadable(db: Db, o: StoredObject, token: string)
    requires IsBase64UrlToken(o.token) && db.nextObjectId >= 1
    ensures PrepareAnswer(db, o, token) == Ok <==>
              && ValidObject(o.(id := db.nextObjectId), db.nextObjectId)
              && token != "" && Credential(o.creator, token) in db.tokens
    ensures ValidObject(o.(id := db.nextObjectId), db.nextObjectId) <==> Storable(o)
  {
  }

  lemma {:induction false} CommitDecided(db: Db, o: StoredObject, token: string)
    requires Inv(db)
    ensures var d := DecideCommit(db, o, token);
            if CommitAnswer(db, o, token) == Ok then d.Commit? && Done(db, CommitObject(o, token), Apply(db, d.batch))
            else d == Rejected(CommitAnswer(db, o, token))
  {
    hide Apply;
    hide Authenticate;
    hide Replay;
    hide ValidStoredMessage;
    hide Justified;
    hide ValidObject;
    AuthenticateAnswers(db, Credential(o.creator, token));
    ApplyTwo(db, DeletePreparing(o.id), PutCommitted(o));
  }

  lemma {:induction false} OthersDecided(db: Db, maxPayload: nat, op: Op)
    requires op.AllocateUuids? || op.AddToken? || op.DeleteToken? || op.DropPreparing?
    ensures var d := Decide(db, maxPayload, op);
            if AnswerTo(db, maxPayload, op) == Ok then d.Commit? && Done(db, op, Apply(db, d.batch))
            else d == Rejected(AnswerTo(db, maxPayload, op))
  {
    hide Apply;
    match op
    case AllocateUuids(count) => ApplyTwo(db, SetNextUuid(db.nextUuid + count), SetNextUuid(0));
    case AddToken(c) => ApplyTwo(db, PutToken(c), SetNextUuid(0));
    case DeleteToken(c) => ApplyTwo(db, Write.DeleteToken(c), SetNextUuid(0));
    case DropPreparing(ids) =>
      ApplyDeletes(db, ids);
      assert Apply(db, Deletes(ids)).preparing == db.preparing - set id | id in ids;
    case _ =>
  }

  // ---------------------------------------------------------------- every request

  /** In a sound state every request is answered as its answer says, and a granted one has exactly its effect. */
  lemma {:induction false} EveryRequestDecided(db: Db, maxPayload: nat, op: Op)
    requires Inv(db)
    ensures var d := Decide(db, maxPayload, op);
            if AnswerTo(db, maxPayload, op) != Ok then d == Rejected(AnswerTo(db, maxPayload, op))
            else if NothingToRemove(db, op) then d == NoChange
            else d.Commit? && Done(db, op, Apply(db, d.batch))
  {
    hide Inv;
    hide Apply;
    hide PublishAnswer;
    hide PublishDone;
    hide DecidePublish;
    hide CreateAnswer;
    hide CreateDone;
    hide DecideCreate;
    hide AddAnswer;
    hide AddDone;
    hide DecideAdd;
    hide RemoveAnswer;
    hide RemoveDone;
    hide DecideRemove;
    hide PrepareAnswer;
    hide DecidePrepare;
    hide CommitAnswer;
    hide DecideCommit;
    match op
    case Publish(r) => PublishDecided(db, maxPayload, r);
    case CreateChannel(r, timestamp) => CreateDecided(db, r, timestamp);
    case AddMember(r, timestamp) => AddDecided(db, r, timestamp);
    case RemoveMember(r, timestamp) => RemoveDecided(db, r, timestamp);
    case PrepareObject(o, token) => PrepareDecided(db, o, token);
    case CommitObject(o, token) => CommitDecided(db, o, token);
    case _ => OthersDecided(db, maxPayload, op);
  }

  /** Every step of every run leaves the state alone, or was granted and has exactly the effect of its request. */
  lemma {:induction false} StepsAreExplained(maxPayload: nat, run: Run, i: nat)
    requires IsRun(maxPayload, run) && i < |run.ops|
    ensures run.states[i + 1] == run.states[i]
         || (AnswerTo(run.states[i], maxPayload, run.ops[i]) == Ok && Done(run.states[i], run.ops[i], run.states[i + 1]))
  {
    hide Inv;
    hide Apply;
    hide Decide;
    hide AnswerTo;
    hide Done;
    hide InitialDb;
    RunInv(maxPayload, run, i);
    assert Next(maxPayload, run.states[i], run.ops[i], run.states[i + 1]);
    EveryRequestDecided(run.states[i], maxPayload, run.ops[i]);
  }

  /**
   Only the creator of a channel changes who is in it, and then by one member: appended
   at the end, or taken out with the rest in order.
   */
  lemma {:induction false} OnlyTheCreatorChangesMembers(maxPayload: nat, run: Run, i: nat, c: nat)
    requires IsRun(maxPayload, run) && i < |run.ops| && c in run.states[i].channels
    requires c !in run.states[i + 1].channels || run.states[i + 1].channels[c] != run.states[i].channels[c]
    ensures c in run.states[i + 1].channels && (run.ops[i].AddMember? || run.ops[i].RemoveMember?)
    ensures run.ops[i].change.channelId == c
    ensures run.states[i].channels[c].creator == Some(run.ops[i].change.credential.principal)
    ensures run.ops[i].change.credential in run.states[i].tokens
    ensures var before, after := run.states[i].channels[c].members, run.states[i + 1].channels[c].members;
            var target := run.ops[i].change.target;
            if run.ops[i].AddMember? then target !in before && after == before + [target]
            else target !in after && TakenOut(before, target, after)
  {
    hide Next;
    hide InitialDb;
    hide Announced;
    hide TakenOut;
    hide PublishAnswer;
    hide PublishDone;
    hide AsAsked;
    hide CreateAnswer;
    StepsAreExplained(maxPayload, run, i);
    ChannelIdsBelow(maxPayload, run, i, c);
    var db, db', op := run.states[i], run.states[i + 1], run.ops[i];
    if op.Publish? {
      PublishKeepsChannels(db, op.publish, db');
    }
  }

  lemma {:induction false} PublishKeepsChannels(db: Db, r: PublishRequest, db': Db)
    requires PublishDone(db, r, db')
    ensures db'.channels == db.channels
  {
  }

  lemma {:induction false} ChannelIdsBelow(maxPayload: nat, run: Run, i: nat, c: nat)
    requires IsRun(maxPayload, run) && i < |run.states| && c in run.states[i].channels
    ensures c < run.states[i].nextChannelId
  {
    hide IsRun;
    hide Inv;
    RunInv(maxPayload, run, i);
    ReplayOfTable(run.states[i], c);
  }
}
