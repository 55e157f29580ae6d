/**
 The request handlers that change the log: each validates against the state it
 finds under the coordinator lock, builds one batch and commits it.
 */
module Core {
  import opened Types
  import opened Records
  import opened ChannelEvents
  import opened Store
  import opened Tokens
  import opened Log
  import opened LogInvariants
  import opened Requests

  /** Whether, and where, the commit of a batch fails. */
  datatype Fault = Healthy | BeforeCommit | AfterCommit

  /** What survives between two requests. */
  datatype Server = Server(db: Db, generation: nat, fatal: bool)

  const COMMIT_FAILED: Status := Error(Unavailable, true)

  /**
   What a request with this decision leaves behind.  A failed commit is fatal and
   may have been applied; only a reported success raises the generation.
   */
  ghost predicate Effect(before: Server, decision: Decision, fault: Fault, after: Server, status: Status) {
    if before.fatal then status == Reject(Unavailable) && after == before
    else
      match decision
      case Rejected(why) => status == why && after == before.(fatal := after.fatal) && (after.fatal ==> why == CORRUPTION)
      case NoChange => status == Ok && after == before
      case Commit(batch) =>
        match fault
        case Healthy => status == Ok && after == Server(Apply(before.db, batch), before.generation + 1, false)
        case BeforeCommit => status == COMMIT_FAILED && after == before.(fatal := true)
        case AfterCommit => status == COMMIT_FAILED && after == Server(Apply(before.db, batch), before.generation, true)
  }

  /** Whatever fails, a request is one step of the log: its whole batch or nothing. */
  lemma {:induction false} EffectIsStep(maxPayload: nat, before: Server, op: Op, fault: Fault, after: Server, status: Status)
    requires Effect(before, Decide(before.db, maxPayload, op), fault, after, status)
    requires op.PrepareObject? ==> IsBase64UrlToken(op.record.token)
    ensures Next(maxPayload, before.db, op, after.db)
    ensures Inv(before.db) ==> Inv(after.db)
    ensures status == Ok && Decide(before.db, maxPayload, op).Commit? ==>
              after.db == Apply(before.db, Decide(before.db, maxPayload, op).batch) && after.generation == before.generation + 1
    ensures after.generation != before.generation ==> status == Ok
  {
    hide Inv;
    hide Apply;
    hide Decide;
    if Inv(before.db) {
      NextInv(maxPayload, before.db, op, after.db);
    }
  }

  /**
   What a caller can rely on, in terms of what is stored and what was asked: the answer
   of its request, and, when it is granted, exactly its effect, unless the commit fails.
   */
  ghost predicate Honoured(maxPayload: nat, before: Server, op: Op, fault: Fault, after: Server, status: Status) {
    !before.fatal && Inv(before.db) ==>
      var answer := AnswerTo(before.db, maxPayload, op);
      if answer != Ok then status == answer && after == before.(fatal := after.fatal)
      else if NothingToRemove(before.db, op) then status == Ok && after == before
      else
        match fault
        case Healthy => status == Ok && Done(before.db, op, after.db) && after.generation == before.generation + 1 && !after.fatal
        case BeforeCommit => status == COMMIT_FAILED && after == before.(fatal := true)
        case AfterCommit =>
          status == COMMIT_FAILED && Done(before.db, op, after.db) && after.generation == before.generation && after.fatal
  }

  /** Every effect of a decision honours the request. */
  lemma {:induction false} EffectsHonour(maxPayload: nat, before: Server, op: Op)
    ensures forall fault, after, status ::
              Effect(before, Decide(before.db, maxPayload, op), fault, after, status) ==>
                Honoured(maxPayload, before, op, fault, after, status)
  {
    hide Inv;
    hide Apply;
    hide Decide;
    hide AnswerTo;
    hide Done;
    if Inv(before.db) {
      EveryRequestDecided(before.db, maxPayload, op);
    }
  }

  // ---------------------------------------------------------------- helpers of the handlers

  /** Members in the order they are first named, the creator first. */
  method DistinctMembers(creator: U64, requested: seq<U64>) returns (members: seq<U64>)
    ensures members == FirstOccurrences([creator] + requested)
  {
    members := [creator];
    var seen := {creator};
    assert ([creator] + requested)[..1] == [creator];
    assert FirstOccurrences([creator]) == [creator];
    var i := 0;
    while i < |requested|
      invariant 0 <= i <= |requested|
      invariant members == FirstOccurrences(([creator] + requested)[..i + 1])
      invariant forall m :: m in seen <==> m in members
    {
      ghost var upTo := ([creator] + requested)[..i + 2];
      assert upTo[..i + 1] == ([creator] + requested)[..i + 1] && upTo[i + 1] == requested[i];
      if requested[i] !in seen {
        seen := seen + {requested[i]};
        members := members + [requested[i]];
      }
      i := i + 1;
    }
    assert ([creator] + requested)[..|requested| + 1] == [creator] + requested;
  }

  /** Finding a member and erasing it. */
  method EraseMember(members: seq<U64>, target: U64) returns (found: bool, rest: seq<U64>)
    ensures found <==> target in members
    ensures found ==> rest == EraseFirst(members, target)
    ensures !found ==> rest == members
  {
    var i := 0;
    while i < |members| && members[i] != target
      invariant 0 <= i <= |members| && target !in members[..i]
    {
      i := i + 1;
    }
    assert members[..i] + members[i..] == members;
    if i == |members| {
      return false, members;
    }
    EraseSplits(members, target, i);
    return true, members[..i] + members[i + 1..];
  }

  // ---------------------------------------------------------------- object keys

  /** Each identifier is looked up once: `ids` without repetition, `index` saying where. */
  ghost predicate Indexed(keys: seq<ObjectKey>, n: nat, ids: seq<nat>, index: map<nat, nat>)
    requires n <= |keys|
  {
    && (forall i :: 0 <= i < n ==> keys[i].objectId in index)
    && (forall id: nat :: id in index ==> index[id] < |ids| && ids[index[id]] == id)
    && (forall k :: 0 <= k < |ids| ==> exists i :: 0 <= i < n && keys[i].objectId == ids[k])
  }

  method IndexKeys(keys: seq<ObjectKey>) returns (ids: seq<nat>, index: map<nat, nat>)
    ensures Indexed(keys, |keys|, ids, index) && Distinct(ids)
  {
    ids, index := [], map[];
    var i := 0;
    while i < |keys|
      invariant 0 <= i <= |keys| && Indexed(keys, i, ids, index)
      invariant Distinct(ids) && forall k :: 0 <= k < |ids| ==> ids[k] in index
    {
      var id := keys[i].objectId;
      if id !in index {
        index := index[id := |ids|];
        ids := ids + [id];
      }
      i := i + 1;
    }
  }

  /** `GetCommittedObjects`: one answer per identifier, or damage. */
  method GetCommittedObjects(db: Db, ids: seq<nat>) returns (r: Result<seq<Option<StoredObject>>>)
    ensures r.Success? ==> |r.value| == |ids| && forall k :: 0 <= k < |ids| ==>
              r.value[k] == if ids[k] in db.committed then Some(db.committed[ids[k]]) else None
    ensures r.Success? <==> forall k :: 0 <= k < |ids| ==> ids[k] in db.committed ==> ValidObject(db.committed[ids[k]], ids[k])
    ensures r.Failure? ==> r.status == CORRUPTION
  {
    hide ValidObject;
    var objects := [];
    var i := 0;
    while i < |ids|
      invariant 0 <= i <= |ids| && |objects| == i
      invariant forall k :: 0 <= k < i ==> objects[k] == if ids[k] in db.committed then Some(db.committed[ids[k]]) else None
      invariant forall k :: 0 <= k < i ==> ids[k] in db.committed ==> ValidObject(db.committed[ids[k]], ids[k])
    {
      if ids[i] !in db.committed {
        objects := objects + [None];
      } else {
        if !ValidObject(db.committed[ids[i]], ids[i]) {
          return Failure(CORRUPTION);
        }
        objects := objects + [Some(db.committed[ids[i]])];
      }
      i := i + 1;
    }
    return Success(objects);
  }

  /** The deduplicated lookup accepts a key list exactly if each key, looked up on its own, is accepted. */
  method LookUpObjectKeys(db: Db, keys: seq<ObjectKey>) returns (status: Status)
    ensures status == CheckObjectKeys(db, keys)
  {
    hide ValidObject;
    var ids, index := IndexKeys(keys);
    var objects := GetCommittedObjects(db, ids);
    if objects.Failure? {
      var k :| 0 <= k < |ids| && ids[k] in db.committed && !ValidObject(db.committed[ids[k]], ids[k]);
      ghost var i :| 0 <= i < |keys| && keys[i].objectId == ids[k];
      assert !KeyReadable(db, keys[i]);
      return objects.status;
    }
    forall i | 0 <= i < |keys|
      ensures KeyReadable(db, keys[i])
    {
      var k := index[keys[i].objectId];
      assert ids[k] == keys[i].objectId;
    }
    var i := 0;
    while i < |keys|
      invariant 0 <= i <= |keys|
      invariant forall j :: 0 <= j < i ==> KeyOpens(db, keys[j])
    {
      var found := objects.value[index[keys[i].objectId]];
      if found.None? || found.value.token != keys[i].objectToken {
        assert !KeyOpens(db, keys[i]);
        return Reject(NotFound);
      }
      i := i + 1;
    }
    return Ok;
  }

  /** Every key passes exactly if the list does, duplicates included. */
  lemma {:induction false} KeysAcceptedIff(db: Db, keys: seq<ObjectKey>)
    ensures CheckObjectKeys(db, keys) == Ok <==>
              forall i :: 0 <= i < |keys| ==> CheckObjectKeys(db, [keys[i]]) == Ok
  {
    hide ValidObject;
    forall i | 0 <= i < |keys|
      ensures CheckObjectKeys(db, [keys[i]]) == Ok <==> KeyReadable(db, keys[i]) && KeyOpens(db, keys[i])
    {
      assert [keys[i]][0] == keys[i];
    }
  }

  // ---------------------------------------------------------------- the handlers

  class OpenEventCore {
    var db: Db
    var commitGeneration: nat
    var fatal: bool
    const maxPayload: nat

    /** The server as a value. */
    function Now(): Server
      reads this
    {
      Server(db, commitGeneration, fatal)
    }

    constructor (timestamp: nat, maxPayloadBytes: nat)
      ensures Now() == Server(InitialDb(timestamp), 0, false) && maxPayload == maxPayloadBytes && Inv(db)
    {
      db, commitGeneration, fatal, maxPayload := InitialDb(timestamp), 0, false, maxPayloadBytes;
      InitialInv(timestamp);
    }

    /** The batch is written as a whole, then the generation is raised; a failure takes the server down. */
    method CommitBatch(batch: Batch, fault: Fault) returns (status: Status)
      requires !fatal
      modifies this
      ensures Effect(old(Now()), Commit(batch), fault, Now(), status)
    {
      hide Apply;
      if !fault.BeforeCommit? {
        db := Apply(db, batch);
      }
      if !fault.Healthy? {
        fatal := true;
        return COMMIT_FAILED;
      }
      commitGeneration := commitGeneration + 1;
      return Ok;
    }

    /** The client receives exactly the numbers the counter was moved over. */
    method AllocateUuids(count: nat, fault: Fault) returns (status: Status, uuids: seq<nat>)
      modifies this
      ensures Effect(old(Now()), DecideAllocate(old(db), count), fault, Now(), status)
      ensures status == Ok ==>
                |uuids| == count && db.nextUuid == old(db).nextUuid + count
                && forall i :: 0 <= i < |uuids| ==> uuids[i] == old(db).nextUuid + i
      ensures status != Ok ==> uuids == []
      ensures !old(fatal) && fault.Healthy? ==> status == if 1 <= count <= 1024 then Ok else Reject(InvalidArgument)
    {
      uuids := [];
      if fatal {
        return Reject(Unavailable), [];
      }
      if count == 0 || count > MAX_UUID_BATCH {
        return Reject(InvalidArgument), [];
      }
      var first := db.nextUuid;
      ApplyTwo(db, SetNextUuid(first + count), SetNextUuid(0));
      status := CommitBatch([SetNextUuid(first + count)], fault);
      if status != Ok {
        return;
      }
      var offset := 0;
      while offset < count
        invariant 0 <= offset <= count && |uuids| == offset
        invariant forall i :: 0 <= i < offset ==> uuids[i] == first + i
      {
        uuids := uuids + [first + offset];
        offset := offset + 1;
      }
    }

    /** The checks of `BuildPublishBatch`, object keys included. */
    method BuildPublishBatch(r: PublishRequest, sequence: nat) returns (result: Result<Batch>)
      modifies this`fatal
      ensures var channel := CheckChannelWrite(db, r);
              var keys := CheckObjectKeys(db, r.objectKeys);
              result == if channel != Ok then Failure(channel) else if keys != Ok then Failure(keys)
                        else Success(PublishBatch(r, sequence))
      ensures fatal == (old(fatal) || (CheckChannelWrite(db, r) == Ok && CheckObjectKeys(db, r.objectKeys) == CORRUPTION))
      ensures Inv(db) ==>
                (result.Success? <==>
                   && r.channelId != 0 && r.channelId in db.channels && MayWrite(db, r.channelId, r.credential.principal)
                   && AllMembers(db, r.channelId, r.recipients) && KeysMatch(db, r.objectKeys))
      ensures result.Success? && sequence == db.maxSeq + 1 ==> PublishDone(db, r, Apply(db, result.value))
    {
      hide Inv;
      hide Apply;
      hide PublishDone;
      BatchAnswers(db, r);
      hide LoadChannel;
      hide CheckObjectKeys;
      if r.channelId == 0 {
        return Failure(Reject(PermissionDenied));
      }
      var loaded := LoadChannel(db, r.channelId);
      if loaded.Failure? {
        LoadFailure(db, r.channelId);
        return Failure(loaded.status);
      }
      if loaded.value.None? {
        return Failure(Reject(NotFound));
      }
      var channel := loaded.value.value;
      if !CanWrite(channel, r.credential.principal) {
        return Failure(Reject(PermissionDenied));
      }
      var i := 0;
      while i < |r.recipients|
        invariant 0 <= i <= |r.recipients|
        invariant forall j :: 0 <= j < i ==> r.recipients[j] in channel.members
      {
        if r.recipients[i] !in channel.members {
          return Failure(Reject(InvalidArgument));
        }
        i := i + 1;
      }
      assert CheckChannelWrite(db, r) == Ok;
      var keys := LookUpObjectKeys(db, r.objectKeys);
      if keys == CORRUPTION {
        fatal := true;
      }
      if keys != Ok {
        return Failure(keys);
      }
      return Success(PublishBatch(r, sequence));
    }

    /**
     `Publish` (with a sequence number) and `PublishAutoSeq` (without).  A request
     whose call was given up before the commit changes nothing.
     */
    method Publish(r: PublishRequest, active: bool, stillActive: bool, fault: Fault) returns (status: Status, sequence: nat)
      modifies this
      ensures active && stillActive ==> Effect(old(Now()), DecidePublish(old(db), maxPayload, r), fault, Now(), status)
      ensures active && stillActive ==> PublishOutcome(maxPayload, old(Now()), r, fault, Now(), status)
      ensures !active || !stillActive ==> status != Ok && db == old(db) && commitGeneration == old(commitGeneration)
      ensures status == Ok ==> sequence == old(db).maxSeq + 1 && (r.sequence.Some? ==> r.sequence.value == sequence)
    {
      hide CheckChannelWrite;
      hide CheckObjectKeys;
      hide Apply;
      hide PublishBatch;
      hide PublishOutcome;
      hide Inv;
      PublishOutcomes(maxPayload, Now(), r);
      sequence := 0;
      if fatal {
        return Reject(Unavailable), 0;
      }
      if r.credential.principal == 0 || 0 in r.recipients {
        return Reject(InvalidArgument), 0;
      }
      if !active {
        return Reject(Cancelled), 0;
      }
      status := CheckPublish(db, maxPayload, r);
      if status != Ok {
        return;
      }
      var next := db.maxSeq + 1;
      var batch := BuildPublishBatch(r, next);
      if batch.Failure? {
        PublishStatuses(db, r);
        return batch.status, 0;
      }
      if !stillActive {
        return Reject(Cancelled), 0;
      }
      status := CommitBatch(batch.value, fault);
      sequence := next;
    }

    /** A new channel gets the next identifier, its creator first among its distinct members. */
    method CreateChannel(r: ChannelRequest, timestamp: nat, fault: Fault) returns (status: Status, created: Option<Channel>)
      modifies this
      ensures Effect(old(Now()), DecideCreate(old(db), r, timestamp), fault, Now(), status)
      ensures CreateOutcome(old(Now()), r, timestamp, fault, Now(), status)
      ensures status == Ok ==> created == Some(NewChannel(old(db), r))
      ensures status != Ok ==> created == None
    {
      hide CreateOutcome;
      CreateOutcomes(Now(), r, timestamp);
      hide Apply;
      hide Authenticate;
      hide ChannelMutationBatch;
      hide InitializedText;
      created := None;
      if fatal {
        return Reject(Unavailable), None;
      }
      if r.credential.principal == 0 || 0 in r.members || |r.name| == 0 || |r.name| > 255 || |r.protocol| > 255
         || |r.description| > 4096 || |r.members| > MAX_CHANNEL_MEMBERS || r.visibility.Unknown? {
        return Reject(InvalidArgument), None;
      }
      status := Authenticate(db, r.credential);
      if status != Ok {
        return;
      }
      var members := DistinctMembers(r.credential.principal, r.members);
      if |members| > MAX_CHANNEL_MEMBERS {
        return Reject(ResourceExhausted), None;
      }
      var channel := Channel(db.nextChannelId, r.name, r.protocol, r.description, r.visibility,
                             Some(r.credential.principal), members);
      var payload := ChannelInitializedPayload(channel);
      var batch := ChannelMutationBatch(db, channel, payload, timestamp) + [SetNextChannelId(db.nextChannelId + 1)];
      status := CommitBatch(batch, fault);
      if status == Ok {
        created := Some(channel);
      }
    }

    method AddMember(r: MemberRequest, timestamp: nat, fault: Fault) returns (status: Status)
      modifies this
      ensures Effect(old(Now()), DecideAdd(old(db), r, timestamp), fault, Now(), status)
      ensures Honoured(maxPayload, old(Now()), Op.AddMember(r, timestamp), fault, Now(), status)
    {
      hide Honoured;
      EffectsHonour(maxPayload, Now(), Op.AddMember(r, timestamp));
      hide Apply;
      hide LoadOwnedChannel;
      hide ChannelMutationBatch;
      hide MemberText;
      if fatal {
        return Reject(Unavailable);
      }
      var loaded := LoadOwnedChannel(db, r);
      if loaded.Failure? {
        return loaded.status;
      }
      var channel := loaded.value;
      if r.target in channel.members {
        return Reject(AlreadyExists);
      }
      if |channel.members| >= MAX_CHANNEL_MEMBERS {
        return Reject(ResourceExhausted);
      }
      channel := channel.(members := channel.members + [r.target]);
      var payload := MemberChangedPayload("system.member_added", r.target);
      status := CommitBatch(ChannelMutationBatch(db, channel, payload, timestamp), fault);
    }

    method RemoveMember(r: MemberRequest, timestamp: nat, fault: Fault) returns (status: Status)
      modifies this
      ensures Effect(old(Now()), DecideRemove(old(db), r, timestamp), fault, Now(), status)
      ensures Honoured(maxPayload, old(Now()), Op.RemoveMember(r, timestamp), fault, Now(), status)
    {
      hide Honoured;
      EffectsHonour(maxPayload, Now(), Op.RemoveMember(r, timestamp));
      hide Apply;
      hide LoadOwnedChannel;
      hide ChannelMutationBatch;
      hide MemberText;
      if fatal {
        return Reject(Unavailable);
      }
      var loaded := LoadOwnedChannel(db, r);
      if loaded.Failure? {
        return loaded.status;
      }
      var channel := loaded.value;
      if channel.creator == Some(r.target) {
        return Reject(PermissionDenied);
      }
      var found, rest := EraseMember(channel.members, r.target);
      if !found {
        return Ok;
      }
      channel := channel.(members := rest);
      var payload := MemberChangedPayload("system.member_removed", r.target);
      status := CommitBatch(ChannelMutationBatch(db, channel, payload, timestamp), fault);
    }
  }

  lemma {:induction false} BatchAnswers(db: Db, r: PublishRequest)
    ensures Inv(db) ==>
              (CheckChannelWrite(db, r) == Ok && CheckObjectKeys(db, r.objectKeys) == Ok <==>
                 && r.channelId != 0 && r.channelId in db.channels && MayWrite(db, r.channelId, r.credential.principal)
                 && AllMembers(db, r.channelId, r.recipients) && KeysMatch(db, r.objectKeys))
    ensures PublishDone(db, r, Apply(db, PublishBatch(r, db.maxSeq + 1)))
  {
    hide Inv;
    hide Apply;
    hide CheckChannelWrite;
    hide CheckObjectKeys;
    if Inv(db) {
      ChannelWriteAnswers(db, r);
      KeysAnswers(db, r.objectKeys);
    }
    ApplyPublish(db, r);
  }

  /** A granted publish is exactly an admitted one, and leaves the message that was asked for. */
  ghost predicate PublishOutcome(maxPayload: nat, before: Server, r: PublishRequest, fault: Fault, after: Server, status: Status) {
    !before.fatal && Inv(before.db) ==>
      && (status == Ok <==> PublishAdmitted(before.db, maxPayload, r) && fault.Healthy?)
      && (status == Ok ==> PublishDone(before.db, r, after.db))
      && (!PublishAdmitted(before.db, maxPayload, r) ==> status == PublishAnswer(before.db, maxPayload, r))
      && (!PublishAdmitted(before.db, maxPayload, r) ==> after.db == before.db && after.generation == before.generation)
  }

  lemma {:induction false} PublishOutcomes(maxPayload: nat, before: Server, r: PublishRequest)
    ensures forall fault, after, status ::
              Effect(before, DecidePublish(before.db, maxPayload, r), fault, after, status) ==>
                PublishOutcome(maxPayload, before, r, fault, after, status)
  {
    hide Inv;
    hide Apply;
    hide DecidePublish;
    hide PublishAnswer;
    hide PublishAdmitted;
    hide PublishDone;
    if Inv(before.db) {
      PublishDecided(before.db, maxPayload, r);
    }
  }

  /** A channel is created exactly if it is admitted, and is what was asked for. */
  ghost predicate CreateOutcome(before: Server, r: ChannelRequest, timestamp: nat, fault: Fault, after: Server, status: Status) {
    !before.fatal ==>
      && (status == Ok <==> CreateAdmitted(before.db, r) && fault.Healthy?)
      && (status == Ok ==> CreateDone(before.db, r, timestamp, after.db))
      && (status == Ok ==> after.db.channels[before.db.nextChannelId] == NewChannel(before.db, r))
      && (!CreateAdmitted(before.db, r) ==> status == CreateAnswer(before.db, r) && after.db == before.db)
  }

  lemma {:induction false} CreateOutcomes(before: Server, r: ChannelRequest, timestamp: nat)
    ensures forall fault, after, status ::
              Effect(before, DecideCreate(before.db, r, timestamp), fault, after, status) ==>
                CreateOutcome(before, r, timestamp, fault, after, status)
  {
    hide Apply;
    hide DecideCreate;
    hide CreateAnswer;
    hide CreateAdmitted;
    hide AsAsked;
    hide Announced;
    hide NewChannel;
    CreateDecided(before.db, r, timestamp);
  }

  lemma {:induction false} PublishStatuses(db: Db, r: PublishRequest)
    ensures CheckObjectKeys(db, r.objectKeys) != Ok ==> CheckObjectKeys(db, r.objectKeys).Error?
  {
    hide ValidObject;
  }
}
