/**
 The write path of the server: what each request decides, the batch it commits,
 and what every run of the server keeps true of the log and the channel table.
 */
module Log {
  import opened Types
  import opened Records
  import opened ChannelEvents
  import opened Store
  import opened Tokens

  // ---------------------------------------------------------------- requests

  /** `sequence` is the client's choice in Publish and absent in PublishAutoSeq. */
  datatype PublishRequest = PublishRequest(
    credential: Credential,
    channelId: nat,
    sequence: Option<nat>,
    uuid: nat,
    recipients: seq<U64>,
    payload: string,
    objectKeys: seq<ObjectKey>,
    timestamp: nat)

  datatype ChannelRequest = ChannelRequest(
    credential: Credential,
    name: string,
    protocol: string,
    description: string,
    visibility: Visibility,
    members: seq<U64>)

  datatype MemberRequest = MemberRequest(credential: Credential, channelId: nat, target: U64)

  /** One serialized change of the durable state. */
  datatype Op =
    | AllocateUuids(count: nat)
    | Publish(publish: PublishRequest)
    | CreateChannel(create: ChannelRequest, timestamp: nat)
    | AddMember(change: MemberRequest, timestamp: nat)
    | RemoveMember(change: MemberRequest, timestamp: nat)
    | AddToken(credential: Credential)
    | DeleteToken(credential: Credential)
    | PrepareObject(record: StoredObject, token: string)
    | CommitObject(record: StoredObject, token: string)
    | DropPreparing(ids: seq<nat>)

  datatype Decision = Rejected(status: Status) | NoChange | Commit(batch: Batch)

  const MAX_UUID_BATCH := 1024

  function Authenticate(db: Db, c: Credential): Status {
    if c.principal == 0 then Reject(InvalidArgument)
    else if c.token == "" || c !in db.tokens then Reject(Unauthenticated)
    else Ok
  }

  // ---------------------------------------------------------------- decisions

  function DecideAllocate(db: Db, count: nat): Decision {
    if count == 0 || count > MAX_UUID_BATCH then Rejected(Reject(InvalidArgument))
    else Commit([SetNextUuid(db.nextUuid + count)])
  }

  function ValidateAvailableUuid(db: Db, uuid: nat): Status {
    if uuid == 0 || uuid >= db.nextUuid then Reject(InvalidArgument)
    else
      var used := UsedUuidSeq(db, uuid);
      if used.Failure? then used.status
      else if used.value.Some? then Reject(AlreadyExists)
      else Ok
  }

  function ValidateObjectKeysShape(keys: seq<ObjectKey>): Status {
    if |keys| > MAX_OBJECT_KEYS || exists i :: 0 <= i < |keys| && (keys[i].objectId == 0 || keys[i].objectToken == "")
    then Reject(InvalidArgument) else Ok
  }

  /** One key on its own: it names a committed object and carries its token. */
  predicate KeyOpens(db: Db, k: ObjectKey) {
    k.objectId in db.committed && db.committed[k.objectId].token == k.objectToken
  }

  predicate KeyReadable(db: Db, k: ObjectKey) {
    k.objectId in db.committed ==> ValidObject(db.committed[k.objectId], k.objectId)
  }

  /** Every key of a message, duplicates included, must open its object. */
  function CheckObjectKeys(db: Db, keys: seq<ObjectKey>): Status {
    if exists i :: 0 <= i < |keys| && !KeyReadable(db, keys[i]) then CORRUPTION
    else if exists i :: 0 <= i < |keys| && !KeyOpens(db, keys[i]) then Reject(NotFound)
    else Ok
  }

  function CheckChannelWrite(db: Db, r: PublishRequest): Status {
    if r.channelId == 0 then Reject(PermissionDenied)
    else
      var loaded := LoadChannel(db, r.channelId);
      if loaded.Failure? then loaded.status
      else if loaded.value.None? then Reject(NotFound)
      else if !CanWrite(loaded.value.value, r.credential.principal) then Reject(PermissionDenied)
      else if exists i :: 0 <= i < |r.recipients| && r.recipients[i] !in loaded.value.value.members
      then Reject(InvalidArgument)
      else Ok
  }

  function PublishedMessage(r: PublishRequest, sequence: nat): Message {
    Message(sequence, r.channelId, r.credential.principal, r.recipients, r.payload, r.timestamp, r.uuid, r.objectKeys)
  }

  function PublishBatch(r: PublishRequest, sequence: nat): Batch {
    [PutMessage(PublishedMessage(r, sequence)), PutUsedUuid(r.uuid, sequence), SetMaxSeq(sequence)]
  }

  /** The checks before the channel is looked at, in the order the server makes them. */
  function CheckPublish(db: Db, maxPayload: nat, r: PublishRequest): Status {
    if r.credential.principal == 0 || 0 in r.recipients then Reject(InvalidArgument)
    else if Authenticate(db, r.credential) != Ok then Authenticate(db, r.credential)
    else if ValidateAvailableUuid(db, r.uuid) != Ok then ValidateAvailableUuid(db, r.uuid)
    else if |r.payload| > maxPayload then Reject(ResourceExhausted)
    else if ValidateObjectKeysShape(r.objectKeys) != Ok then ValidateObjectKeysShape(r.objectKeys)
    else if r.sequence.Some? && r.sequence.value != db.maxSeq + 1 then Reject(Aborted)
    else Ok
  }

  function DecidePublish(db: Db, maxPayload: nat, r: PublishRequest): Decision {
    if CheckPublish(db, maxPayload, r) != Ok then Rejected(CheckPublish(db, maxPayload, r))
    else if CheckChannelWrite(db, r) != Ok then Rejected(CheckChannelWrite(db, r))
    else if CheckObjectKeys(db, r.objectKeys) != Ok then Rejected(CheckObjectKeys(db, r.objectKeys))
    else Commit(PublishBatch(r, db.maxSeq + 1))
  }

  function SystemMessage(db: Db, channelId: nat, payload: string, timestamp: nat): Message {
    Message(db.maxSeq + 1, channelId, 0, [], payload, timestamp, db.nextUuid, [])
  }

  /** Every change of a channel record travels with the system event that announces it. */
  function ChannelMutationBatch(db: Db, c: Channel, payload: string, timestamp: nat): Batch {
    [PutChannel(c), PutMessage(SystemMessage(db, c.id, payload, timestamp)),
     PutUsedUuid(db.nextUuid, db.maxSeq + 1), SetMaxSeq(db.maxSeq + 1), SetNextUuid(db.nextUuid + 1)]
  }

  function NewChannel(db: Db, r: ChannelRequest): Channel {
    Channel(db.nextChannelId, r.name, r.protocol, r.description, r.visibility, Some(r.credential.principal),
            FirstOccurrences([r.credential.principal] + r.members))
  }

  function DecideCreate(db: Db, r: ChannelRequest, timestamp: nat): Decision {
    if r.credential.principal == 0 || 0 in r.members || |r.name| == 0 || |r.name| > 255 || |r.protocol| > 255
       || |r.description| > 4096 || |r.members| > MAX_CHANNEL_MEMBERS || r.visibility.Unknown?
    then Rejected(Reject(InvalidArgument))
    else if Authenticate(db, r.credential) != Ok then Rejected(Authenticate(db, r.credential))
    else
      var c := NewChannel(db, r);
      if |c.members| > MAX_CHANNEL_MEMBERS then Rejected(Reject(ResourceExhausted))
      else Commit(ChannelMutationBatch(db, c, InitializedText(c), timestamp) + [SetNextChannelId(db.nextChannelId + 1)])
  }

  /** The checks shared by the two membership changes; `Success` carries the stored channel. */
  function LoadOwnedChannel(db: Db, r: MemberRequest): Result<Channel> {
    if r.credential.principal == 0 || r.target == 0 then Failure(Reject(InvalidArgument))
    else if Authenticate(db, r.credential) != Ok then Failure(Authenticate(db, r.credential))
    else if r.channelId == 0 then Failure(Reject(PermissionDenied))
    else
      var loaded := LoadChannel(db, r.channelId);
      if loaded.Failure? then Failure(loaded.status)
      else if loaded.value.None? then Failure(Reject(NotFound))
      else if loaded.value.value.creator != Some(r.credential.principal) then Failure(Reject(PermissionDenied))
      else Success(loaded.value.value)
  }

  function DecideAdd(db: Db, r: MemberRequest, timestamp: nat): Decision {
    var loaded := LoadOwnedChannel(db, r);
    if loaded.Failure? then Rejected(loaded.status)
    else if r.target in loaded.value.members then Rejected(Reject(AlreadyExists))
    else if |loaded.value.members| >= MAX_CHANNEL_MEMBERS then Rejected(Reject(ResourceExhausted))
    else
      var c := loaded.value.(members := loaded.value.members + [r.target]);
      Commit(ChannelMutationBatch(db, c, MemberText("system.member_added", r.target), timestamp))
  }

  function DecideRemove(db: Db, r: MemberRequest, timestamp: nat): Decision {
    var loaded := LoadOwnedChannel(db, r);
    if loaded.Failure? then Rejected(loaded.status)
    else if loaded.value.creator == Some(r.target) then Rejected(Reject(PermissionDenied))
    else if r.target !in loaded.value.members then NoChange
    else
      var c := loaded.value.(members := EraseFirst(loaded.value.members, r.target));
      Commit(ChannelMutationBatch(db, c, MemberText("system.member_removed", r.target), timestamp))
  }

  /** The first commit of an object write: its metadata and the bump of the identifier counter. */
  function DecidePrepare(db: Db, o: StoredObject, token: string): Decision {
    if o.creator == 0 || |o.name| == 0 || |o.name| > 255 || |o.kind| == 0 || |o.kind| > 255
       || |o.description| > 4096 || o.size == 0 || o.size > MAX_OBJECT_BYTES
    then Rejected(Reject(InvalidArgument))
    else if Authenticate(db, Credential(o.creator, token)) != Ok
    then Rejected(Authenticate(db, Credential(o.creator, token)))
    else Commit([PutPreparing(o.(id := db.nextObjectId)), SetNextObjectId(db.nextObjectId + 1)])
  }

  /** The last commit: the credential must still hold and the metadata must be untouched. */
  function DecideCommit(db: Db, o: StoredObject, token: string): Decision {
    if Authenticate(db, Credential(o.creator, token)) != Ok
    then Rejected(Authenticate(db, Credential(o.creator, token)))
    else if o.id !in db.preparing || !ValidObject(db.preparing[o.id], o.id) || db.preparing[o.id] != o
    then Rejected(CORRUPTION)
    else Commit([DeletePreparing(o.id), PutCommitted(o)])
  }

  function Deletes(ids: seq<nat>): (b: Batch)
    ensures |b| == |ids| && forall i :: 0 <= i < |b| ==> b[i] == DeletePreparing(ids[i])
  {
    seq(|ids|, i requires 0 <= i < |ids| => DeletePreparing(ids[i]))
  }

  function Decide(db: Db, maxPayload: nat, op: Op): Decision {
    match op
    case AllocateUuids(count) => DecideAllocate(db, count)
    case Publish(r) => DecidePublish(db, maxPayload, r)
    case CreateChannel(r, ts) => DecideCreate(db, r, ts)
    case AddMember(r, ts) => DecideAdd(db, r, ts)
    case RemoveMember(r, ts) => DecideRemove(db, r, ts)
    case AddToken(c) =>
      if c.principal == 0 then Rejected(Reject(InvalidArgument)) else Commit([PutToken(c)])
    case DeleteToken(c) =>
      if c.principal == 0 || c.token == "" then Rejected(Reject(InvalidArgument)) else Commit([Write.DeleteToken(c)])
    case PrepareObject(o, token) => DecidePrepare(db, o, token)
    case CommitObject(o, token) => DecideCommit(db, o, token)
    case DropPreparing(ids) => Commit(Deletes(ids))
  }

  /**
   One step of the server.  A commit that reports failure may or may not have
   been applied, and a request may be given up before it commits, so every
   operation may also leave the state as it was.
   */
  predicate Next(maxPayload: nat, db: Db, op: Op, db': Db) {
    || db' == db
    || (Decide(db, maxPayload, op).Commit? && db' == Apply(db, Decide(db, maxPayload, op).batch)
        && (op.PrepareObject? ==> IsBase64UrlToken(op.record.token)))
  }
}
