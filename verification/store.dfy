/**
 The durable state as typed maps, the atomic write batches that change it, and
 the validators every record must pass when it is read back.
 */
module Store {
  import opened Types
  import opened Records
  import opened ChannelEvents
  import opened Tokens

  /** A credential: a principal and one of its tokens. */
  datatype Credential = Credential(principal: U64, token: string)

  datatype Db = Db(
    messages: map<nat, Message>,
    usedUuids: map<nat, nat>,
    channels: map<nat, Channel>,
    tokens: set<Credential>,
    preparing: map<nat, StoredObject>,
    committed: map<nat, StoredObject>,
    maxSeq: nat,
    nextUuid: nat,
    nextChannelId: nat,
    nextObjectId: nat)

  datatype Write =
    | PutMessage(message: Message)
    | PutUsedUuid(uuid: nat, at: nat)
    | PutChannel(channel: Channel)
    | PutToken(credential: Credential)
    | DeleteToken(credential: Credential)
    | PutPreparing(record: StoredObject)
    | PutCommitted(record: StoredObject)
    | DeletePreparing(id: nat)
    | SetMaxSeq(value: nat)
    | SetNextUuid(value: nat)
    | SetNextChannelId(value: nat)
    | SetNextObjectId(value: nat)

  type Batch = seq<Write>

  function ApplyOne(db: Db, w: Write): Db {
    match w
    case PutMessage(m) => db.(messages := db.messages[m.sequence := m])
    case PutUsedUuid(uuid, at) => db.(usedUuids := db.usedUuids[uuid := at])
    case PutChannel(c) => db.(channels := db.channels[c.id := c])
    case PutToken(t) => db.(tokens := db.tokens + {t})
    case DeleteToken(t) => db.(tokens := db.tokens - {t})
    case PutPreparing(o) => db.(preparing := db.preparing[o.id := o])
    case PutCommitted(o) => db.(committed := db.committed[o.id := o])
    case DeletePreparing(id) => db.(preparing := db.preparing - {id})
    case SetMaxSeq(v) => db.(maxSeq := v)
    case SetNextUuid(v) => db.(nextUuid := v)
    case SetNextChannelId(v) => db.(nextChannelId := v)
    case SetNextObjectId(v) => db.(nextObjectId := v)
  }

  /** A batch takes effect as a whole, its writes in order. */
  function Apply(db: Db, batch: Batch): Db
    decreases |batch|
  {
    if |batch| == 0 then db else Apply(ApplyOne(db, batch[0]), batch[1..])
  }

  lemma {:induction false} ApplyConcat(db: Db, a: Batch, b: Batch)
    ensures Apply(db, a + b) == Apply(Apply(db, a), b)
    decreases |a|
  {
    if |a| == 0 {
      assert a + b == b;
    } else {
      assert (a + b)[1..] == a[1..] + b;
      ApplyConcat(ApplyOne(db, a[0]), a[1..], b);
    }
  }

  /** The state of a new store: message 0 announces the log. */
  function InitialDb(timestamp: nat): Db {
    Db(map[0 := Message(0, 0, 0, [], InitializationText(), timestamp, 0, [])], map[0 := 0], map[], {}, map[], map[],
       0, 1, 1, 1)
  }

  // ---------------------------------------------------------------- validators

  /** The checks `ScanMessages` makes on a stored message. */
  predicate ValidStoredMessage(m: Message) {
    && (if m.sequence == 0 then ValidInitializationMessage(m)
        else m.uuid != 0 && m.channelId != 0 && (m.principal == 0 ==> ValidChannelSystemMessage(m)) && 0 !in m.recipients)
    && |m.objectKeys| <= MAX_OBJECT_KEYS
    && forall i :: 0 <= i < |m.objectKeys| ==>
         m.objectKeys[i].objectId != 0 && IsBase64UrlToken(m.objectKeys[i].objectToken)
  }

  predicate ValidStoredChannel(c: Channel) {
    && c.id != 0 && c.creator.Some? && c.creator.value != 0
    && 0 < |c.name| <= 255 && |c.protocol| <= 255 && |c.description| <= 4096
    && !c.visibility.Unknown?
    && c.creator.value in c.members && 0 !in c.members
  }

  /** `ParseObject`: the record is the one the key names and every field is in range. */
  predicate ValidObject(o: StoredObject, id: nat) {
    && o.id == id != 0 && IsBase64UrlToken(o.token) && o.creator != 0
    && 0 < |o.name| <= 255 && 0 < |o.kind| <= 255 && |o.description| <= 4096
    && 0 < o.size <= MAX_OBJECT_BYTES
  }

  /** `LoadChannel`: channel 0 is built in, the others are read and validated. */
  function LoadChannel(db: Db, id: nat): Result<Option<Channel>> {
    if id == 0 then Success(Some(SYSTEM_CHANNEL))
    else if id !in db.channels then Success(None)
    else if db.channels[id].id != id || !ValidStoredChannel(db.channels[id]) then Failure(CORRUPTION)
    else Success(Some(db.channels[id]))
  }

  lemma {:induction false} LoadFailure(db: Db, id: nat)
    ensures LoadChannel(db, id).Failure? ==> LoadChannel(db, id).status == CORRUPTION
  {
  }

  /** `GetUsedUuidSeq`: only UUID 0 may map to sequence 0. */
  function UsedUuidSeq(db: Db, uuid: nat): Result<Option<nat>> {
    if uuid !in db.usedUuids then Success(None)
    else if (uuid == 0) != (db.usedUuids[uuid] == 0) then Failure(CORRUPTION)
    else Success(Some(db.usedUuids[uuid]))
  }

  /** `Validate`: the startup checks on watermarks, message 0 and its UUID mapping. */
  predicate StartupValid(db: Db) {
    && db.nextUuid != 0 && db.nextChannelId != 0 && db.nextObjectId != 0
    && 0 in db.messages && ValidInitializationMessage(db.messages[0])
    && UsedUuidSeq(db, 0) == Success(Some(0))
  }
}
