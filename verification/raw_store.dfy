/**
 The byte-keyed store underneath the typed maps: three column families, every
 record under its own key.  Serialized records are values that parse back to what
 was stored; numbers are the eight bytes the encoder makes of them.
 */
module RawStore {
  import opened Types
  import opened Records
  import opened Encoding
  import opened Store
  import opened Scan
  import opened Paging

  datatype Family = Meta | Messages | Objects

  datatype Cell =
    | Number(bytes: Bytes)
    | ChannelCell(channel: Channel)
    | MessageCell(message: Message)
    | ObjectCell(record: StoredObject)
    | Mark

  type Table = map<Bytes, Cell>

  datatype Raw = Raw(meta: Table, messages: Table, objects: Table)

  datatype RawWrite = Put(family: Family, key: Bytes, cell: Cell) | Delete(family: Family, key: Bytes)

  function TableOf(raw: Raw, f: Family): Table {
    match f
    case Meta => raw.meta
    case Messages => raw.messages
    case Objects => raw.objects
  }

  function WithTable(raw: Raw, f: Family, t: Table): (r: Raw)
    ensures TableOf(r, f) == t && forall g :: g != f ==> TableOf(r, g) == TableOf(raw, g)
  {
    match f
    case Meta => raw.(meta := t)
    case Messages => raw.(messages := t)
    case Objects => raw.(objects := t)
  }

  function Get(raw: Raw, f: Family, key: Bytes): Option<Cell> {
    if key in TableOf(raw, f) then Some(TableOf(raw, f)[key]) else None
  }

  function ApplyRawOne(raw: Raw, w: RawWrite): Raw {
    match w
    case Put(f, key, cell) => WithTable(raw, f, TableOf(raw, f)[key := cell])
    case Delete(f, key) => WithTable(raw, f, TableOf(raw, f) - {key})
  }

  function ApplyRaw(raw: Raw, batch: seq<RawWrite>): Raw
    decreases |batch|
  {
    if |batch| == 0 then raw else ApplyRaw(ApplyRawOne(raw, batch[0]), batch[1..])
  }

  // ---------------------------------------------------------------- where things are kept

  /** One addressable record of the typed state. */
  datatype Place =
    | SchemaAt
    | MaxSeqAt
    | NextUuidAt
    | NextChannelAt
    | NextObjectAt
    | ChannelAt(id: U64)
    | TokenAt(principal: U64, token: Bytes)
    | UuidAt(id: U64)
    | MessageAt(id: U64)
    | PreparingAt(id: U64)
    | CommittedAt(id: U64)

  const SCHEMA_KEY: Bytes := "meta:schema_version"
  const SCHEMA_VERSION: U64 := 6

  function FamilyOf(p: Place): Family {
    match p
    case MessageAt(_) => Messages
    case PreparingAt(_) => Objects
    case CommittedAt(_) => Objects
    case _ => Meta
  }

  function KeyOf(p: Place): Bytes {
    match p
    case SchemaAt => SCHEMA_KEY
    case MaxSeqAt => MAX_SEQ_KEY
    case NextUuidAt => NEXT_UUID_KEY
    case NextChannelAt => NEXT_CHANNEL_ID_KEY
    case NextObjectAt => NEXT_OBJECT_ID_KEY
    case ChannelAt(id) => NumericKey(CHANNEL_PREFIX, id)
    case TokenAt(principal, token) => TokenKey(principal, token)
    case UuidAt(id) => NumericKey(UUID_PREFIX, id)
    case MessageAt(id) => NumericKey(MESSAGE_PREFIX, id)
    case PreparingAt(id) => NumericKey(PREPARING_PREFIX, id)
    case CommittedAt(id) => NumericKey(COMMITTED_PREFIX, id)
  }

  /** The keys as they stand in the store. */
  lemma {:induction false} KeysOnDisk(id: U64, token: Bytes)
    ensures KeyOf(ChannelAt(id)) == "ch/" + Encoded(id) && KeyOf(TokenAt(id, token)) == "token/" + Encoded(id) + token
    ensures KeyOf(UuidAt(id)) == "uuid/" + Encoded(id) && KeyOf(MessageAt(id)) == "msg/" + Encoded(id)
    ensures KeyOf(PreparingAt(id)) == "preparing/" + Encoded(id) && KeyOf(CommittedAt(id)) == "object/" + Encoded(id)
    ensures KeyOf(MaxSeqAt) == "meta:max_seq" && KeyOf(NextUuidAt) == "meta:next_uuid" && KeyOf(SchemaAt) == "meta:schema_version"
    ensures KeyOf(NextChannelAt) == "meta:next_channel_id" && KeyOf(NextObjectAt) == "meta:next_object_id"
  {
  }

  /** The kinds of place of one column family differ in the first byte of the key, the counters in full. */
  predicate IsCounter(p: Place) {
    p.SchemaAt? || p.MaxSeqAt? || p.NextUuidAt? || p.NextChannelAt? || p.NextObjectAt?
  }

  function FirstByte(p: Place): Byte {
    match p
    case ChannelAt(_) => 'c'
    case TokenAt(_, _) => 't'
    case UuidAt(_) => 'u'
    case MessageAt(_) => 'm'
    case PreparingAt(_) => 'p'
    case CommittedAt(_) => 'o'
    case _ => 'm'
  }

  lemma {:induction false} KeyStarts(p: Place)
    ensures |KeyOf(p)| > 0 && KeyOf(p)[0] == FirstByte(p)
  {
    hide Encoded;
  }

  lemma {:induction false} NumericKeyInjective(prefix: Bytes, a: U64, b: U64)
    requires NumericKey(prefix, a) == NumericKey(prefix, b)
    ensures a == b
  {
    NumericKeyInverse(prefix, a);
    NumericKeyInverse(prefix, b);
  }

  lemma {:induction false} CountersDiffer(a: Place, b: Place)
    requires IsCounter(a) && IsCounter(b) && KeyOf(a) == KeyOf(b)
    ensures a == b
  {
    assert |SCHEMA_KEY| == 19 && |MAX_SEQ_KEY| == 12 && |NEXT_UUID_KEY| == 14;
    assert |NEXT_CHANNEL_ID_KEY| == 20 && |NEXT_OBJECT_ID_KEY| == 19;
    assert SCHEMA_KEY[5] == 's' && NEXT_OBJECT_ID_KEY[5] == 'n';
  }

  /** Two records never share a key of one column family. */
  lemma {:induction false} KeysDisjoint(a: Place, b: Place)
    requires FamilyOf(a) == FamilyOf(b) && KeyOf(a) == KeyOf(b)
    ensures a == b
  {
    hide NumericKey;
    hide TokenKey;
    KeyStarts(a);
    KeyStarts(b);
    if IsCounter(a) && IsCounter(b) {
      CountersDiffer(a, b);
    } else {
      match a
      case ChannelAt(id) => NumericKeyInjective(CHANNEL_PREFIX, id, b.id);
      case TokenAt(principal, token) => TokenKeyInjective(principal, token, b.principal, b.token);
      case UuidAt(id) => NumericKeyInjective(UUID_PREFIX, id, b.id);
      case MessageAt(id) => NumericKeyInjective(MESSAGE_PREFIX, id, b.id);
      case PreparingAt(id) => NumericKeyInjective(PREPARING_PREFIX, id, b.id);
      case CommittedAt(id) => NumericKeyInjective(COMMITTED_PREFIX, id, b.id);
      case _ => assert false;
    }
  }

  // ---------------------------------------------------------------- refinement

  predicate IsBytes(s: string) {
    forall i :: 0 <= i < |s| ==> s[i] as int < 256
  }

  function NumberCell(n: nat): Cell
    requires n < TWO64
  {
    Number(Encoded(n))
  }

  /** Everything numbered fits 64 bits, tokens are bytes. */
  ghost predicate Fits(db: Db) {
    && db.maxSeq < TWO64 && db.nextUuid < TWO64 && db.nextChannelId < TWO64 && db.nextObjectId < TWO64
    && (forall u: nat :: u in db.usedUuids ==> u < TWO64 && db.usedUuids[u] < TWO64)
    && (forall c: nat :: c in db.channels ==> c < TWO64)
    && (forall s: nat :: s in db.messages ==> s < TWO64)
    && (forall id: nat :: id in db.preparing || id in db.committed ==> id < TWO64)
    && (forall t: Credential :: t in db.tokens ==> IsBytes(t.token))
  }

  /** The value the typed state has at a place. */
  ghost function ValueAt(db: Db, p: Place): Option<Cell>
    requires Fits(db)
  {
    match p
    case SchemaAt => Some(NumberCell(SCHEMA_VERSION))
    case MaxSeqAt => Some(NumberCell(db.maxSeq))
    case NextUuidAt => Some(NumberCell(db.nextUuid))
    case NextChannelAt => Some(NumberCell(db.nextChannelId))
    case NextObjectAt => Some(NumberCell(db.nextObjectId))
    case ChannelAt(id) => if id in db.channels then Some(ChannelCell(db.channels[id])) else None
    case TokenAt(principal, token) => if Credential(principal, token) in db.tokens then Some(Mark) else None
    case UuidAt(id) => if id in db.usedUuids then Some(NumberCell(db.usedUuids[id])) else None
    case MessageAt(id) => if id in db.messages then Some(MessageCell(db.messages[id])) else None
    case PreparingAt(id) => if id in db.preparing then Some(ObjectCell(db.preparing[id])) else None
    case CommittedAt(id) => if id in db.committed then Some(ObjectCell(db.committed[id])) else None
  }

  ghost predicate Known(f: Family, key: Bytes) {
    exists p: Place :: FamilyOf(p) == f && KeyOf(p) == key
  }

  /** The bytes hold exactly the typed state: each record at its place, and nothing else. */
  ghost predicate Refines(raw: Raw, db: Db) {
    && Fits(db)
    && (forall p: Place :: Get(raw, FamilyOf(p), KeyOf(p)) == ValueAt(db, p))
    && (forall f: Family, key: Bytes :: key in TableOf(raw, f) ==> Known(f, key))
  }

  predicate FitsWrite(w: Write) {
    match w
    case PutMessage(m) => m.sequence < TWO64
    case PutUsedUuid(uuid, at) => uuid < TWO64 && at < TWO64
    case PutChannel(c) => c.id < TWO64
    case PutToken(t) => IsBytes(t.token)
    case DeleteToken(t) => IsBytes(t.token)
    case PutPreparing(o) => o.id < TWO64
    case PutCommitted(o) => o.id < TWO64
    case DeletePreparing(id) => id < TWO64
    case SetMaxSeq(v) => v < TWO64
    case SetNextUuid(v) => v < TWO64
    case SetNextChannelId(v) => v < TWO64
    case SetNextObjectId(v) => v < TWO64
  }

  function PlaceOf(w: Write): Place
    requires FitsWrite(w)
  {
    match w
    case PutMessage(m) => MessageAt(m.sequence)
    case PutUsedUuid(uuid, _) => UuidAt(uuid)
    case PutChannel(c) => ChannelAt(c.id)
    case PutToken(t) => TokenAt(t.principal, t.token)
    case DeleteToken(t) => TokenAt(t.principal, t.token)
    case PutPreparing(o) => PreparingAt(o.id)
    case PutCommitted(o) => CommittedAt(o.id)
    case DeletePreparing(id) => PreparingAt(id)
    case SetMaxSeq(_) => MaxSeqAt
    case SetNextUuid(_) => NextUuidAt
    case SetNextChannelId(_) => NextChannelAt
    case SetNextObjectId(_) => NextObjectAt
  }

  function CellOf(w: Write): Option<Cell>
    requires FitsWrite(w)
  {
    match w
    case PutMessage(m) => Some(MessageCell(m))
    case PutUsedUuid(_, at) => Some(NumberCell(at))
    case PutChannel(c) => Some(ChannelCell(c))
    case PutToken(_) => Some(Mark)
    case DeleteToken(_) => None
    case PutPreparing(o) => Some(ObjectCell(o))
    case PutCommitted(o) => Some(ObjectCell(o))
    case DeletePreparing(_) => None
    case SetMaxSeq(v) => Some(NumberCell(v))
    case SetNextUuid(v) => Some(NumberCell(v))
    case SetNextChannelId(v) => Some(NumberCell(v))
    case SetNextObjectId(v) => Some(NumberCell(v))
  }

  /** The batch entry a typed write becomes. */
  function Translate(w: Write): RawWrite
    requires FitsWrite(w)
  {
    var p := PlaceOf(w);
    if CellOf(w).Some? then Put(FamilyOf(p), KeyOf(p), CellOf(w).value) else Delete(FamilyOf(p), KeyOf(p))
  }

  function TranslateAll(batch: Batch): (r: seq<RawWrite>)
    requires forall i :: 0 <= i < |batch| ==> FitsWrite(batch[i])
    ensures |r| == |batch|
  {
    if |batch| == 0 then [] else [Translate(batch[0])] + TranslateAll(batch[1..])
  }

  lemma {:induction false} WriteFits(db: Db, w: Write)
    requires Fits(db) && FitsWrite(w)
    ensures Fits(ApplyOne(db, w))
  {
  }

  /** A typed write changes one place and no other. */
  lemma {:induction false} WriteChangesOnePlace(db: Db, w: Write, p: Place)
    requires Fits(db) && FitsWrite(w)
    ensures Fits(ApplyOne(db, w))
    ensures ValueAt(ApplyOne(db, w), p) == if p == PlaceOf(w) then CellOf(w) else ValueAt(db, p)
  {
    WriteFits(db, w);
    hide Encoded;
  }

  /** A byte write changes the value under its key and no other, in any family. */
  lemma {:induction false} PutChangesOneKey(raw: Raw, w: RawWrite, f: Family, key: Bytes)
    ensures Get(ApplyRawOne(raw, w), f, key) ==
              if f == w.family && key == w.key then (if w.Put? then Some(w.cell) else None) else Get(raw, f, key)
  {
  }

  /** Each write keeps the bytes a representation of the typed state. */
  lemma {:induction false} WriteRefines(raw: Raw, db: Db, w: Write)
    requires Refines(raw, db) && FitsWrite(w)
    ensures Refines(ApplyRawOne(raw, Translate(w)), ApplyOne(db, w))
  {
    hide KeyOf;
    hide ValueAt;
    hide Fits;
    hide PlaceOf;
    hide CellOf;
    hide ApplyOne;
    hide FitsWrite;
    hide ApplyRawOne;
    hide Get;
    var raw', db' := ApplyRawOne(raw, Translate(w)), ApplyOne(db, w);
    WriteFits(db, w);
    forall p: Place
      ensures Get(raw', FamilyOf(p), KeyOf(p)) == ValueAt(db', p)
    {
      WriteChangesOnePlace(db, w, p);
      PutChangesOneKey(raw, Translate(w), FamilyOf(p), KeyOf(p));
      if FamilyOf(p) == FamilyOf(PlaceOf(w)) && KeyOf(p) == KeyOf(PlaceOf(w)) {
        KeysDisjoint(p, PlaceOf(w));
      }
    }
    forall f: Family, key: Bytes | key in TableOf(raw', f)
      ensures Known(f, key)
    {
      NewKeysKnown(raw, Translate(w), f, key);
    }
  }

  lemma {:induction false} NewKeysKnown(raw: Raw, w: RawWrite, f: Family, key: Bytes)
    requires key in TableOf(ApplyRawOne(raw, w), f)
    ensures key in TableOf(raw, f) || (w.Put? && w.family == f && w.key == key)
  {
  }

  /** A whole batch refines: applying its bytes is applying its meaning. */
  lemma {:induction false} BatchRefines(raw: Raw, db: Db, batch: Batch)
    requires Refines(raw, db) && forall i :: 0 <= i < |batch| ==> FitsWrite(batch[i])
    ensures Refines(ApplyRaw(raw, TranslateAll(batch)), Apply(db, batch))
    decreases |batch|
  {
    hide Refines;
    hide Translate;
    hide ApplyOne;
    hide ApplyRawOne;
    if |batch| > 0 {
      WriteRefines(raw, db, batch[0]);
      BatchRefines(ApplyRawOne(raw, Translate(batch[0])), ApplyOne(db, batch[0]), batch[1..]);
      assert TranslateAll(batch)[1..] == TranslateAll(batch[1..]);
    }
  }

  // ---------------------------------------------------------------- a new store

  /** The counters of `InitializeNew`, before its two records. */
  function FreshCounters(): Raw {
    Raw(map[SCHEMA_KEY := NumberCell(SCHEMA_VERSION), MAX_SEQ_KEY := NumberCell(0), NEXT_UUID_KEY := NumberCell(1),
            NEXT_CHANNEL_ID_KEY := NumberCell(1), NEXT_OBJECT_ID_KEY := NumberCell(1)], map[], map[])
  }

  const BLANK: Db := Db(map[], map[], map[], {}, map[], map[], 0, 1, 1, 1)

  /** The first batch: five counters, the UUID of message 0 and message 0. */
  function InitialRaw(first: Message): Raw
    requires first.sequence == 0
  {
    ApplyRaw(FreshCounters(), TranslateAll([PutUsedUuid(0, 0), PutMessage(first)]))
  }

  lemma {:induction false} FreshKeys(key: Bytes)
    ensures key in FreshCounters().meta ==> exists p: Place :: IsCounter(p) && KeyOf(p) == key
    ensures key in FreshCounters().meta ==> |key| > 0 && key[0] == 'm'
  {
    hide Encoded;
    assert KeyOf(SchemaAt) == SCHEMA_KEY && KeyOf(MaxSeqAt) == MAX_SEQ_KEY && KeyOf(NextUuidAt) == NEXT_UUID_KEY;
    assert KeyOf(NextChannelAt) == NEXT_CHANNEL_ID_KEY && KeyOf(NextObjectAt) == NEXT_OBJECT_ID_KEY;
  }

  lemma {:induction false} CounterAt(p: Place)
    requires IsCounter(p)
    ensures Get(FreshCounters(), FamilyOf(p), KeyOf(p)) == ValueAt(BLANK, p)
  {
    hide Encoded;
    var m := FreshCounters().meta;
    assert |SCHEMA_KEY| == 19 && |MAX_SEQ_KEY| == 12 && |NEXT_UUID_KEY| == 14;
    assert |NEXT_CHANNEL_ID_KEY| == 20 && |NEXT_OBJECT_ID_KEY| == 19;
    assert SCHEMA_KEY[5] == 's' && NEXT_OBJECT_ID_KEY[5] == 'n';
  }

  lemma {:induction false} FreshRefines()
    ensures Refines(FreshCounters(), BLANK)
  {
    forall p: Place
      ensures Get(FreshCounters(), FamilyOf(p), KeyOf(p)) == ValueAt(BLANK, p)
    {
      FreshValue(p);
    }
    forall f: Family, key: Bytes | key in TableOf(FreshCounters(), f)
      ensures Known(f, key)
    {
      FreshKnown(f, key);
    }
  }

  lemma {:induction false} FreshValue(p: Place)
    ensures Get(FreshCounters(), FamilyOf(p), KeyOf(p)) == ValueAt(BLANK, p)
  {
    if IsCounter(p) {
      CounterAt(p);
    } else {
      hide KeyOf;
      KeyStarts(p);
      FreshKeys(KeyOf(p));
    }
  }

  lemma {:induction false} FreshKnown(f: Family, key: Bytes)
    requires key in TableOf(FreshCounters(), f)
    ensures Known(f, key)
  {
    hide KeyOf;
    FreshKeys(key);
  }

  /** The first batch of a new store represents the initial state. */
  lemma {:induction false} InitialRefines(timestamp: nat)
    ensures var db := InitialDb(timestamp); 0 in db.messages && db.messages[0].sequence == 0
    ensures Refines(InitialRaw(InitialDb(timestamp).messages[0]), InitialDb(timestamp))
  {
    hide Refines;
    var first := InitialDb(timestamp).messages[0];
    var batch := [PutUsedUuid(0, 0), PutMessage(first)];
    FreshRefines();
    BatchRefines(FreshCounters(), BLANK, batch);
    var mid := ApplyOne(BLANK, batch[0]);
    assert batch[1..] == [PutMessage(first)] && batch[1..][1..] == [];
    assert Apply(BLANK, batch) == Apply(mid, batch[1..]) == ApplyOne(mid, batch[1]);
    assert ApplyOne(mid, batch[1]) == InitialDb(timestamp);
  }

  // ---------------------------------------------------------------- readers

  /** `GetRequiredUint64`: a missing or misshapen counter is damage. */
  function GetNumber(raw: Raw, key: Bytes): Result<U64> {
    match Get(raw, Meta, key)
    case Some(Number(bytes)) => if |bytes| == 8 then Success(Decoded(bytes)) else Failure(CORRUPTION)
    case _ => Failure(CORRUPTION)
  }

  function HasToken(raw: Raw, principal: U64, token: Bytes): Result<bool> {
    match Get(raw, Meta, TokenKey(principal, token))
    case None => Success(false)
    case Some(cell) => if cell.Mark? then Success(true) else Failure(CORRUPTION)
  }

  function GetUsedUuidSeq(raw: Raw, uuid: U64): Result<Option<nat>> {
    match Get(raw, Meta, NumericKey(UUID_PREFIX, uuid))
    case None => Success(None)
    case Some(Number(bytes)) =>
      if |bytes| != 8 || (uuid == 0) != (Decoded(bytes) == 0) then Failure(CORRUPTION) else Success(Some(Decoded(bytes)))
    case Some(_) => Failure(CORRUPTION)
  }

  function GetChannel(raw: Raw, id: U64): Result<Option<Channel>> {
    match Get(raw, Meta, NumericKey(CHANNEL_PREFIX, id))
    case None => Success(None)
    case Some(ChannelCell(c)) => if c.id == id && ValidStoredChannel(c) then Success(Some(c)) else Failure(CORRUPTION)
    case Some(_) => Failure(CORRUPTION)
  }

  /** `GetPreparingObject` and `GetCommittedObject`. */
  function GetObject(raw: Raw, prefix: Bytes, id: U64): Result<Option<StoredObject>> {
    match Get(raw, Objects, NumericKey(prefix, id))
    case None => Success(None)
    case Some(ObjectCell(o)) => if ValidObject(o, id) then Success(Some(o)) else Failure(CORRUPTION)
    case Some(_) => Failure(CORRUPTION)
  }

  lemma {:induction false} NumberReads(n: U64)
    ensures |Encoded(n)| == 8 && Decoded(Encoded(n)) == n
  {
    RoundTrip(n, Encoded(n));
  }

  /** Every reader answers from the bytes what the typed state says. */
  lemma {:induction false} ReadersAgree(raw: Raw, db: Db, id: U64, token: Bytes)
    requires Refines(raw, db)
    ensures GetNumber(raw, MAX_SEQ_KEY) == Success(db.maxSeq) && GetNumber(raw, NEXT_UUID_KEY) == Success(db.nextUuid)
    ensures GetNumber(raw, NEXT_CHANNEL_ID_KEY) == Success(db.nextChannelId)
    ensures GetNumber(raw, NEXT_OBJECT_ID_KEY) == Success(db.nextObjectId)
    ensures HasToken(raw, id, token) == Success(Credential(id, token) in db.tokens)
    ensures GetUsedUuidSeq(raw, id) == UsedUuidSeq(db, id)
    ensures id != 0 ==> GetChannel(raw, id) == LoadChannel(db, id)
  {
    hide ValidStoredChannel;
    hide Encoded;
    hide Decoded;
    hide TokenKey;
    hide NumericKey;
    assert Fits(db);
    NumberReads(db.maxSeq);
    NumberReads(db.nextUuid);
    NumberReads(db.nextChannelId);
    NumberReads(db.nextObjectId);
    CellAt(raw, db, MaxSeqAt);
    CellAt(raw, db, NextUuidAt);
    CellAt(raw, db, NextChannelAt);
    CellAt(raw, db, NextObjectAt);
    CellAt(raw, db, TokenAt(id, token));
    CellAt(raw, db, UuidAt(id));
    CellAt(raw, db, ChannelAt(id));
    if id in db.usedUuids {
      NumberReads(db.usedUuids[id]);
    }
  }

  /** On arbitrary contents a cell that is not of the kind its key promises is reported as damage. */
  lemma {:induction false} DamageIsReported(raw: Raw, key: Bytes, id: U64, token: Bytes)
    ensures !(exists bytes :: |bytes| == 8 && Get(raw, Meta, key) == Some(Number(bytes))) ==> GetNumber(raw, key) == Failure(CORRUPTION)
    ensures var cell := Get(raw, Meta, KeyOf(TokenAt(id, token)));
            cell.Some? && cell.value != Mark ==> HasToken(raw, id, token) == Failure(CORRUPTION)
    ensures var cell := Get(raw, Meta, KeyOf(UuidAt(id)));
            cell.Some? && !(cell.value.Number? && |cell.value.bytes| == 8 && (Decoded(cell.value.bytes) == 0 <==> id == 0)) ==>
              GetUsedUuidSeq(raw, id) == Failure(CORRUPTION)
    ensures var cell := Get(raw, Meta, KeyOf(ChannelAt(id)));
            cell.Some? && !(cell.value.ChannelCell? && cell.value.channel.id == id && ValidStoredChannel(cell.value.channel)) ==>
              GetChannel(raw, id) == Failure(CORRUPTION)
    ensures var cell := Get(raw, Objects, KeyOf(PreparingAt(id)));
            cell.Some? && !(cell.value.ObjectCell? && ValidObject(cell.value.record, id)) ==>
              GetObject(raw, PREPARING_PREFIX, id) == Failure(CORRUPTION)
    ensures var cell := Get(raw, Objects, KeyOf(CommittedAt(id)));
            cell.Some? && !(cell.value.ObjectCell? && ValidObject(cell.value.record, id)) ==>
              GetObject(raw, COMMITTED_PREFIX, id) == Failure(CORRUPTION)
  {
    hide ValidStoredChannel;
    hide ValidObject;
    hide Encoded;
    hide Decoded;
  }

  lemma {:induction false} CellAt(raw: Raw, db: Db, p: Place)
    requires Refines(raw, db)
    ensures Get(raw, FamilyOf(p), KeyOf(p)) == ValueAt(db, p)
  {
    hide KeyOf;
    hide ValueAt;
    hide Get;
  }

  lemma {:induction false} ObjectReadersAgree(raw: Raw, db: Db, id: U64)
    requires Refines(raw, db)
    ensures GetObject(raw, COMMITTED_PREFIX, id) ==
              if id !in db.committed then Success(None)
              else if ValidObject(db.committed[id], id) then Success(Some(db.committed[id])) else Failure(CORRUPTION)
    ensures GetObject(raw, PREPARING_PREFIX, id) ==
              if id !in db.preparing then Success(None)
              else if ValidObject(db.preparing[id], id) then Success(Some(db.preparing[id])) else Failure(CORRUPTION)
  {
    hide ValidObject;
    hide NumericKey;
    CellAt(raw, db, CommittedAt(id));
    CellAt(raw, db, PreparingAt(id));
  }

  // ---------------------------------------------------------------- iteration

  /** The iterator of a family yields each of its entries once, in byte order. */
  ghost predicate Iterates(cf: seq<Entry<Cell>>, t: Table) {
    && Sorted(cf)
    && (forall i :: 0 <= i < |cf| ==> cf[i].key in t && t[cf[i].key] == cf[i].value)
    && (forall key: Bytes :: key in t ==> Listed(cf, key))
  }

  ghost predicate Listed(cf: seq<Entry<Cell>>, key: Bytes) {
    exists i :: 0 <= i < |cf| && cf[i].key == key
  }

  /** The message family as a scan sees it. */
  function AsMessages(cf: seq<Entry<Cell>>): (r: seq<Entry<Value>>)
    ensures |r| == |cf|
    ensures forall i :: 0 <= i < |cf| ==>
              r[i] == Entry(cf[i].key, if cf[i].value.MessageCell? then Parsed(cf[i].value.message) else Garbage)
  {
    seq(|cf|, i requires 0 <= i < |cf| =>
      Entry(cf[i].key, if cf[i].value.MessageCell? then Parsed(cf[i].value.message) else Garbage))
  }

  /** A scan of the bytes sees exactly the log. */
  lemma {:induction false} ScanSeesTheLog(raw: Raw, db: Db, cf: seq<Entry<Cell>>)
    requires Refines(raw, db) && Iterates(cf, raw.messages) && db.maxSeq + 1 < TWO64
    ensures Represents(AsMessages(cf), db)
  {
    hide Encoded;
    hide Less;
    var ms := AsMessages(cf);
    assert Sorted(ms);
    forall j | 0 <= j < |ms|
      ensures Logged(ms[j], db)
    {
      EntryIsLogged(raw, db, cf, j);
    }
    forall s: nat | s in db.messages
      ensures Holding(ms, s, db.messages[s])
    {
      MessageListed(raw, db, cf, s);
    }
  }

  lemma {:induction false} EntryIsLogged(raw: Raw, db: Db, cf: seq<Entry<Cell>>, j: nat)
    requires Refines(raw, db) && Iterates(cf, raw.messages) && j < |cf|
    ensures Logged(AsMessages(cf)[j], db)
  {
    hide Encoded;
    hide Less;
    hide Fits;
    assert cf[j].key in TableOf(raw, Messages);
    assert Known(Messages, cf[j].key);
    var p: Place :| FamilyOf(p) == Messages && KeyOf(p) == cf[j].key;
    NumericKeyInverse(MESSAGE_PREFIX, p.id);
    CellAt(raw, db, p);
  }

  lemma {:induction false} MessageListed(raw: Raw, db: Db, cf: seq<Entry<Cell>>, s: nat)
    requires Refines(raw, db) && Iterates(cf, raw.messages) && s in db.messages
    ensures Holding(AsMessages(cf), s, db.messages[s])
  {
    hide NumericKey;
    assert Fits(db);
    CellAt(raw, db, MessageAt(s));
    assert Listed(cf, Key(s));
    var i :| 0 <= i < |cf| && cf[i].key == Key(s);
    assert AsMessages(cf)[i] == Entry(Key(s), Parsed(db.messages[s]));
  }

  // ---------------------------------------------------------------- listings

  /** What one entry of a listing contributes: the record, if the key and the value are sound. */
  function ParseEntry<T>(prefix: Bytes, parse: (U64, Cell) -> Option<T>, e: Entry<Cell>): Option<T> {
    if IsNumericKey(e.key, prefix) then parse(KeyValue(e.key, prefix), e.value) else None
  }

  predicate Matches<T(==)>(prefix: Bytes, parse: (U64, Cell) -> Option<T>, e: Entry<Cell>, id: U64, t: T) {
    IsNumericKey(e.key, prefix) && id == KeyValue(e.key, prefix) && parse(id, e.value) == Some(t)
  }

  /** `found` are the entries under the prefix, in ascending order of their identifiers `ids`. */
  ghost predicate Listing<T(!new)>(cf: seq<Entry<Cell>>, prefix: Bytes, parse: (U64, Cell) -> Option<T>,
                                   ids: seq<U64>, found: seq<T>) {
    && |ids| == |found|
    && (forall j, k :: 0 <= j < k < |ids| ==> ids[j] < ids[k])
    && (forall k :: 0 <= k < |ids| ==> FoundAt(cf, prefix, parse, ids[k], found[k]))
    && (forall j :: 0 <= j < |cf| && StartsWith(cf[j].key, prefix) ==>
          IsNumericKey(cf[j].key, prefix) && KeyValue(cf[j].key, prefix) in ids)
  }

  ghost predicate FoundAt<T(!new)>(cf: seq<Entry<Cell>>, prefix: Bytes, parse: (U64, Cell) -> Option<T>, id: U64, t: T) {
    exists j :: 0 <= j < |cf| && cf[j].key == NumericKey(prefix, id) && parse(id, cf[j].value) == Some(t)
  }

  /** Some entry under the prefix is damaged. */
  ghost predicate Damaged<T(!new)>(cf: seq<Entry<Cell>>, prefix: Bytes, parse: (U64, Cell) -> Option<T>) {
    exists j :: 0 <= j < |cf| && StartsWith(cf[j].key, prefix) && ParseEntry(prefix, parse, cf[j]) == None
  }

  /** The loop of `ListChannels` and `ListPreparingObjects`, which differ in the prefix and the parser. */
  method ListFamily<T(!new)>(cf: seq<Entry<Cell>>, prefix: Bytes, parse: (U64, Cell) -> Option<T>)
    returns (r: Result<seq<T>>, ghost ids: seq<U64>)
    requires Sorted(cf)
    ensures r.Success? ==> Listing(cf, prefix, parse, ids, r.value)
    ensures r.Failure? ==> r.status == CORRUPTION && Damaged(cf, prefix, parse)
  {
    hide Less;
    hide Decoded;
    var first := Seek(cf, prefix);
    var i, found := first, [];
    ids := [];
    while i < |cf| && StartsWith(cf[i].key, prefix)
      invariant first <= i <= |cf| && |found| == |ids| == i - first
      invariant forall k :: 0 <= k < |ids| ==> Matches(prefix, parse, cf[first + k], ids[k], found[k])
    {
      if !IsNumericKey(cf[i].key, prefix) {
        assert ParseEntry(prefix, parse, cf[i]) == None;
        return Failure(CORRUPTION), ids;
      }
      var id := KeyValue(cf[i].key, prefix);
      var parsed := parse(id, cf[i].value);
      if parsed.None? {
        assert ParseEntry(prefix, parse, cf[i]) == None;
        return Failure(CORRUPTION), ids;
      }
      found, ids := found + [parsed.value], ids + [id];
      i := i + 1;
    }
    ListingComplete(cf, prefix, parse, first, i, ids, found);
    return Success(found), ids;
  }

  lemma {:induction false} ListingComplete<T(!new)>(cf: seq<Entry<Cell>>, prefix: Bytes, parse: (U64, Cell) -> Option<T>,
      first: nat, i: nat, ids: seq<U64>, found: seq<T>)
    requires Sorted(cf) && first <= i <= |cf| && |found| == |ids| == i - first
    requires forall j :: 0 <= j < first ==> Less(cf[j].key, prefix)
    requires forall j :: first <= j < |cf| ==> !Less(cf[j].key, prefix)
    requires i < |cf| ==> !StartsWith(cf[i].key, prefix)
    requires forall k :: 0 <= k < |ids| ==> Matches(prefix, parse, cf[first + k], ids[k], found[k])
    ensures Listing(cf, prefix, parse, ids, found)
  {
    hide Less;
    hide Decoded;
    hide KeyValue;
    forall j, k | 0 <= j < k < |ids|
      ensures ids[j] < ids[k]
    {
      assert Matches(prefix, parse, cf[first + j], ids[j], found[j]) && Matches(prefix, parse, cf[first + k], ids[k], found[k]);
      KeyValueInverse(cf[first + j].key, prefix);
      KeyValueInverse(cf[first + k].key, prefix);
      NumericKeyOrder(prefix, ids[j], ids[k]);
    }
    forall k | 0 <= k < |ids|
      ensures FoundAt(cf, prefix, parse, ids[k], found[k])
    {
      assert Matches(prefix, parse, cf[first + k], ids[k], found[k]);
      KeyValueInverse(cf[first + k].key, prefix);
    }
    forall j | 0 <= j < |cf| && StartsWith(cf[j].key, prefix)
      ensures IsNumericKey(cf[j].key, prefix) && KeyValue(cf[j].key, prefix) in ids
    {
      PrefixNotBelow(prefix, cf[j].key);
      if i < j {
        PrefixEnds(prefix, cf[i].key, cf[j].key);
      }
      var k := j - first;
      assert Matches(prefix, parse, cf[first + k], ids[k], found[k]);
    }
  }

  function ParseChannel(id: U64, cell: Cell): Option<Channel> {
    if cell.ChannelCell? && cell.channel.id == id && ValidStoredChannel(cell.channel) then Some(cell.channel) else None
  }

  function ParseObject(id: U64, cell: Cell): Option<StoredObject> {
    if cell.ObjectCell? && ValidObject(cell.record, id) then Some(cell.record) else None
  }

  method ListChannels(cf: seq<Entry<Cell>>) returns (r: Result<seq<Channel>>, ghost ids: seq<U64>)
    requires Sorted(cf)
    ensures r.Success? ==> Listing(cf, CHANNEL_PREFIX, ParseChannel, ids, r.value)
    ensures r.Failure? ==> r.status == CORRUPTION && Damaged(cf, CHANNEL_PREFIX, ParseChannel)
  {
    r, ids := ListFamily(cf, CHANNEL_PREFIX, ParseChannel);
  }

  method ListPreparingObjects(cf: seq<Entry<Cell>>) returns (r: Result<seq<StoredObject>>, ghost ids: seq<U64>)
    requires Sorted(cf)
    ensures r.Success? ==> Listing(cf, PREPARING_PREFIX, ParseObject, ids, r.value)
    ensures r.Failure? ==> r.status == CORRUPTION && Damaged(cf, PREPARING_PREFIX, ParseObject)
  {
    r, ids := ListFamily(cf, PREPARING_PREFIX, ParseObject);
  }

  /** Places under a listing prefix are exactly the places of that kind. */
  lemma {:induction false} PrefixIsPlace(p: Place)
    ensures FamilyOf(p).Meta? && StartsWith(KeyOf(p), CHANNEL_PREFIX) <==> p.ChannelAt?
    ensures FamilyOf(p).Objects? && StartsWith(KeyOf(p), PREPARING_PREFIX) <==> p.PreparingAt?
  {
    hide Encoded;
    KeyStarts(p);
    if StartsWith(KeyOf(p), CHANNEL_PREFIX) {
      assert KeyOf(p)[0] == KeyOf(p)[..3][0];
    }
    if StartsWith(KeyOf(p), PREPARING_PREFIX) {
      assert KeyOf(p)[0] == KeyOf(p)[..10][0];
    }
  }

  /** A listed identifier is one of the typed table, and the record is the table's. */
  lemma {:induction false} ChannelListing(raw: Raw, db: Db, cf: seq<Entry<Cell>>, ids: seq<U64>, found: seq<Channel>)
    requires Refines(raw, db) && Iterates(cf, raw.meta) && Listing(cf, CHANNEL_PREFIX, ParseChannel, ids, found)
    ensures forall k :: 0 <= k < |ids| ==> ids[k] in db.channels && found[k] == db.channels[ids[k]]
    ensures forall c: nat :: c in db.channels ==> c in ids
  {
    hide ValidStoredChannel;
    hide NumericKey;
    hide Less;
    forall k | 0 <= k < |ids|
      ensures ids[k] in db.channels && found[k] == db.channels[ids[k]]
    {
      assert FoundAt(cf, CHANNEL_PREFIX, ParseChannel, ids[k], found[k]);
      CellAt(raw, db, ChannelAt(ids[k]));
    }
    forall c: nat | c in db.channels
      ensures c in ids
    {
      assert Fits(db);
      CellAt(raw, db, ChannelAt(c));
      PrefixIsPlace(ChannelAt(c));
      assert Listed(cf, KeyOf(ChannelAt(c)));
      NumericKeyInverse(CHANNEL_PREFIX, c);
    }
  }

  lemma {:induction false} StoredChannelParses(raw: Raw, db: Db, id: U64, cell: Cell)
    requires Refines(raw, db) && Get(raw, Meta, KeyOf(ChannelAt(id))) == Some(cell)
    requires id in db.channels ==> db.channels[id].id == id && ValidStoredChannel(db.channels[id])
    ensures ParseEntry(CHANNEL_PREFIX, ParseChannel, Entry(KeyOf(ChannelAt(id)), cell)).Some?
  {
    hide ValidStoredChannel;
    CellAt(raw, db, ChannelAt(id));
    NumericKeyInverse(CHANNEL_PREFIX, id);
  }

  /** An undamaged table lists without error. */
  lemma {:induction false} ChannelsUndamaged(raw: Raw, db: Db, cf: seq<Entry<Cell>>)
    requires Refines(raw, db) && Iterates(cf, raw.meta)
    requires forall c: nat :: c in db.channels ==> db.channels[c].id == c && ValidStoredChannel(db.channels[c])
    ensures !Damaged(cf, CHANNEL_PREFIX, ParseChannel)
  {
    hide ValidStoredChannel;
    hide KeyOf;
    hide ValueAt;
    hide Fits;
    hide ParseEntry;
    hide Sorted;
    forall j | 0 <= j < |cf| && StartsWith(cf[j].key, CHANNEL_PREFIX)
      ensures ParseEntry(CHANNEL_PREFIX, ParseChannel, cf[j]).Some?
    {
      assert cf[j].key in TableOf(raw, Meta);
      assert Known(Meta, cf[j].key);
      var p: Place :| FamilyOf(p) == Meta && KeyOf(p) == cf[j].key;
      PrefixIsPlace(p);
      StoredChannelParses(raw, db, p.id, cf[j].value);
    }
  }

  lemma {:induction false} PreparingListing(raw: Raw, db: Db, cf: seq<Entry<Cell>>, ids: seq<U64>, found: seq<StoredObject>)
    requires Refines(raw, db) && Iterates(cf, raw.objects) && Listing(cf, PREPARING_PREFIX, ParseObject, ids, found)
    ensures forall k :: 0 <= k < |ids| ==> ids[k] in db.preparing && found[k] == db.preparing[ids[k]]
    ensures forall id: nat :: id in db.preparing ==> id in ids
  {
    hide ValidObject;
    hide NumericKey;
    hide Less;
    forall k | 0 <= k < |ids|
      ensures ids[k] in db.preparing && found[k] == db.preparing[ids[k]]
    {
      assert FoundAt(cf, PREPARING_PREFIX, ParseObject, ids[k], found[k]);
      CellAt(raw, db, PreparingAt(ids[k]));
    }
    forall id: nat | id in db.preparing
      ensures id in ids
    {
      assert Fits(db);
      CellAt(raw, db, PreparingAt(id));
      PrefixIsPlace(PreparingAt(id));
      assert Listed(cf, KeyOf(PreparingAt(id)));
      NumericKeyInverse(PREPARING_PREFIX, id);
    }
  }
}
