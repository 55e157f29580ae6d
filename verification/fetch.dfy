/**
 The read requests: channel validation, `Fetch` and `ListMessages` on one
 snapshot, and the walk of a client that follows the cursor to the end.
 */
module Fetching {
  import opened Types
  import opened Records
  import opened Store
  import opened Log
  import opened LogInvariants
  import opened Scan
  import opened Paging

  /** A consistent view: the typed records and the message family an iterator walks. */
  datatype Snapshot = Snapshot(db: Db, cf: seq<Entry<Value>>)

  /** A view of a state the server can reach, with room for one more sequence number. */
  ghost predicate Faithful(snap: Snapshot) {
    Inv(snap.db) && Represents(snap.cf, snap.db)
  }

  /** What any storage gives: an ordered iterator and a 64-bit watermark. */
  ghost predicate Iterable(snap: Snapshot) {
    Sorted(snap.cf) && snap.db.maxSeq < TWO64
  }

  datatype FetchRequest = FetchRequest(
    credential: Credential,
    fromSeq: U64,
    limit: nat,
    onlyMine: bool,
    channels: seq<nat>)

  function QueryOf(db: Db, r: FetchRequest): Query {
    Query(db, r.credential.principal, r.onlyMine, r.channels)
  }

  // ---------------------------------------------------------------- what a request is for

  /** A principal may read the built-in channel, an open channel, and a private one it is a member of. */
  predicate MayRead(db: Db, c: nat, principal: U64) {
    || c == 0
    || (c in db.channels
        && (db.channels[c].visibility.Public? || db.channels[c].visibility.Protected? || principal in db.channels[c].members))
  }

  /** The message is of a requested channel, for the caller if only such are wanted, and may be read by the caller. */
  predicate Shown(db: Db, r: FetchRequest, m: Message) {
    && (r.channels == [] || m.channelId in r.channels)
    && (r.onlyMine ==> r.credential.principal in m.recipients)
    && MayRead(db, m.channelId, r.credential.principal)
  }

  lemma {:induction false} ReadableIffMayRead(db: Db, c: nat, principal: U64)
    requires Inv(db)
    ensures ChannelReadable(db, c, principal) <==> MayRead(db, c, principal)
    ensures LoadChannel(db, c).Success? && (LoadChannel(db, c).value.None? <==> c != 0 && c !in db.channels)
  {
    hide Replay;
    hide ValidStoredMessage;
    hide Justified;
    hide ValidObject;
    if c in db.channels {
      assert ChannelSound(db.channels[c], c);
    }
  }

  /** In a sound state the filter of a fetch lets through exactly what the request is for. */
  lemma {:induction false} VisibleIffShown(db: Db, r: FetchRequest, m: Message)
    requires Inv(db)
    ensures VisibleTo(QueryOf(db, r))(m) <==> Shown(db, r, m)
  {
    hide Inv;
    hide ChannelReadable;
    hide MayRead;
    ReadableIffMayRead(db, m.channelId, r.credential.principal);
  }

  /** The page holds exactly the log entries it passed that the request is for, in ascending order. */
  ghost predicate PageShows(db: Db, r: FetchRequest, fromSeq: nat, resp: Response) {
    if fromSeq > db.maxSeq then resp.messages == []
    else
      && fromSeq <= resp.nextSeq <= db.maxSeq + 1 && Ascending(resp.messages, fromSeq, resp.nextSeq)
      && (forall s: nat :: fromSeq <= s < resp.nextSeq ==> s in db.messages)
      && forall m :: m in resp.messages <==>
           fromSeq <= m.sequence < resp.nextSeq && m == db.messages[m.sequence] && Shown(db, r, m)
  }

  lemma {:induction false} PageShowsIt(snap: Snapshot, r: FetchRequest, limits: Limits, size: Message -> nat, fromSeq: nat, resp: Response)
    requires Inv(snap.db) && GapFree(snap.db)
    requires SnapshotPage(snap, VisibleTo(QueryOf(snap.db, r)), limits, size, fromSeq, Success(resp))
    ensures PageShows(snap.db, r, fromSeq, resp)
  {
    hide Inv;
    hide Selected;
    hide WithinSoftLimit;
    hide DoesNotFit;
    hide Shown;
    var db, visible := snap.db, VisibleTo(QueryOf(snap.db, r));
    if fromSeq <= db.maxSeq {
      var ms := LogBetween(db.messages, fromSeq, resp.nextSeq);
      SelectedAscends(visible, ms, fromSeq);
      forall m
        ensures m in resp.messages <==>
                  fromSeq <= m.sequence < resp.nextSeq && m == db.messages[m.sequence] && Shown(db, r, m)
      {
        SelectedIff(visible, ms, m);
        LogBetweenHas(db.messages, fromSeq, resp.nextSeq, m);
        VisibleIffShown(db, r, m);
      }
    }
  }

  /** Channel number `i` of the request is the first the caller may not read. */
  predicate FirstBarred(db: Db, r: FetchRequest, i: nat) {
    && i < |r.channels| && !MayRead(db, r.channels[i], r.credential.principal)
    && forall j :: 0 <= j < i ==> MayRead(db, r.channels[j], r.credential.principal)
  }

  /** How a request is refused: for its row limit, its credential, or the first channel that is missing or barred. */
  ghost predicate RefusedFor(db: Db, r: FetchRequest, status: Status) {
    if !(1 <= r.limit <= 1000) || r.credential.principal == 0 then status == Reject(InvalidArgument)
    else if r.credential.token == "" || r.credential !in db.tokens then status == Reject(Unauthenticated)
    else exists i: nat :: BarredAt(db, r, i, status)
  }

  predicate BarredAt(db: Db, r: FetchRequest, i: nat, status: Status) {
    FirstBarred(db, r, i) && status == Reject(if r.channels[i] in db.channels then PermissionDenied else NotFound)
  }

  lemma {:induction false} ChannelStatusIs(db: Db, c: nat, principal: U64)
    requires Inv(db)
    ensures ChannelStatus(db, c, principal) ==
              if MayRead(db, c, principal) then Ok else Reject(if c in db.channels then PermissionDenied else NotFound)
  {
    hide Inv;
    hide LoadChannel;
    hide ChannelReadable;
    hide ChannelStatus;
    ReadableIffMayRead(db, c, principal);
    ReadableIsOk(db, c, principal);
    if !MayRead(db, c, principal) {
      ChannelProblem(db, c, principal);
    }
  }

  lemma {:induction false} ChannelProblem(db: Db, c: nat, principal: U64)
    requires LoadChannel(db, c).Success? && !ChannelReadable(db, c, principal)
    ensures ChannelStatus(db, c, principal) == Reject(if LoadChannel(db, c).value.None? then NotFound else PermissionDenied)
  {
  }

  lemma {:induction false} ProblemBars(db: Db, r: FetchRequest, status: Status, i: nat)
    requires Inv(db) && i < |r.channels|
    ensures (&& status != Ok && ChannelStatus(db, r.channels[i], r.credential.principal) == status
             && forall j :: 0 <= j < i ==> ChannelStatus(db, r.channels[j], r.credential.principal) == Ok)
            <==> BarredAt(db, r, i, status)
  {
    hide Inv;
    hide ChannelStatus;
    hide MayRead;
    forall k | 0 <= k < |r.channels|
      ensures ChannelStatus(db, r.channels[k], r.credential.principal) ==
                if MayRead(db, r.channels[k], r.credential.principal) then Ok
                else Reject(if r.channels[k] in db.channels then PermissionDenied else NotFound)
    {
      ChannelStatusIs(db, r.channels[k], r.credential.principal);
    }
  }

  lemma {:induction false} ProblemIff(db: Db, r: FetchRequest, status: Status)
    requires Inv(db)
    ensures status != Ok && FirstProblem(db, r.credential.principal, r.channels, status) <==>
              exists i: nat :: BarredAt(db, r, i, status)
  {
    hide Inv;
    hide ChannelStatus;
    hide BarredAt;
    if status != Ok && FirstProblem(db, r.credential.principal, r.channels, status) {
      var i :| 0 <= i < |r.channels| && ChannelStatus(db, r.channels[i], r.credential.principal) == status
               && forall j :: 0 <= j < i ==> ChannelStatus(db, r.channels[j], r.credential.principal) == Ok;
      ProblemBars(db, r, status, i);
    }
    if i: nat :| BarredAt(db, r, i, status) {
      BarredWithin(db, r, i, status);
      ProblemBars(db, r, status, i);
    }
  }

  lemma {:induction false} BarredWithin(db: Db, r: FetchRequest, i: nat, status: Status)
    requires BarredAt(db, r, i, status)
    ensures i < |r.channels|
  {
  }

  lemma {:induction false} RefusedIff(db: Db, r: FetchRequest, status: Status)
    requires Inv(db)
    ensures Refused(db, r, status) <==> RefusedFor(db, r, status)
  {
    hide Inv;
    hide FirstProblem;
    hide BarredAt;
    ProblemIff(db, r, status);
  }

  // ---------------------------------------------------------------- channel validation

  /** What one requested channel on its own would be answered with. */
  function ChannelStatus(db: Db, c: nat, principal: U64): Status {
    var loaded := LoadChannel(db, c);
    if loaded.Failure? then loaded.status
    else if loaded.value.None? then Reject(NotFound)
    else if !CanRead(loaded.value.value, principal) then Reject(PermissionDenied)
    else Ok
  }

  /** The answer is that of the first requested channel that cannot be read. */
  ghost predicate FirstProblem(db: Db, principal: U64, channels: seq<nat>, status: Status) {
    if status == Ok then forall i :: 0 <= i < |channels| ==> ChannelStatus(db, channels[i], principal) == Ok
    else exists i :: 0 <= i < |channels| && ChannelStatus(db, channels[i], principal) == status
           && forall j :: 0 <= j < i ==> ChannelStatus(db, channels[j], principal) == Ok
  }

  /** Looking each distinct channel up once answers as looking up every occurrence would. */
  method ValidateReadableChannels(db: Db, principal: U64, channels: seq<nat>) returns (status: Status)
    ensures FirstProblem(db, principal, channels, status)
  {
    hide LoadChannel;
    var validated: set<nat> := {};
    var i := 0;
    while i < |channels|
      invariant 0 <= i <= |channels|
      invariant forall c :: c in validated ==> ChannelStatus(db, c, principal) == Ok
      invariant forall j :: 0 <= j < i ==> ChannelStatus(db, channels[j], principal) == Ok
    {
      var c := channels[i];
      if c !in validated {
        validated := validated + {c};
        var loaded := LoadChannel(db, c);
        if loaded.Failure? {
          LoadFailure(db, c);
          assert ChannelStatus(db, channels[i], principal) == loaded.status;
          return loaded.status;
        }
        if loaded.value.None? {
          assert ChannelStatus(db, channels[i], principal) == Reject(NotFound);
          return Reject(NotFound);
        }
        if !CanRead(loaded.value.value, principal) {
          assert ChannelStatus(db, channels[i], principal) == Reject(PermissionDenied);
          return Reject(PermissionDenied);
        }
      }
      i := i + 1;
    }
    return Ok;
  }

  lemma {:induction false} ReadableIsOk(db: Db, c: nat, principal: U64)
    ensures ChannelStatus(db, c, principal) == Ok <==> ChannelReadable(db, c, principal)
  {
    LoadFailure(db, c);
  }

  // ---------------------------------------------------------------- pages

  /** Every visitor state keeps a cache that agrees with `CanRead`. */
  lemma {:induction false} CacheStays(q: Query, limits: Limits, size: Message -> nat, init: Page, ms: seq<Message>)
    requires CacheAgrees(q.db, q.principal, init.cache)
    ensures CacheAgrees(q.db, q.principal, StateAfter(VisibleVisitor(q, limits, size), init, ms).cache)
  {
    hide VisitVisible;
    hide CacheAgrees;
    if |ms| > 0 {
      var n := |ms| - 1;
      CacheStays(q, limits, size, init, ms[..n]);
      VisitVisibleAnswers(q, limits, size, StateAfter(VisibleVisitor(q, limits, size), init, ms[..n]), ms[n]);
    }
  }

  function VisibleVisitor(q: Query, limits: Limits, size: Message -> nat): (Page, Message) -> Visit<Page> {
    (p, m) => VisitVisible(q, limits, size, p, m)
  }

  function AnyVisitor(db: Db, limits: Limits, size: Message -> nat): (Page, Message) -> Visit<Page> {
    (p, m) => VisitAny(db, limits, size, p, m)
  }

  lemma {:induction false} VisibleAnswersAll(q: Query, limits: Limits, size: Message -> nat, init: Page, ms: seq<Message>)
    requires CacheAgrees(q.db, q.principal, init.cache)
    ensures AnswersAll(VisibleVisitor(q, limits, size), VisibleTo(q), limits, size, init, ms)
  {
    hide VisitVisible;
    hide CacheAgrees;
    hide Answers;
    var visitor := VisibleVisitor(q, limits, size);
    forall k | 0 <= k < |ms|
      ensures var p := StateAfter(visitor, init, ms[..k]); Answers(VisibleTo(q), limits, size, p, ms[k], visitor(p, ms[k]))
    {
      CacheStays(q, limits, size, init, ms[..k]);
      VisitVisibleAnswers(q, limits, size, StateAfter(visitor, init, ms[..k]), ms[k]);
    }
  }

  lemma {:induction false} AnyAnswersAll(db: Db, limits: Limits, size: Message -> nat, init: Page, ms: seq<Message>)
    ensures AnswersAll(AnyVisitor(db, limits, size), Everything(), limits, size, init, ms)
  {
    hide VisitAny;
    hide Answers;
    var visitor := AnyVisitor(db, limits, size);
    forall k | 0 <= k < |ms|
      ensures var p := StateAfter(visitor, init, ms[..k]); Answers(Everything(), limits, size, p, ms[k], visitor(p, ms[k]))
    {
      VisitAnyAnswers(db, limits, size, StateAfter(visitor, init, ms[..k]), ms[k]);
    }
  }

  /** A visitor only ever fails with DATA_LOSS, at a message whose channel does not load. */
  lemma {:induction false} VisibleFailure(snap: Snapshot, q: Query, limits: Limits, size: Message -> nat, init: Page,
      fromSeq: U64, ms: seq<Message>)
    requires CacheAgrees(q.db, q.principal, init.cache) && |ms| > 0 && q.db == snap.db
    requires snap.db.maxSeq < TWO64 && VisitedInOrder(snap.cf, fromSeq, snap.db.maxSeq, ms)
    ensures var a := ActionAt(VisibleVisitor(q, limits, size), init, ms, |ms| - 1);
            a.Failure? ==> a.status == CORRUPTION && Orphaned(snap, fromSeq, fromSeq + |ms| - 1)
  {
    hide VisitVisible;
    hide CacheAgrees;
    hide GoodAt;
    hide LoadChannel;
    var k := |ms| - 1;
    assert GoodAt(snap.cf, fromSeq + k, ms[k]);
    CacheStays(q, limits, size, init, ms[..k]);
    VisitVisibleAnswers(q, limits, size, StateAfter(VisibleVisitor(q, limits, size), init, ms[..k]), ms[k]);
  }

  lemma {:induction false} AnyFailure(snap: Snapshot, limits: Limits, size: Message -> nat, init: Page,
      fromSeq: U64, ms: seq<Message>)
    requires |ms| > 0 && snap.db.maxSeq < TWO64 && VisitedInOrder(snap.cf, fromSeq, snap.db.maxSeq, ms)
    ensures var a := ActionAt(AnyVisitor(snap.db, limits, size), init, ms, |ms| - 1);
            a.Failure? ==> a.status == CORRUPTION && Orphaned(snap, fromSeq, fromSeq + |ms| - 1)
  {
    hide VisitAny;
    hide GoodAt;
    hide LoadChannel;
    var k := |ms| - 1;
    assert GoodAt(snap.cf, fromSeq + k, ms[k]);
    VisitAnyAnswers(snap.db, limits, size, StateAfter(AnyVisitor(snap.db, limits, size), init, ms[..k]), ms[k]);
  }

  /** In a faithful snapshot a scanned message's channel loads. */
  lemma {:induction false} ScannedChannelLoads(snap: Snapshot, fromSeq: U64, ms: seq<Message>, k: nat)
    requires Faithful(snap) && fromSeq <= snap.db.maxSeq && VisitedInOrder(snap.cf, fromSeq, snap.db.maxSeq, ms) && k < |ms|
    ensures var c := LoadChannel(snap.db, ms[k].channelId); c.Success? && c.value.Some?
  {
    hide GoodAt;
    hide Represents;
    hide UuidIndex;
    hide ChannelTable;
    hide EventSourced;
    hide AllJustified;
    hide Readable;
    assert GoodAt(snap.cf, fromSeq + k, ms[k]);
    GoodIsLogged(snap.cf, snap.db, fromSeq + k, ms[k]);
    MessageChannelLoads(snap.db, fromSeq + k);
  }

  /** In a faithful snapshot the visitor of a fetch never fails. */
  lemma {:induction false} VisibleNeverFails(snap: Snapshot, q: Query, limits: Limits, size: Message -> nat, init: Page,
      fromSeq: U64, ms: seq<Message>)
    requires Faithful(snap) && q.db == snap.db && fromSeq <= snap.db.maxSeq
    requires VisitedInOrder(snap.cf, fromSeq, snap.db.maxSeq, ms) && |ms| > 0
    requires CacheAgrees(q.db, q.principal, init.cache)
    ensures ActionAt(VisibleVisitor(q, limits, size), init, ms, |ms| - 1).Success?
  {
    hide Faithful;
    hide VisitedInOrder;
    hide VisitVisible;
    hide CacheAgrees;
    var k := |ms| - 1;
    ScannedChannelLoads(snap, fromSeq, ms, k);
    CacheStays(q, limits, size, init, ms[..k]);
    VisitVisibleAnswers(q, limits, size, StateAfter(VisibleVisitor(q, limits, size), init, ms[..k]), ms[k]);
  }

  lemma {:induction false} AnyNeverFails(snap: Snapshot, limits: Limits, size: Message -> nat, init: Page,
      fromSeq: U64, ms: seq<Message>)
    requires Faithful(snap) && fromSeq <= snap.db.maxSeq
    requires VisitedInOrder(snap.cf, fromSeq, snap.db.maxSeq, ms) && |ms| > 0
    ensures ActionAt(AnyVisitor(snap.db, limits, size), init, ms, |ms| - 1).Success?
  {
    hide Faithful;
    hide VisitedInOrder;
    hide VisitAny;
    var k := |ms| - 1;
    ScannedChannelLoads(snap, fromSeq, ms, k);
    VisitAnyAnswers(snap.db, limits, size, StateAfter(AnyVisitor(snap.db, limits, size), init, ms[..k]), ms[k]);
  }

  /** The page of a snapshot, in terms of its log alone. */
  ghost predicate SnapshotPage(snap: Snapshot, visible: Message -> bool, limits: Limits, size: Message -> nat,
                               fromSeq: nat, r: Result<Response>) {
    && GapFree(snap.db) && r.Success?
    && PageOk(visible, snap.db.messages, snap.db.maxSeq, limits, size, fromSeq, r.value)
  }

  lemma {:induction false} FaithfulFacts(snap: Snapshot)
    requires Faithful(snap)
    ensures Represents(snap.cf, snap.db) && GapFree(snap.db) && Inv(snap.db) && snap.db.maxSeq + 1 < TWO64
  {
    hide UuidIndex;
    hide ChannelTable;
    hide EventSourced;
    hide AllJustified;
    hide Readable;
  }

  /** Past the end of the log there is nothing yet. */
  lemma {:induction false} EmptyPage(snap: Snapshot, visible: Message -> bool, limits: Limits, size: Message -> nat, fromSeq: nat)
    requires Faithful(snap) && fromSeq > snap.db.maxSeq
    ensures SnapshotPage(snap, visible, limits, size, fromSeq,
                         Success(Response([], (snap.db.maxSeq + 1) % TWO64, snap.db.maxSeq)))
  {
    hide Faithful;
    hide Inv;
    hide Represents;
    hide Selected;
    hide WithinSoftLimit;
    hide DoesNotFit;
    FaithfulFacts(snap);
  }

  /**
   What a page is for arbitrary contents: nothing past the end, else the selection of
   a gap-free stretch of valid stored messages with the cursor behind it.
   */
  ghost predicate Given(snap: Snapshot, visible: Message -> bool, limits: Limits, size: Message -> nat,
                        fromSeq: U64, resp: Response) {
    && snap.db.maxSeq < TWO64 && resp.lastSeq == snap.db.maxSeq && resp.nextSeq < TWO64
    && if fromSeq > snap.db.maxSeq then resp.messages == [] && resp.nextSeq == (snap.db.maxSeq + 1) % TWO64
       else PassedOver(snap.cf, visible, limits, size, fromSeq, snap.db.maxSeq, resp)
  }

  /** Why a page cannot be read: the range is not scannable, or a message's channel does not load. */
  ghost predicate Broken(snap: Snapshot, fromSeq: U64, scanBudget: nat) {
    && fromSeq <= snap.db.maxSeq < TWO64
    && (!Scannable(snap.cf, fromSeq, snap.db.maxSeq, scanBudget) || exists s: nat :: Orphaned(snap, fromSeq, s))
  }

  ghost predicate Orphaned(snap: Snapshot, fromSeq: nat, s: nat) {
    fromSeq <= s <= snap.db.maxSeq && exists m :: GoodAt(snap.cf, s, m) && !ChannelLoads(snap.db, m.channelId)
  }

  predicate ChannelLoads(db: Db, c: nat) {
    LoadChannel(db, c).Success? && LoadChannel(db, c).value.Some?
  }

  /** When the cursor moves back: asked for more than one past the end, or wrapped behind the largest number. */
  lemma {:induction false} CursorStays(snap: Snapshot, visible: Message -> bool, limits: Limits, size: Message -> nat,
      fromSeq: U64, resp: Response)
    requires Given(snap, visible, limits, size, fromSeq, resp)
    ensures MovesBackIff(snap.db.maxSeq, fromSeq, resp.nextSeq)
  {
    hide PassedOver;
    if fromSeq <= snap.db.maxSeq {
      PassedMoves(snap.cf, visible, limits, size, fromSeq, snap.db.maxSeq, resp);
    }
  }

  predicate MovesBackIff(maxSeq: nat, fromSeq: nat, nextSeq: nat) {
    nextSeq < fromSeq <==> fromSeq > maxSeq + 1 || (maxSeq + 1 == TWO64 && nextSeq == 0 < fromSeq)
  }

  /**
   One page for a principal.  On a snapshot the server can reach it is exactly the
   visible part of the stretch the cursor moved over, and ends early only for one
   of the three limits.  On any contents the cursor moves back if and only if the
   page was asked for more than one past the end, or passes the largest number.
   */
  method FetchVisible(snap: Snapshot, q: Query, limits: Limits, size: Message -> nat, fromSeq: U64)
    returns (r: Result<Response>)
    requires Iterable(snap) && q.db == snap.db && limits.rows >= 1
    requires forall i :: 0 <= i < |q.channels| ==> ChannelReadable(q.db, q.channels[i], q.principal)
    ensures Faithful(snap) ==> SnapshotPage(snap, VisibleTo(q), limits, size, fromSeq, r)
    ensures r.Success? ==> Given(snap, VisibleTo(q), limits, size, fromSeq, r.value)
    ensures r.Success? ==> MovesBackIff(snap.db.maxSeq, fromSeq, r.value.nextSeq)
    ensures r.Failure? ==> r.status == CORRUPTION && Broken(snap, fromSeq, limits.scan)
  {
    hide Faithful;
    hide ChannelReadable;
    hide AnswersAll;
    hide VisitedInOrder;
    hide StateAfter;
    hide Ended;
    hide ActionAt;
    hide AllContinue;
    hide PassedCount;
    hide PassedOver;
    hide PageOk;
    hide Inv;
    hide Represents;
    hide Intact;
    hide Scannable;
    hide Orphaned;
    var maxSeq: U64 := snap.db.maxSeq;
    if fromSeq > maxSeq {
      if Faithful(snap) {
        EmptyPage(snap, VisibleTo(q), limits, size, fromSeq);
      }
      return Success(Response([], (maxSeq + 1) % TWO64, maxSeq));
    }
    var cache: map<nat, bool> := map[];
    var i := 0;
    while i < |q.channels|
      invariant 0 <= i <= |q.channels|
      invariant CacheAgrees(q.db, q.principal, cache)
    {
      cache := cache[q.channels[i] := true];
      i := i + 1;
    }
    var init := Page([], 0, cache);
    var next, page, visited := ScanMessages(snap.cf, fromSeq, maxSeq, limits.scan, VisibleVisitor(q, limits, size), init);
    if Faithful(snap) {
      FaithfulFacts(snap);
      LogIsIntact(snap.cf, snap.db, fromSeq);
      IntactScannable(snap.cf, fromSeq, maxSeq, limits.scan);
      if |visited| > 0 {
        VisibleNeverFails(snap, q, limits, size, init, fromSeq, visited);
      }
    }
    if next.Failure? {
      if |visited| > 0 {
        VisibleFailure(snap, q, limits, size, init, fromSeq, visited);
      }
      return Failure(next.status);
    }
    r := Success(Response(page.messages, next.value, maxSeq));
    VisibleAnswersAll(q, limits, size, init, visited);
    ScanPasses(VisibleVisitor(q, limits, size), VisibleTo(q), limits, size, init, snap.cf, fromSeq, maxSeq, visited, r.value);
    CursorStays(snap, VisibleTo(q), limits, size, fromSeq, r.value);
    if Faithful(snap) {
      ScanMakesPage(VisibleVisitor(q, limits, size), VisibleTo(q), limits, size, init, snap.cf, snap.db, fromSeq, visited, r.value);
    }
  }

  /** One page of the whole log, for the administrator. */
  method ListAllMessages(snap: Snapshot, limits: Limits, size: Message -> nat, fromSeq: U64) returns (r: Result<Response>)
    requires Iterable(snap) && limits.rows >= 1
    ensures Faithful(snap) ==> SnapshotPage(snap, Everything(), limits, size, fromSeq, r)
    ensures r.Success? ==> Given(snap, Everything(), limits, size, fromSeq, r.value)
    ensures r.Success? ==> MovesBackIff(snap.db.maxSeq, fromSeq, r.value.nextSeq)
    ensures r.Failure? ==> r.status == CORRUPTION && Broken(snap, fromSeq, limits.scan)
  {
    hide Faithful;
    hide AnswersAll;
    hide VisitedInOrder;
    hide StateAfter;
    hide Ended;
    hide ActionAt;
    hide AllContinue;
    hide PassedCount;
    hide PassedOver;
    hide PageOk;
    hide Inv;
    hide Represents;
    hide Intact;
    hide Scannable;
    hide Orphaned;
    var maxSeq: U64 := snap.db.maxSeq;
    if fromSeq > maxSeq {
      if Faithful(snap) {
        EmptyPage(snap, Everything(), limits, size, fromSeq);
      }
      return Success(Response([], (maxSeq + 1) % TWO64, maxSeq));
    }
    var init := Page([], 0, map[]);
    var next, page, visited := ScanMessages(snap.cf, fromSeq, maxSeq, limits.scan, AnyVisitor(snap.db, limits, size), init);
    if Faithful(snap) {
      FaithfulFacts(snap);
      LogIsIntact(snap.cf, snap.db, fromSeq);
      IntactScannable(snap.cf, fromSeq, maxSeq, limits.scan);
      if |visited| > 0 {
        AnyNeverFails(snap, limits, size, init, fromSeq, visited);
      }
    }
    if next.Failure? {
      if |visited| > 0 {
        AnyFailure(snap, limits, size, init, fromSeq, visited);
      }
      return Failure(next.status);
    }
    r := Success(Response(page.messages, next.value, maxSeq));
    AnyAnswersAll(snap.db, limits, size, init, visited);
    ScanPasses(AnyVisitor(snap.db, limits, size), Everything(), limits, size, init, snap.cf, fromSeq, maxSeq, visited, r.value);
    CursorStays(snap, Everything(), limits, size, fromSeq, r.value);
    if Faithful(snap) {
      ScanMakesPage(AnyVisitor(snap.db, limits, size), Everything(), limits, size, init, snap.cf, snap.db, fromSeq, visited, r.value);
    }
  }

  // ---------------------------------------------------------------- requests

  const MAX_PAGE_ROWS := 1000

  /** The request is refused before anything is read: the row limit, the credential or a channel. */
  ghost predicate Refused(db: Db, r: FetchRequest, status: Status) {
    if r.limit == 0 || r.limit > MAX_PAGE_ROWS then status == Reject(InvalidArgument)
    else if Authenticate(db, r.credential) != Ok then status == Authenticate(db, r.credential)
    else status != Ok && FirstProblem(db, r.credential.principal, r.channels, status)
  }

  /** The requested channels are all readable. */
  lemma {:induction false} NoProblem(db: Db, principal: U64, channels: seq<nat>)
    requires FirstProblem(db, principal, channels, Ok)
    ensures forall i :: 0 <= i < |channels| ==> ChannelReadable(db, channels[i], principal)
    ensures forall status :: FirstProblem(db, principal, channels, status) ==> status == Ok
  {
    hide ChannelReadable;
    hide ChannelStatus;
    forall i | 0 <= i < |channels|
      ensures ChannelReadable(db, channels[i], principal)
    {
      ReadableIsOk(db, channels[i], principal);
    }
  }

  method Fetch(snap: Snapshot, scanBudget: nat, softLimit: nat, size: Message -> nat, r: FetchRequest)
    returns (resp: Result<Response>)
    requires Iterable(snap)
    ensures Faithful(snap) ==>
              if resp.Failure? then Refused(snap.db, r, resp.status)
              else (forall status :: !Refused(snap.db, r, status))
                   && SnapshotPage(snap, VisibleTo(QueryOf(snap.db, r)), Limits(r.limit, scanBudget, softLimit), size, r.fromSeq, resp)
    ensures Faithful(snap) ==>
              if resp.Failure? then RefusedFor(snap.db, r, resp.status)
              else (forall status :: !RefusedFor(snap.db, r, status)) && PageShows(snap.db, r, r.fromSeq, resp.value)
    ensures resp.Failure? ==>
              Refused(snap.db, r, resp.status) || (resp.status == CORRUPTION && Broken(snap, r.fromSeq, scanBudget))
    ensures resp.Success? ==>
              && (forall status :: !Refused(snap.db, r, status))
              && Given(snap, VisibleTo(QueryOf(snap.db, r)), Limits(r.limit, scanBudget, softLimit), size, r.fromSeq, resp.value)
  {
    hide Given;
    hide Broken;
    hide Inv;
    hide Represents;
    hide RefusedFor;
    hide PageShows;
    if Faithful(snap) {
      FaithfulFacts(snap);
      forall status
        ensures Refused(snap.db, r, status) <==> RefusedFor(snap.db, r, status)
      {
        RefusedIff(snap.db, r, status);
      }
    }
    hide Faithful;
    hide SnapshotPage;
    hide FirstProblem;
    hide Authenticate;
    if r.limit == 0 || r.limit > MAX_PAGE_ROWS {
      return Failure(Reject(InvalidArgument));
    }
    var auth := Authenticate(snap.db, r.credential);
    if auth != Ok {
      return Failure(auth);
    }
    var status := ValidateReadableChannels(snap.db, r.credential.principal, r.channels);
    if status != Ok {
      return Failure(status);
    }
    NoProblem(snap.db, r.credential.principal, r.channels);
    resp := FetchVisible(snap, QueryOf(snap.db, r), Limits(r.limit, scanBudget, softLimit), size, r.fromSeq);
    if Faithful(snap) {
      assert resp.Success? by {
        PageSucceeds(snap, VisibleTo(QueryOf(snap.db, r)), Limits(r.limit, scanBudget, softLimit), size, r.fromSeq, resp);
      }
      PageShowsIt(snap, r, Limits(r.limit, scanBudget, softLimit), size, r.fromSeq, resp.value);
    }
  }

  lemma {:induction false} PageSucceeds(snap: Snapshot, visible: Message -> bool, limits: Limits, size: Message -> nat,
                               fromSeq: nat, r: Result<Response>)
    requires SnapshotPage(snap, visible, limits, size, fromSeq, r)
    ensures r.Success?
  {
  }

  // ---------------------------------------------------------------- following the cursor

  /** Pages of one snapshot, each asked for at the cursor of the one before, with limits of its own. */
  ghost predicate Chain(visible: Message -> bool, log: map<nat, Message>, maxSeq: nat, size: Message -> nat,
                        fromSeq: nat, limits: seq<Limits>, pages: seq<Response>)
    requires forall s: nat :: s <= maxSeq ==> s in log
  {
    && |limits| == |pages|
    && forall i :: 0 <= i < |pages| ==>
         limits[i].scan >= 1 && PageOk(visible, log, maxSeq, limits[i], size, AskedAt(fromSeq, pages, i), pages[i])
  }

  /** Where page `i` starts: at the cursor of the page before. */
  function AskedAt(fromSeq: nat, pages: seq<Response>, i: nat): nat
    requires i < |pages|
  {
    if i == 0 then fromSeq else pages[i - 1].nextSeq
  }

  function Delivered(pages: seq<Response>): seq<Message> {
    if |pages| == 0 then [] else Delivered(pages[..|pages| - 1]) + pages[|pages| - 1].messages
  }

  lemma {:induction false} SelectedConcat(visible: Message -> bool, a: seq<Message>, b: seq<Message>)
    ensures Selected(visible, a + b) == Selected(visible, a) + Selected(visible, b)
  {
    if |b| == 0 {
      assert a + b == a;
    } else {
      var n := |b| - 1;
      assert (a + b)[..|a + b| - 1] == a + b[..n];
      SelectedConcat(visible, a, b[..n]);
    }
  }

  /** Reading on from `b` continues reading from `a`. */
  lemma {:induction false} SelectedBetween(visible: Message -> bool, log: map<nat, Message>, a: nat, b: nat, c: nat)
    requires a <= b <= c && forall s: nat :: a <= s < c ==> s in log
    ensures Selected(visible, LogBetween(log, a, b)) + Selected(visible, LogBetween(log, b, c))
         == Selected(visible, LogBetween(log, a, c))
  {
    hide Selected;
    SelectedConcat(visible, LogBetween(log, a, b), LogBetween(log, b, c));
    assert LogBetween(log, a, b) + LogBetween(log, b, c) == LogBetween(log, a, c);
  }

  /** A page at `mid` continues what was read from `a`, and moves on unless the log ends there. */
  lemma {:induction false} PageAdvances(visible: Message -> bool, log: map<nat, Message>, maxSeq: nat, limits: Limits,
      size: Message -> nat, a: nat, mid: nat, resp: Response)
    requires forall s: nat :: s <= maxSeq ==> s in log
    requires a <= mid <= maxSeq + 1 && PageOk(visible, log, maxSeq, limits, size, mid, resp)
    ensures mid <= resp.nextSeq <= maxSeq + 1
    ensures limits.scan >= 1 && mid <= maxSeq ==> mid < resp.nextSeq
    ensures Selected(visible, LogBetween(log, a, mid)) + resp.messages == Selected(visible, LogBetween(log, a, resp.nextSeq))
  {
    hide Selected;
    hide WithinSoftLimit;
    hide DoesNotFit;
    if mid <= maxSeq {
      SelectedBetween(visible, log, a, mid, resp.nextSeq);
    }
  }

  function Cursor(fromSeq: nat, pages: seq<Response>): nat {
    if |pages| == 0 then fromSeq else pages[|pages| - 1].nextSeq
  }

  lemma {:induction false} SelectedNone(visible: Message -> bool)
    ensures Selected(visible, []) == []
  {
  }

  lemma {:induction false} ChainPage(visible: Message -> bool, log: map<nat, Message>, maxSeq: nat, size: Message -> nat,
      fromSeq: nat, limits: seq<Limits>, pages: seq<Response>, i: nat)
    requires forall s: nat :: s <= maxSeq ==> s in log
    requires Chain(visible, log, maxSeq, size, fromSeq, limits, pages) && i < |pages|
    ensures |limits| == |pages| && limits[i].scan >= 1 && pages[i].lastSeq == maxSeq
    ensures PageOk(visible, log, maxSeq, limits[i], size, Cursor(fromSeq, pages[..i]), pages[i])
  {
    hide Selected;
    assert AskedAt(fromSeq, pages, i) == Cursor(fromSeq, pages[..i]);
  }

  lemma {:induction false} ChainPrefix(visible: Message -> bool, log: map<nat, Message>, maxSeq: nat, size: Message -> nat,
      fromSeq: nat, limits: seq<Limits>, pages: seq<Response>)
    requires forall s: nat :: s <= maxSeq ==> s in log
    requires |pages| > 0 && Chain(visible, log, maxSeq, size, fromSeq, limits, pages)
    ensures Chain(visible, log, maxSeq, size, fromSeq, limits[..|pages| - 1], pages[..|pages| - 1])
  {
    hide PageOk;
    var init, ls := pages[..|pages| - 1], limits[..|pages| - 1];
    forall i | 0 <= i < |init|
      ensures ls[i].scan >= 1 && PageOk(visible, log, maxSeq, ls[i], size, AskedAt(fromSeq, init, i), init[i])
    {
      assert AskedAt(fromSeq, init, i) == AskedAt(fromSeq, pages, i);
      assert init[i] == pages[i] && ls[i] == limits[i];
    }
  }

  /**
   However the limits are chosen, the pages so far are exactly the visible log
   between the start and the cursor, and each page short of the end moved it.
   */
  lemma {:induction false} ChainDelivers(visible: Message -> bool, log: map<nat, Message>, maxSeq: nat, size: Message -> nat,
      fromSeq: nat, limits: seq<Limits>, pages: seq<Response>)
    requires forall s: nat :: s <= maxSeq ==> s in log
    requires fromSeq <= maxSeq + 1 && Chain(visible, log, maxSeq, size, fromSeq, limits, pages)
    ensures fromSeq <= Cursor(fromSeq, pages) <= maxSeq + 1
    ensures Delivered(pages) == Selected(visible, LogBetween(log, fromSeq, Cursor(fromSeq, pages)))
    ensures Cursor(fromSeq, pages) <= maxSeq ==> |pages| <= Cursor(fromSeq, pages) - fromSeq
    decreases |pages|
  {
    hide Selected;
    SelectedNone(visible);
    if |pages| > 0 {
      hide PageOk;
      hide Chain;
      var n := |pages| - 1;
      var init := pages[..n];
      ChainPrefix(visible, log, maxSeq, size, fromSeq, limits, pages);
      ChainDelivers(visible, log, maxSeq, size, fromSeq, limits[..n], init);
      var mid := Cursor(fromSeq, init);
      ChainPage(visible, log, maxSeq, size, fromSeq, limits, pages, n);
      PageAdvances(visible, log, maxSeq, limits[n], size, fromSeq, mid, pages[n]);
    }
  }

  /**
   A client that follows `nextSeq` until it passes `lastSeq` has received the whole
   visible log from its start on, nothing else, nothing twice, and needed at most
   one page per log entry.
   */
  lemma {:induction false} WalkDeliversTheLog(visible: Message -> bool, log: map<nat, Message>, maxSeq: nat,
      size: Message -> nat, fromSeq: nat, limits: seq<Limits>, pages: seq<Response>)
    requires forall s: nat :: s <= maxSeq ==> s in log
    requires fromSeq <= maxSeq && Chain(visible, log, maxSeq, size, fromSeq, limits, pages)
    requires forall i :: 0 <= i < |pages| - 1 ==> pages[i].nextSeq <= pages[i].lastSeq
    ensures |pages| > 0 && pages[|pages| - 1].nextSeq > pages[|pages| - 1].lastSeq ==>
              Delivered(pages) == Selected(visible, LogBetween(log, fromSeq, maxSeq + 1))
    ensures |pages| <= maxSeq + 1 - fromSeq
  {
    hide PageOk;
    hide Selected;
    hide Delivered;
    hide Chain;
    ChainDelivers(visible, log, maxSeq, size, fromSeq, limits, pages);
    if |pages| > 0 {
      var n := |pages| - 1;
      ChainPage(visible, log, maxSeq, size, fromSeq, limits, pages, n);
      if n > 0 {
        ChainPage(visible, log, maxSeq, size, fromSeq, limits, pages, n - 1);
        ChainPrefix(visible, log, maxSeq, size, fromSeq, limits, pages);
        ChainDelivers(visible, log, maxSeq, size, fromSeq, limits[..n], pages[..n]);
        assert pages[..n][n - 1] == pages[n - 1];
      }
    }
  }
}
