/**
 Reading the log in pages: the visitor of a fetch with its channel cache and its
 three stop conditions, and the proof that following the cursor yields exactly the
 visible part of the log.
 */
module Paging {
  import opened Types
  import opened Records
  import opened Store
  import opened LogInvariants
  import opened ChannelEvents
  import opened Encoding
  import opened Scan

  /** Row limit of the request, record budget of a scan, soft byte limit of a response. */
  datatype Limits = Limits(rows: nat, scan: nat, bytes: nat)

  datatype Query = Query(db: Db, principal: U64, onlyMine: bool, channels: seq<nat>)

  /** The page under construction and what is known about channels so far. */
  datatype Page = Page(messages: seq<Message>, bytes: nat, cache: map<nat, bool>)

  datatype Response = Response(messages: seq<Message>, nextSeq: nat, lastSeq: nat)

  // ---------------------------------------------------------------- reference definitions

  predicate ChannelReadable(db: Db, c: nat, principal: U64) {
    var loaded := LoadChannel(db, c);
    loaded.Success? && loaded.value.Some? && CanRead(loaded.value.value, principal)
  }

  /** What the principal asked for and may see. */
  predicate Visible(q: Query, m: Message) {
    && (q.channels == [] || m.channelId in q.channels)
    && ChannelReadable(q.db, m.channelId, q.principal)
    && (q.onlyMine ==> q.principal in m.recipients)
  }

  function VisibleTo(q: Query): Message -> bool {
    m => Visible(q, m)
  }

  function Everything(): Message -> bool {
    _ => true
  }

  function Selected(visible: Message -> bool, ms: seq<Message>): seq<Message> {
    if |ms| == 0 then []
    else
      var last := ms[|ms| - 1];
      Selected(visible, ms[..|ms| - 1]) + (if visible(last) then [last] else [])
  }

  function Total(size: Message -> nat, ms: seq<Message>): nat {
    if |ms| == 0 then 0 else Total(size, ms[..|ms| - 1]) + size(ms[|ms| - 1])
  }

  /** The log entries numbered from `a` up to, not including, `b`. */
  function LogBetween(log: map<nat, Message>, a: nat, b: nat): (r: seq<Message>)
    requires a <= b && forall s: nat :: a <= s < b ==> s in log
    ensures |r| == b - a && forall k :: 0 <= k < |r| ==> r[k] == log[a + k]
  {
    seq(b - a, k requires 0 <= k < b - a => log[a + k])
  }

  // ---------------------------------------------------------------- visitors

  /** `a - min(b, a)`: the subtraction the byte budget is computed with. */
  function Remaining(limit: nat, used: nat): nat {
    limit - (if used < limit then used else limit)
  }

  /** A message that may be shown: it ends the page, or joins it. */
  function TryAdd(limits: Limits, size: Message -> nat, p: Page, m: Message): Visit<Page> {
    if |p.messages| > 0 && size(m) > Remaining(limits.bytes, p.bytes) then Visit(p, Success(StopBefore))
    else
      var p' := p.(messages := p.messages + [m], bytes := p.bytes + size(m));
      Visit(p', Success(if |p'.messages| >= limits.rows then StopAfter else Continue))
  }

  /** The visitor of `FetchVisible`. */
  function VisitVisible(q: Query, limits: Limits, size: Message -> nat, p: Page, m: Message): Visit<Page> {
    if q.channels != [] && m.channelId !in q.channels then Visit(p, Success(Continue))
    else
      var loaded := LoadChannel(q.db, m.channelId);
      if m.channelId !in p.cache && loaded.Failure? then Visit(p, Failure(loaded.status))
      else if m.channelId !in p.cache && loaded.value.None? then Visit(p, Failure(CORRUPTION))
      else
        var readable := if m.channelId in p.cache then p.cache[m.channelId] else CanRead(loaded.value.value, q.principal);
        var p' := p.(cache := p.cache[m.channelId := readable]);
        if !readable || (q.onlyMine && q.principal !in m.recipients) then Visit(p', Success(Continue))
        else TryAdd(limits, size, p', m)
  }

  /** The visitor of `ListAllMessages`; the cache holds the channels already seen. */
  function VisitAny(db: Db, limits: Limits, size: Message -> nat, p: Page, m: Message): Visit<Page> {
    var loaded := LoadChannel(db, m.channelId);
    if m.channelId !in p.cache && loaded.Failure? then Visit(p, Failure(loaded.status))
    else if m.channelId !in p.cache && loaded.value.None? then Visit(p, Failure(CORRUPTION))
    else TryAdd(limits, size, p.(cache := p.cache[m.channelId := true]), m)
  }

  /** Every cached answer is the one `CanRead` would give in this snapshot. */
  ghost predicate CacheAgrees(db: Db, principal: U64, cache: map<nat, bool>) {
    forall c: nat :: c in cache ==> cache[c] == ChannelReadable(db, c, principal)
  }

  /** The answer a page gives to one message, stated without a cache. */
  predicate Answers(visible: Message -> bool, limits: Limits, size: Message -> nat, p: Page, m: Message, v: Visit<Page>) {
    v.action.Success? ==>
      if !visible(m) then
        v.action.value.Continue? && v.state.messages == p.messages && v.state.bytes == p.bytes
      else if |p.messages| > 0 && size(m) > Remaining(limits.bytes, p.bytes) then
        v.action.value.StopBefore? && v.state.messages == p.messages && v.state.bytes == p.bytes
      else
        && v.state.messages == p.messages + [m] && v.state.bytes == p.bytes + size(m)
        && v.action.value == if |p.messages| + 1 >= limits.rows then StopAfter else Continue
  }

  /** The cache, explicit channels included, never changes what a page contains. */
  lemma {:induction false} VisitVisibleAnswers(q: Query, limits: Limits, size: Message -> nat, p: Page, m: Message)
    requires CacheAgrees(q.db, q.principal, p.cache)
    ensures var v := VisitVisible(q, limits, size, p, m);
            && Answers(VisibleTo(q), limits, size, p, m, v)
            && CacheAgrees(q.db, q.principal, v.state.cache)
            && (v.action.Failure? ==>
                  && v.action.status == CORRUPTION
                  && !(LoadChannel(q.db, m.channelId).Success? && LoadChannel(q.db, m.channelId).value.Some?))
  {
    hide LoadChannel;
    LoadFailure(q.db, m.channelId);
  }

  lemma {:induction false} VisitAnyAnswers(db: Db, limits: Limits, size: Message -> nat, p: Page, m: Message)
    ensures var v := VisitAny(db, limits, size, p, m);
            && Answers(Everything(), limits, size, p, m, v)
            && (v.action.Failure? ==>
                  && v.action.status == CORRUPTION
                  && !(LoadChannel(db, m.channelId).Success? && LoadChannel(db, m.channelId).value.Some?))
  {
    hide LoadChannel;
    LoadFailure(db, m.channelId);
  }

  // ---------------------------------------------------------------- what a scan makes of a page

  /** The visitor answers as a page should on every prefix of `ms`. */
  ghost predicate AnswersAll(visitor: (Page, Message) -> Visit<Page>, visible: Message -> bool, limits: Limits,
                             size: Message -> nat, init: Page, ms: seq<Message>) {
    forall k :: 0 <= k < |ms| ==>
      var p := StateAfter(visitor, init, ms[..k]);
      Answers(visible, limits, size, p, ms[k], visitor(p, ms[k]))
  }

  lemma {:induction false} AnswersPrefix(visitor: (Page, Message) -> Visit<Page>, visible: Message -> bool, limits: Limits,
      size: Message -> nat, init: Page, ms: seq<Message>)
    requires AnswersAll(visitor, visible, limits, size, init, ms) && |ms| > 0
    ensures AnswersAll(visitor, visible, limits, size, init, ms[..|ms| - 1])
  {
    hide Answers;
    var pre := ms[..|ms| - 1];
    assert forall k :: 0 <= k < |pre| ==> pre[..k] == ms[..k];
  }

  lemma {:induction false} TotalSnoc(size: Message -> nat, ms: seq<Message>, m: Message)
    ensures Total(size, ms + [m]) == Total(size, ms) + size(m)
  {
    assert (ms + [m])[..|ms|] == ms;
  }

  /** Serialized messages are never empty. */
  ghost predicate AllPositive(size: Message -> nat, ms: seq<Message>) {
    forall k :: 0 <= k < |ms| ==> size(ms[k]) > 0
  }

  /**
   What becomes of the soft limit: a page is within it if and only if it is empty or
   its first message is, and always if it has two or more messages, none of them empty.
   */
  ghost predicate WithinSoftLimit(limits: Limits, size: Message -> nat, ms: seq<Message>) {
    && (Total(size, ms) <= limits.bytes <==> |ms| == 0 || size(ms[0]) <= limits.bytes)
    && (|ms| >= 2 && AllPositive(size, ms) ==> Total(size, ms) <= limits.bytes)
  }

  /** Adding a message that fits keeps what is promised about the soft limit. */
  lemma {:induction false} ByteRoom(limits: Limits, size: Message -> nat, ms: seq<Message>, m: Message)
    requires WithinSoftLimit(limits, size, ms)
    requires |ms| > 0 ==> size(m) <= Remaining(limits.bytes, Total(size, ms))
    ensures Total(size, ms + [m]) == Total(size, ms) + size(m)
    ensures WithinSoftLimit(limits, size, ms + [m])
  {
    TotalSnoc(size, ms, m);
    if AllPositive(size, ms + [m]) {
      assert (ms + [m])[|ms|] == m;
    }
    assert |ms| > 0 ==> (ms + [m])[0] == ms[0];
  }

  lemma {:induction false} SelectedSnoc(visible: Message -> bool, ms: seq<Message>)
    requires |ms| > 0
    ensures var n := |ms| - 1;
            Selected(visible, ms) == Selected(visible, ms[..n]) + (if visible(ms[n]) then [ms[n]] else [])
  {
  }

  /** The page is the selection of `ms`, and its byte count is its size. */
  ghost predicate Holds(visible: Message -> bool, limits: Limits, size: Message -> nat, ms: seq<Message>, p: Page) {
    && p.messages == Selected(visible, ms) && p.bytes == Total(size, p.messages)
    && WithinSoftLimit(limits, size, p.messages)
  }

  /** One more answer. */
  lemma {:induction false} HoldsStep(visible: Message -> bool, limits: Limits, size: Message -> nat,
      ms: seq<Message>, p: Page, v: Visit<Page>)
    requires |ms| > 0 && Holds(visible, limits, size, ms[..|ms| - 1], p)
    requires Answers(visible, limits, size, p, ms[|ms| - 1], v) && v.action.Success?
    ensures if v.action.value.StopBefore? then Holds(visible, limits, size, ms[..|ms| - 1], v.state)
            else Holds(visible, limits, size, ms, v.state)
    ensures |v.state.messages| <= |p.messages| + 1
  {
    hide Selected;
    hide Total;
    SelectedSnoc(visible, ms);
    var m := ms[|ms| - 1];
    if v.state.messages != p.messages {
      ByteRoom(limits, size, p.messages, m);
    }
  }

  /** While every answer is to continue, the page is the selection so far and has room for a row. */
  lemma {:induction false} PageSoFar(visitor: (Page, Message) -> Visit<Page>, visible: Message -> bool, limits: Limits,
      size: Message -> nat, init: Page, ms: seq<Message>)
    requires AnswersAll(visitor, visible, limits, size, init, ms) && AllContinue(visitor, init, ms, |ms|)
    requires init.messages == [] && init.bytes == 0 && limits.rows >= 1
    ensures var p := StateAfter(visitor, init, ms);
            Holds(visible, limits, size, ms, p) && |p.messages| < limits.rows
  {
    if |ms| > 0 {
      hide Holds;
      var n := |ms| - 1;
      var pre := ms[..n];
      AnswersPrefix(visitor, visible, limits, size, init, ms);
      ContinuePrefix(visitor, init, ms);
      PageSoFar(visitor, visible, limits, size, init, pre);
      var p := StateAfter(visitor, init, pre);
      assert Answers(visible, limits, size, p, ms[n], visitor(p, ms[n]));
      assert ActionAt(visitor, init, ms, n) == Success(Continue);
      HoldsStep(visible, limits, size, ms, p, visitor(p, ms[n]));
    }
  }

  lemma {:induction false} ContinuePrefix(visitor: (Page, Message) -> Visit<Page>, init: Page, ms: seq<Message>)
    requires |ms| > 0 && AllContinue(visitor, init, ms, |ms| - 1)
    ensures AllContinue(visitor, init, ms[..|ms| - 1], |ms| - 1)
  {
    var pre := ms[..|ms| - 1];
    assert forall k :: 0 <= k < |pre| ==> pre[..k] == ms[..k];
    assert forall k :: 0 <= k < |pre| ==> ActionAt(visitor, init, pre, k) == ActionAt(visitor, init, ms, k);
  }

  /** A visible message that the page has no room for. */
  predicate DoesNotFit(visible: Message -> bool, limits: Limits, size: Message -> nat, page: seq<Message>, m: Message) {
    visible(m) && |page| > 0 && size(m) > Remaining(limits.bytes, Total(size, page))
  }

  /**
   The page of a finished scan: it holds the selection of what was passed, the
   cursor moved if anything was seen, and if the visitor ended it, then because the
   rows are full or the next visible message does not fit.
   */
  lemma {:induction false} PageEnds(visitor: (Page, Message) -> Visit<Page>, visible: Message -> bool, limits: Limits,
      size: Message -> nat, init: Page, ms: seq<Message>)
    requires AnswersAll(visitor, visible, limits, size, init, ms) && |ms| > 0
    requires AllContinue(visitor, init, ms, |ms| - 1) && ActionAt(visitor, init, ms, |ms| - 1).Success?
    requires init.messages == [] && init.bytes == 0 && limits.rows >= 1
    ensures var p, n := StateAfter(visitor, init, ms), PassedCount(visitor, init, ms);
            && Holds(visible, limits, size, ms[..n], p) && 0 < n && |p.messages| <= limits.rows
            && (ActionAt(visitor, init, ms, |ms| - 1) == Success(Continue) ==> n == |ms|)
            && (ActionAt(visitor, init, ms, |ms| - 1) != Success(Continue) ==>
                  || |p.messages| == limits.rows
                  || (n < |ms| && DoesNotFit(visible, limits, size, p.messages, ms[n])))
  {
    var k := |ms| - 1;
    var pre := ms[..k];
    AnswersPrefix(visitor, visible, limits, size, init, ms);
    ContinuePrefix(visitor, init, ms);
    PageSoFar(visitor, visible, limits, size, init, pre);
    var p := StateAfter(visitor, init, pre);
    assert Answers(visible, limits, size, p, ms[k], visitor(p, ms[k]));
    HoldsStep(visible, limits, size, ms, p, visitor(p, ms[k]));
    assert ms[..|ms|] == ms;
    assert k == 0 ==> p.messages == [];
  }

  // ---------------------------------------------------------------- pages of a snapshot

  /** The message is stored under number `s`. */
  ghost predicate Holding(cf: seq<Entry<Value>>, s: nat, m: Message) {
    s < TWO64 && exists j :: 0 <= j < |cf| && cf[j] == Entry(Key(s), Parsed(m))
  }

  /** An entry of the message family is a message of the log under its own number. */
  predicate Logged(e: Entry<Value>, db: Db) {
    && IsNumericKey(e.key, MESSAGE_PREFIX) && KeyValue(e.key, MESSAGE_PREFIX) in db.messages
    && e.value == Parsed(db.messages[KeyValue(e.key, MESSAGE_PREFIX)])
  }

  /** The message family of a snapshot holds exactly the log. */
  ghost predicate Represents(cf: seq<Entry<Value>>, db: Db) {
    && Sorted(cf) && db.maxSeq + 1 < TWO64
    && (forall j :: 0 <= j < |cf| && StartsWith(cf[j].key, MESSAGE_PREFIX) ==> Logged(cf[j], db))
    && (forall s: nat :: s in db.messages ==> Holding(cf, s, db.messages[s]))
  }

  lemma {:induction false} SameKeySameEntry(cf: seq<Entry<Value>>, i: nat, j: nat)
    requires Sorted(cf) && i < |cf| && j < |cf| && cf[i].key == cf[j].key
    ensures i == j
  {
    LessIrreflexive(cf[i].key);
  }

  /** What the scan finds under a number is the log's entry. */
  lemma {:induction false} GoodIsLogged(cf: seq<Entry<Value>>, db: Db, s: nat, m: Message)
    requires Represents(cf, db) && s in db.messages && GoodAt(cf, s, m)
    ensures m == db.messages[s]
  {
    hide ValidStoredMessage;
    assert Holding(cf, s, db.messages[s]);
    var i :| 0 <= i < |cf| && cf[i] == Entry(Key(s), Parsed(m));
    var j :| 0 <= j < |cf| && cf[j] == Entry(Key(s), Parsed(db.messages[s]));
    SameKeySameEntry(cf, i, j);
  }

  lemma {:induction false} LogIsIntact(cf: seq<Entry<Value>>, db: Db, fromSeq: U64)
    requires Represents(cf, db) && Inv(db) && fromSeq <= db.maxSeq
    ensures Intact(cf, fromSeq, db.maxSeq)
  {
    hide ValidStoredMessage;
    hide Replay;
    hide Justified;
    hide ValidObject;
    forall s: nat | fromSeq <= s <= db.maxSeq
      ensures HasGood(cf, s)
    {
      assert Holding(cf, s, db.messages[s]);
      assert GoodAt(cf, s, db.messages[s]);
    }
    assert forall j: nat :: !Malformed(cf, j, fromSeq);
  }

  /** The scan visited a stretch of the log. */
  lemma {:induction false} VisitedIsLog(cf: seq<Entry<Value>>, db: Db, fromSeq: U64, ms: seq<Message>)
    requires Represents(cf, db) && GapFree(db) && fromSeq <= db.maxSeq
    requires VisitedInOrder(cf, fromSeq, db.maxSeq, ms)
    ensures fromSeq + |ms| <= db.maxSeq + 1
    ensures forall n: nat :: n <= |ms| ==> ms[..n] == LogBetween(db.messages, fromSeq, fromSeq + n)
  {
    hide GoodAt;
    hide Represents;
    if |ms| > 0 {
      var k := |ms| - 1;
      assert GoodAt(cf, fromSeq + k, ms[k]);
    }
    forall k | 0 <= k < |ms|
      ensures ms[k] == db.messages[fromSeq + k]
    {
      assert GoodAt(cf, fromSeq + k, ms[k]);
      GoodIsLogged(cf, db, fromSeq + k, ms[k]);
    }
  }

  lemma {:induction false} ReplayStays(log: map<nat, Message>, s: nat, n: nat, c: nat)
    requires s <= n && Replay(log, s, c).Some?
    ensures Replay(log, n, c).Some?
    decreases n
  {
    hide EventOf;
    if s < n {
      ReplayStays(log, s, n - 1, c);
    }
  }

  /** Once a justified entry is replayed, its channel exists. */
  lemma {:induction false} EntryHasChannel(log: map<nat, Message>, s: nat)
    requires s in log && s > 0 && Justified(log, s) && log[s].channelId != 0
    ensures Replay(log, s + 1, log[s].channelId).Some?
  {
    hide EventOf;
  }

  /** Every logged message belongs to a channel that loads. */
  lemma {:induction false} MessageChannelLoads(db: Db, s: nat)
    requires Inv(db) && s in db.messages
    ensures var c := LoadChannel(db, db.messages[s].channelId); c.Success? && c.value.Some?
  {
    hide ValidObject;
    hide Justified;
    hide Replay;
    hide ValidStoredMessage;
    var m := db.messages[s];
    assert ValidStoredMessage(m) && Justified(db.messages, s) && m.sequence == s;
    InitializationChannel(m);
    if s > 0 {
      EntryHasChannel(db.messages, s);
      ReplayStays(db.messages, s + 1, db.maxSeq + 1, m.channelId);
      assert StoredChannel(db, m.channelId).Some?;
      assert ChannelSound(db.channels[m.channelId], m.channelId);
    }
  }

  lemma {:induction false} InitializationChannel(m: Message)
    requires ValidStoredMessage(m)
    ensures m.sequence == 0 <==> m.channelId == 0
  {
    hide ValidChannelSystemMessage;
  }

  /** What a page promises about the log `log` numbered 0..maxSeq. */
  ghost predicate PageOk(visible: Message -> bool, log: map<nat, Message>, maxSeq: nat, limits: Limits,
                         size: Message -> nat, fromSeq: nat, resp: Response)
    requires forall s: nat :: s <= maxSeq ==> s in log
  {
    && resp.lastSeq == maxSeq
    && if fromSeq > maxSeq then resp.messages == [] && resp.nextSeq == maxSeq + 1
       else
         && fromSeq <= resp.nextSeq <= maxSeq + 1
         && resp.messages == Selected(visible, LogBetween(log, fromSeq, resp.nextSeq))
         && (limits.scan >= 1 ==> fromSeq < resp.nextSeq)
         && |resp.messages| <= limits.rows && resp.nextSeq - fromSeq <= limits.scan
         && WithinSoftLimit(limits, size, resp.messages)
         && (|| resp.nextSeq == maxSeq + 1
             || |resp.messages| == limits.rows
             || resp.nextSeq - fromSeq == limits.scan
             || DoesNotFit(visible, limits, size, resp.messages, log[resp.nextSeq]))
  }

  /** The valid message stored next is visible and has no room in the page. */
  ghost predicate Crowded(cf: seq<Entry<Value>>, visible: Message -> bool, limits: Limits, size: Message -> nat,
                          s: nat, page: seq<Message>) {
    exists m :: GoodAt(cf, s, m) && DoesNotFit(visible, limits, size, page, m)
  }

  /**
   For arbitrary contents: the page is the selection of a gap-free stretch of valid
   stored messages, the cursor stands behind it, the limits are kept, and it ends
   before the range does only for one of them.
   */
  ghost predicate PassedOver(cf: seq<Entry<Value>>, visible: Message -> bool, limits: Limits, size: Message -> nat,
                             fromSeq: U64, lastSeq: U64, resp: Response) {
    exists passed: seq<Message> :: Passed(cf, visible, limits, size, fromSeq, lastSeq, resp, passed)
  }

  ghost predicate Passed(cf: seq<Entry<Value>>, visible: Message -> bool, limits: Limits, size: Message -> nat,
                         fromSeq: U64, lastSeq: U64, resp: Response, passed: seq<Message>) {
    && VisitedInOrder(cf, fromSeq, lastSeq, passed) && resp.messages == Selected(visible, passed)
    && resp.nextSeq == (fromSeq + |passed|) % TWO64
    && |resp.messages| <= limits.rows && |passed| <= limits.scan && WithinSoftLimit(limits, size, resp.messages)
    && (|| fromSeq + |passed| > lastSeq
        || |resp.messages| == limits.rows
        || |passed| == limits.scan
        || Crowded(cf, visible, limits, size, fromSeq + |passed|, resp.messages))
  }

  /** The cursor moves within the range, or wraps to 0 behind the largest number. */
  lemma {:induction false} PassedMoves(cf: seq<Entry<Value>>, visible: Message -> bool, limits: Limits, size: Message -> nat,
      fromSeq: U64, lastSeq: U64, resp: Response)
    requires PassedOver(cf, visible, limits, size, fromSeq, lastSeq, resp) && fromSeq <= lastSeq
    ensures fromSeq <= resp.nextSeq <= lastSeq + 1 || (lastSeq + 1 == TWO64 && resp.nextSeq == 0)
  {
    hide GoodAt;
    hide Selected;
    hide WithinSoftLimit;
    hide Crowded;
    var passed :| Passed(cf, visible, limits, size, fromSeq, lastSeq, resp, passed);
    if |passed| > 0 {
      var k := |passed| - 1;
      assert GoodAt(cf, fromSeq + k, passed[k]);
    }
  }

  lemma {:induction false} ScanPasses(visitor: (Page, Message) -> Visit<Page>, visible: Message -> bool, limits: Limits,
      size: Message -> nat, init: Page, cf: seq<Entry<Value>>, fromSeq: U64, lastSeq: U64, ms: seq<Message>, resp: Response)
    requires VisitedInOrder(cf, fromSeq, lastSeq, ms)
    requires AnswersAll(visitor, visible, limits, size, init, ms)
    requires AllContinue(visitor, init, ms, if |ms| > 0 then |ms| - 1 else 0)
    requires Ended(visitor, init, ms, fromSeq, lastSeq, limits.scan)
    requires init.messages == [] && init.bytes == 0 && limits.rows >= 1
    requires resp == Response(StateAfter(visitor, init, ms).messages,
                              (fromSeq + PassedCount(visitor, init, ms)) % TWO64, lastSeq)
    ensures PassedOver(cf, visible, limits, size, fromSeq, lastSeq, resp)
  {
    hide AnswersAll;
    hide AllContinue;
    hide GoodAt;
    hide DoesNotFit;
    var n := PassedCount(visitor, init, ms);
    var passed := ms[..n];
    if |ms| > 0 {
      hide StateAfter;
      PageEnds(visitor, visible, limits, size, init, ms);
      if n < |ms| {
        assert GoodAt(cf, fromSeq + n, ms[n]);
      }
    }
    assert Passed(cf, visible, limits, size, fromSeq, lastSeq, resp, passed);
  }

  /** A finished scan of a reachable snapshot makes a page. */
  lemma {:induction false} ScanMakesPage(visitor: (Page, Message) -> Visit<Page>, visible: Message -> bool, limits: Limits,
      size: Message -> nat, init: Page, cf: seq<Entry<Value>>, db: Db, fromSeq: U64, ms: seq<Message>, resp: Response)
    requires Represents(cf, db) && GapFree(db) && fromSeq <= db.maxSeq
    requires VisitedInOrder(cf, fromSeq, db.maxSeq, ms)
    requires AnswersAll(visitor, visible, limits, size, init, ms)
    requires AllContinue(visitor, init, ms, if |ms| > 0 then |ms| - 1 else 0)
    requires Ended(visitor, init, ms, fromSeq, db.maxSeq, limits.scan)
    requires init.messages == [] && init.bytes == 0 && limits.rows >= 1
    requires resp == Response(StateAfter(visitor, init, ms).messages,
                              (fromSeq + PassedCount(visitor, init, ms)) % TWO64, db.maxSeq)
    ensures PageOk(visible, db.messages, db.maxSeq, limits, size, fromSeq, resp)
  {
    hide Represents;
    hide VisitedInOrder;
    hide AnswersAll;
    hide AllContinue;
    VisitedIsLog(cf, db, fromSeq, ms);
    HeadRoom(cf, db);
    var n := PassedCount(visitor, init, ms);
    assert ms[..n] == LogBetween(db.messages, fromSeq, fromSeq + n);
    if |ms| > 0 {
      hide StateAfter;
      hide Selected;
      hide WithinSoftLimit;
      hide DoesNotFit;
      PageEnds(visitor, visible, limits, size, init, ms);
      if n < |ms| {
        assert ms[n] == ms[..n + 1][n];
        assert ms[n] == db.messages[fromSeq + n];
      }
    }
  }

  lemma {:induction false} HeadRoom(cf: seq<Entry<Value>>, db: Db)
    requires Represents(cf, db)
    ensures db.maxSeq + 1 < TWO64
  {
  }

  /**
   The soft limit can be exceeded: the page at a visible message larger than the limit
   consists of that message.
   */
  lemma {:induction false} OversizedPage(visible: Message -> bool, m: Message, limits: Limits, size: Message -> nat, resp: Response)
    requires visible(m) && size(m) > limits.bytes && limits.scan >= 1
    requires PageOk(visible, map[0 := m], 0, limits, size, 0, resp)
    ensures resp.messages == [m] && Total(size, resp.messages) > limits.bytes
  {
    hide WithinSoftLimit;
    hide DoesNotFit;
    hide Selected;
    hide Total;
    assert LogBetween(map[0 := m], 0, 1) == [m];
    SelectedOne(visible, m);
    TotalOne(size, m);
  }

  lemma {:induction false} SelectedOne(visible: Message -> bool, m: Message)
    ensures Selected(visible, [m]) == if visible(m) then [m] else []
  {
    assert [m][..0] == [];
  }

  lemma {:induction false} TotalOne(size: Message -> nat, m: Message)
    ensures Total(size, [m]) == size(m)
  {
    assert [m][..0] == [];
  }

  // ---------------------------------------------------------------- order and content

  /** Strictly increasing sequence numbers, none below the start. */
  ghost predicate Rising(ms: seq<Message>, a: nat) {
    && (forall i :: 0 <= i < |ms| ==> a <= ms[i].sequence)
    && (forall i, j :: 0 <= i < j < |ms| ==> ms[i].sequence < ms[j].sequence)
  }

  /** The messages are in strictly ascending order of their numbers, all of them in [a, b). */
  ghost predicate Ascending(ms: seq<Message>, a: nat, b: nat) {
    Rising(ms, a) && forall i :: 0 <= i < |ms| ==> ms[i].sequence < b
  }

  lemma {:induction false} AscendingConcat(x: seq<Message>, y: seq<Message>, a: nat, b: nat, c: nat)
    requires Ascending(x, a, b) && Ascending(y, b, c) && a <= b <= c
    ensures Ascending(x + y, a, c)
  {
  }

  /** A selection holds exactly the messages that satisfy the predicate. */
  lemma {:induction false} SelectedIff(visible: Message -> bool, ms: seq<Message>, m: Message)
    ensures m in Selected(visible, ms) <==> m in ms && visible(m)
  {
    if |ms| > 0 {
      SelectedIff(visible, ms[..|ms| - 1], m);
      assert ms == ms[..|ms| - 1] + [ms[|ms| - 1]];
    }
  }

  lemma {:induction false} SelectedAscends(visible: Message -> bool, ms: seq<Message>, a: nat)
    requires forall k :: 0 <= k < |ms| ==> ms[k].sequence == a + k
    ensures Ascending(Selected(visible, ms), a, a + |ms|)
  {
    if |ms| > 0 {
      var n := |ms| - 1;
      SelectedAscends(visible, ms[..n], a);
      var last := if visible(ms[n]) then [ms[n]] else [];
      AscendingConcat(Selected(visible, ms[..n]), last, a, a + n, a + n + 1);
    }
  }

  lemma {:induction false} LogBetweenHas(log: map<nat, Message>, a: nat, b: nat, m: Message)
    requires a <= b && forall s: nat :: a <= s < b ==> s in log && log[s].sequence == s
    ensures m in LogBetween(log, a, b) <==> a <= m.sequence < b && log[m.sequence] == m
  {
    var ms := LogBetween(log, a, b);
    if a <= m.sequence < b && log[m.sequence] == m {
      assert ms[m.sequence - a] == m;
    }
  }
}
