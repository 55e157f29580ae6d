/**
 The subscription stream: a cursor that walks the log over snapshots which grow
 while it runs, under access rules which change while it runs.
 */
module Subscription {
  import opened Types
  import opened Records
  import opened Log
  import opened LogInvariants
  import opened LogRuns
  import opened Scan
  import opened Paging
  import opened Fetching
  import Snapshots

  /**
   What the environment does in one round of the loop: the client has cancelled or
   not, the shared snapshot that can be acquired, and how many messages of this
   round the client takes before the stream breaks.
   */
  datatype Turn = Turn(cancelled: bool, snapshot: Result<Snapshot>, accepts: nat)

  /** A page that was read for the stream. */
  datatype Served = Served(snap: Snapshot, fromSeq: nat, resp: Response)

  const SUBSCRIPTION_ROWS := 100

  // ---------------------------------------------------------------- specification

  /** What any storage gives: a snapshot with an ordered iterator and 64-bit counters, or an error. */
  ghost predicate Acquirable(snapshot: Result<Snapshot>) {
    match snapshot
    case Success(snap) => Iterable(snap)
    case Failure(why) => why != Ok
  }

  ghost predicate AllAcquirable(turns: seq<Turn>) {
    forall t :: 0 <= t < |turns| ==> Acquirable(turns[t].snapshot)
  }

  /** What the server's own storage gives: snapshots of reachable states that only grow. */
  ghost predicate Feed(start: Result<Snapshot>, turns: seq<Turn>) {
    && (start.Success? ==> Faithful(start.value))
    && (forall t :: 0 <= t < |turns| && turns[t].snapshot.Success? ==> Faithful(turns[t].snapshot.value))
    && (forall t :: 0 <= t < |turns| && turns[t].snapshot.Success? && start.Success? ==>
          Extends(start.value.db, turns[t].snapshot.value.db))
    && (forall t, u :: 0 <= t < u < |turns| && turns[t].snapshot.Success? && turns[u].snapshot.Success? ==>
          Extends(turns[t].snapshot.value.db, turns[u].snapshot.value.db))
  }

  /** What is visible to the subscriber in one snapshot. */
  function VisibleIn(snap: Snapshot, r: FetchRequest): Message -> bool {
    VisibleTo(QueryOf(snap.db, r))
  }

  /** A page of the stream: read at a cursor that is not past the end of its snapshot. */
  ghost predicate ServedOk(r: FetchRequest, limits: Limits, size: Message -> nat, p: Served) {
    && Inv(p.snap.db) && p.fromSeq <= p.snap.db.maxSeq + 1
    && PageOk(VisibleIn(p.snap, r), p.snap.db.messages, p.snap.db.maxSeq, limits, size, p.fromSeq, p.resp)
  }

  function CursorOf(fromSeq: nat, pages: seq<Served>): nat {
    if |pages| == 0 then fromSeq else pages[|pages| - 1].resp.nextSeq
  }

  ghost predicate Stream(r: FetchRequest, limits: Limits, size: Message -> nat, pages: seq<Served>)
    decreases |pages|
  {
    |pages| > 0 ==>
      var n := |pages| - 1;
      && Stream(r, limits, size, pages[..n]) && ServedOk(r, limits, size, pages[n])
      && pages[n].fromSeq == CursorOf(r.fromSeq, pages[..n])
  }

  /** What holds of the pages for arbitrary contents: each is given at the cursor of the one before. */
  ghost predicate Linked(r: FetchRequest, limits: Limits, size: Message -> nat, pages: seq<Served>)
    decreases |pages|
  {
    |pages| > 0 ==>
      var n := |pages| - 1;
      && Linked(r, limits, size, pages[..n]) && pages[n].fromSeq == CursorOf(r.fromSeq, pages[..n])
      && pages[n].fromSeq < TWO64
      && Given(pages[n].snap, VisibleIn(pages[n].snap, r), limits, size, pages[n].fromSeq, pages[n].resp)
  }

  function AllOf(pages: seq<Served>): seq<Message> {
    if |pages| == 0 then [] else AllOf(pages[..|pages| - 1]) + pages[|pages| - 1].resp.messages
  }

  // ---------------------------------------------------------------- the loop

  /** How an acquired snapshot answers the subscriber: the credential first, then the channels. */
  ghost predicate Admits(snapshot: Result<Snapshot>, r: FetchRequest, status: Status) {
    match snapshot
    case Failure(why) => status == why
    case Success(snap) =>
      if Authenticate(snap.db, r.credential) != Ok then status == Authenticate(snap.db, r.credential)
      else FirstProblem(snap.db, r.credential.principal, r.channels, status)
  }

  method Admit(snapshot: Result<Snapshot>, r: FetchRequest) returns (status: Status)
    requires Acquirable(snapshot)
    ensures Admits(snapshot, r, status)
  {
    hide FirstProblem;
    if snapshot.Failure? {
      return snapshot.status;
    }
    var db := snapshot.value.db;
    var auth := Authenticate(db, r.credential);
    if auth != Ok {
      return auth;
    }
    status := ValidateReadableChannels(db, r.credential.principal, r.channels);
  }

  /** In a sound state: refused for the credential or the first barred channel, admitted otherwise. */
  lemma {:induction false} AdmitsIff(snap: Snapshot, r: FetchRequest, status: Status)
    requires Inv(snap.db)
    ensures Admits(Success(snap), r, status) <==>
              if r.credential.principal == 0 then status == Reject(InvalidArgument)
              else if r.credential.token == "" || r.credential !in snap.db.tokens then status == Reject(Unauthenticated)
              else if status != Ok then exists i: nat :: BarredAt(snap.db, r, i, status)
              else forall i :: 0 <= i < |r.channels| ==> MayRead(snap.db, r.channels[i], r.credential.principal)
  {
    hide Inv;
    hide BarredAt;
    hide MayRead;
    hide ChannelStatus;
    ProblemIff(snap.db, r, status);
    forall i | 0 <= i < |r.channels|
      ensures ChannelStatus(snap.db, r.channels[i], r.credential.principal) == Ok
         <==> MayRead(snap.db, r.channels[i], r.credential.principal)
    {
      ChannelStatusIs(snap.db, r.channels[i], r.credential.principal);
    }
  }

  lemma {:induction false} AdmittedReads(snapshot: Result<Snapshot>, r: FetchRequest)
    requires Acquirable(snapshot) && Admits(snapshot, r, Ok)
    ensures snapshot.Success?
    ensures forall i :: 0 <= i < |r.channels| ==> ChannelReadable(snapshot.value.db, r.channels[i], r.credential.principal)
  {
    hide FirstProblem;
    hide ChannelReadable;
    NoProblem(snapshot.value.db, r.credential.principal, r.channels);
  }

  /** The page fetched at the cursor extends the stream. */
  lemma {:induction false} StreamGrows(r: FetchRequest, limits: Limits, size: Message -> nat, pages: seq<Served>, p: Served)
    requires Stream(r, limits, size, pages) && ServedOk(r, limits, size, p)
    requires p.fromSeq == CursorOf(r.fromSeq, pages)
    ensures Stream(r, limits, size, pages + [p])
    ensures AllOf(pages + [p]) == AllOf(pages) + p.resp.messages
    ensures CursorOf(r.fromSeq, pages + [p]) == p.resp.nextSeq
  {
    hide ServedOk;
    assert (pages + [p])[..|pages|] == pages;
  }

  /** A page read at or before the end of its snapshot leaves the cursor at or before that end. */
  lemma {:induction false} ServedMoves(r: FetchRequest, limits: Limits, size: Message -> nat, p: Served)
    requires ServedOk(r, limits, size, p)
    ensures p.fromSeq <= p.resp.nextSeq <= p.snap.db.maxSeq + 1
    ensures p.resp.lastSeq == p.snap.db.maxSeq
    ensures limits.scan >= 1 && p.fromSeq <= p.snap.db.maxSeq ==> p.fromSeq < p.resp.nextSeq
  {
    hide Selected;
    hide WithinSoftLimit;
    hide DoesNotFit;
  }

  /** The cursor is not past the end of any snapshot still to come. */
  ghost predicate NotPast(cursor: nat, turns: seq<Turn>, t: nat) {
    forall u :: t <= u < |turns| && turns[u].snapshot.Success? ==> cursor <= turns[u].snapshot.value.db.maxSeq + 1
  }

  lemma {:induction false} NotPastLater(start: Result<Snapshot>, turns: seq<Turn>, t: nat, cursor: nat)
    requires Feed(start, turns) && t < |turns| && turns[t].snapshot.Success?
    requires cursor <= turns[t].snapshot.value.db.maxSeq + 1
    ensures NotPast(cursor, turns, t + 1)
  {
    hide Faithful;
  }

  lemma {:induction false} NotPastStart(start: Result<Snapshot>, turns: seq<Turn>, cursor: nat)
    requires Feed(start, turns) && start.Success? && cursor <= start.value.db.maxSeq + 1
    ensures NotPast(cursor, turns, 0)
  {
    hide Faithful;
  }

  lemma {:induction false} FeedAt(start: Result<Snapshot>, turns: seq<Turn>, t: nat)
    requires Feed(start, turns) && t < |turns|
    ensures turns[t].snapshot.Success? ==> Faithful(turns[t].snapshot.value)
  {
    hide Faithful;
    hide Extends;
  }

  /** Writing a page to the client, message by message, until it stops taking them. */
  method WritePage(messages: seq<Message>, accepts: nat) returns (written: seq<Message>, open: bool)
    ensures written <= messages && (open <==> written == messages)
    ensures |written| == if |messages| <= accepts then |messages| else accepts
  {
    written, open := [], true;
    var i := 0;
    while i < |messages|
      invariant 0 <= i <= |messages| && i <= accepts
      invariant written == messages[..i]
    {
      if i >= accepts {
        return written, false;
      }
      written := written + [messages[i]];
      i := i + 1;
    }
  }

  /**
   What the stream has sent: all of the pages the client took as a whole, and of the
   page it did not take as a whole just what it took.
   */
  ghost predicate Sent(turns: seq<Turn>, served: seq<Served>, cut: Option<Served>, delivered: seq<Message>) {
    && |served| <= |turns| && (forall k :: 0 <= k < |served| ==> |served[k].resp.messages| <= turns[k].accepts)
    && match cut
       case None => delivered == AllOf(served)
       case Some(p) =>
         && |served| < |turns| && turns[|served|].accepts < |p.resp.messages|
         && delivered == AllOf(served) + p.resp.messages[..turns[|served|].accepts]
  }

  /** The pages of the stream, with the one it was cut off in. */
  function Pages(served: seq<Served>, cut: Option<Served>): seq<Served> {
    if cut.None? then served else served + [cut.value]
  }

  /** The page cannot be read: the contents are damaged. */
  ghost predicate Damage(snapshot: Result<Snapshot>, nextSeq: nat, scanBudget: nat, status: Status) {
    && snapshot.Success? && nextSeq < TWO64 && status == CORRUPTION
    && Broken(snapshot.value, nextSeq, scanBudget) && !Faithful(snapshot.value)
  }

  /** One round: the credential and the channels are checked again in the snapshot the page is read from. */
  method FetchSubscriptionBatch(snapshot: Result<Snapshot>, r: FetchRequest, limits: Limits, size: Message -> nat, nextSeq: U64)
    returns (page: Result<Response>)
    requires Acquirable(snapshot) && limits.rows >= 1
    ensures page.Failure? ==> page.status != Ok && (Admits(snapshot, r, page.status) || Damage(snapshot, nextSeq, limits.scan, page.status))
    ensures page.Success? ==> Admits(snapshot, r, Ok) && snapshot.Success?
    ensures page.Success? ==> Given(snapshot.value, VisibleIn(snapshot.value, r), limits, size, nextSeq, page.value)
    ensures page.Success? && Faithful(snapshot.value) && nextSeq <= snapshot.value.db.maxSeq + 1 ==>
              ServedOk(r, limits, size, Served(snapshot.value, nextSeq, page.value))
    ensures page.Success? && Faithful(snapshot.value) ==> PageShows(snapshot.value.db, r, nextSeq, page.value)
  {
    hide Inv;
    hide Represents;
    hide PageShows;
    hide Faithful;
    hide ServedOk;
    hide ChannelReadable;
    hide PageOk;
    hide Admits;
    hide SnapshotPage;
    hide Given;
    hide Broken;
    hide Iterable;
    var status := Admit(snapshot, r);
    if status != Ok {
      return Failure(status);
    }
    AdmittedReads(snapshot, r);
    var snap := snapshot.value;
    page := FetchVisible(snap, QueryOf(snap.db, r), limits, size, nextSeq);
    if Faithful(snap) {
      PageSucceeds(snap, VisibleIn(snap, r), limits, size, nextSeq, page);
      FaithfulFacts(snap);
      PageShowsIt(snap, r, limits, size, nextSeq, page.value);
      if nextSeq <= snap.db.maxSeq + 1 {
        PageServes(r, limits, size, Served(snap, nextSeq, page.value));
      }
    }
  }

  /** Round `k` of the loop read page `k`. */
  ghost predicate FromTurns(turns: seq<Turn>, pages: seq<Served>) {
    && |pages| <= |turns|
    && forall k :: 0 <= k < |pages| ==> !turns[k].cancelled && turns[k].snapshot == Success(pages[k].snap)
  }

  /** Why the stream is over, or that it is still alive after all of `turns`. */
  ghost predicate Over(turns: seq<Turn>, r: FetchRequest, scanBudget: nat, served: seq<Served>, cut: Option<Served>, status: Status) {
    var k := |served|;
    if cut.Some? then status == Ok
    else if status == Ok then k == |turns| || (k < |turns| && turns[k].cancelled)
    else
      && k < |turns| && !turns[k].cancelled
      && (|| Admits(turns[k].snapshot, r, status)
          || Damage(turns[k].snapshot, CursorOf(r.fromSeq, served), scanBudget, status))
  }

  /** On the server's own storage the pages so far are a stream and no later snapshot ends before the cursor. */
  ghost predicate OnTrack(start: Result<Snapshot>, turns: seq<Turn>, t: nat, r: FetchRequest, limits: Limits,
                          size: Message -> nat, served: seq<Served>) {
    Feed(start, turns) ==> NotPast(CursorOf(r.fromSeq, served), turns, t) && Stream(r, limits, size, served)
  }

  lemma {:induction false} TrackStarts(start: Result<Snapshot>, turns: seq<Turn>, r: FetchRequest, limits: Limits, size: Message -> nat)
    requires start.Success? && r.fromSeq <= start.value.db.maxSeq + 1
    ensures OnTrack(start, turns, 0, r, limits, size, [])
  {
    hide Feed;
    if Feed(start, turns) {
      NotPastStart(start, turns, r.fromSeq);
    }
  }

  lemma {:induction false} TrackGoesOn(start: Result<Snapshot>, turns: seq<Turn>, t: nat, r: FetchRequest, limits: Limits,
      size: Message -> nat, served: seq<Served>, p: Served)
    requires OnTrack(start, turns, t, r, limits, size, served) && t < |turns| && turns[t].snapshot == Success(p.snap)
    requires p.fromSeq == CursorOf(r.fromSeq, served)
    requires Faithful(p.snap) && p.fromSeq <= p.snap.db.maxSeq + 1 ==> ServedOk(r, limits, size, p)
    ensures OnTrack(start, turns, t + 1, r, limits, size, served + [p])
  {
    hide Feed;
    hide Faithful;
    hide ServedOk;
    hide Stream;
    hide CursorOf;
    if Feed(start, turns) {
      FeedAt(start, turns, t);
      assert NotPast(p.fromSeq, turns, t);
      StreamGrows(r, limits, size, served, p);
      ServedMoves(r, limits, size, p);
      NotPastLater(start, turns, t, p.resp.nextSeq);
    }
  }

  lemma {:induction false} LinkedGrows(r: FetchRequest, limits: Limits, size: Message -> nat, pages: seq<Served>, p: Served)
    requires Linked(r, limits, size, pages) && p.fromSeq == CursorOf(r.fromSeq, pages) && p.fromSeq < TWO64
    requires Given(p.snap, VisibleIn(p.snap, r), limits, size, p.fromSeq, p.resp)
    ensures Linked(r, limits, size, pages + [p]) && AllOf(pages + [p]) == AllOf(pages) + p.resp.messages
    ensures CursorOf(r.fromSeq, pages + [p]) == p.resp.nextSeq < TWO64
  {
    hide PassedOver;
    assert (pages + [p])[..|pages|] == pages;
  }

  /**
   The stream, for any finite stretch of its life and any storage contents.  A refused
   start sends nothing; otherwise every page is read at the cursor of the one before,
   and what the client receives is the content of these pages in order, until it or
   the storage gives up.  On the server's own storage the cursor never passes the end
   of a snapshot and what the client receives is strictly increasing.
   */
  method RunSubscription(start: Result<Snapshot>, turns: seq<Turn>, scanBudget: nat, softLimit: nat,
                         size: Message -> nat, r: FetchRequest)
    returns (status: Status, delivered: seq<Message>, ghost admitted: Status, ghost served: seq<Served>, ghost cut: Option<Served>)
    requires Acquirable(start) && AllAcquirable(turns)
    ensures Admits(start, r, admitted)
    ensures admitted != Ok ==> status == admitted && Pages(served, cut) == []
    ensures admitted == Ok ==> start.Success?
    ensures admitted == Ok && r.fromSeq > start.value.db.maxSeq + 1 ==>
              status == Reject(OutOfRange) && Pages(served, cut) == []
    ensures admitted == Ok && r.fromSeq <= start.value.db.maxSeq + 1 ==> Over(turns, r, scanBudget, served, cut, status)
    ensures FromTurns(turns, Pages(served, cut)) && Sent(turns, served, cut, delivered)
    ensures Linked(r, Limits(100, scanBudget, softLimit), size, Pages(served, cut))
    ensures Feed(start, turns) ==> Stream(r, Limits(100, scanBudget, softLimit), size, Pages(served, cut))
    ensures Feed(start, turns) ==> Rising(delivered, r.fromSeq)
    ensures start.Failure? || r.fromSeq > start.value.db.maxSeq + 1 ==> status != Ok && delivered == []
  {
    hide Faithful;
    hide ServedOk;
    hide ChannelReadable;
    hide Authenticate;
    hide PageOk;
    hide Admits;
    hide Feed;
    hide Given;
    hide Iterable;
    delivered, served, cut := [], [], None;
    status := Admit(start, r);
    admitted := status;
    if status != Ok {
      return;
    }
    AdmittedReads(start, r);
    var maxSeq := start.value.db.maxSeq;
    var nextSeq: U64 := r.fromSeq;
    if nextSeq > maxSeq && nextSeq - maxSeq > 1 {
      status := Reject(OutOfRange);
      return;
    }
    var limits := Limits(SUBSCRIPTION_ROWS, scanBudget, softLimit);
    var t := 0;
    TrackStarts(start, turns, r, limits, size);
    while t < |turns| && !turns[t].cancelled
      invariant 0 <= t <= |turns| && t == |served| && FromTurns(turns, served)
      invariant forall k :: 0 <= k < |served| ==> |served[k].resp.messages| <= turns[k].accepts
      invariant OnTrack(start, turns, t, r, limits, size, served)
      invariant Linked(r, limits, size, served) && delivered == AllOf(served)
      invariant nextSeq == CursorOf(r.fromSeq, served)
    {
      hide OnTrack;
      hide Linked;
      hide AllOf;
      hide CursorOf;
      hide Broken;
      hide PageShows;
      hide Inv;
      var page := FetchSubscriptionBatch(turns[t].snapshot, r, limits, size, nextSeq);
      if page.Failure? {
        status := page.status;
        TrackEnds(start, turns, t, r, limits, size, served, cut, delivered);
        return;
      }
      ghost var p := Served(turns[t].snapshot.value, nextSeq, page.value);
      TrackGoesOn(start, turns, t, r, limits, size, served, p);
      LinkedGrows(r, limits, size, served, p);
      var written, open := WritePage(page.value.messages, turns[t].accepts);
      delivered := delivered + written;
      if !open {
        cut := Some(p);
        status := Ok;
        TrackEnds(start, turns, t + 1, r, limits, size, served, cut, delivered);
        return;
      }
      served := served + [p];
      nextSeq := page.value.nextSeq;
      t := t + 1;
    }
    status := Ok;
    TrackEnds(start, turns, t, r, limits, size, served, cut, delivered);
  }

  lemma {:induction false} TrackEnds(start: Result<Snapshot>, turns: seq<Turn>, t: nat, r: FetchRequest, limits: Limits,
      size: Message -> nat, served: seq<Served>, cut: Option<Served>, delivered: seq<Message>)
    requires OnTrack(start, turns, t, r, limits, size, Pages(served, cut)) && Sent(turns, served, cut, delivered)
    ensures Feed(start, turns) ==> Stream(r, limits, size, Pages(served, cut)) && Rising(delivered, r.fromSeq)
  {
    hide Feed;
    hide Stream;
    if Feed(start, turns) {
      SentIsPrefix(r, limits, size, turns, served, cut, delivered);
    }
  }

  lemma {:induction false} PageServes(r: FetchRequest, limits: Limits, size: Message -> nat, p: Served)
    requires p.fromSeq <= p.snap.db.maxSeq + 1
    requires Inv(p.snap.db) && SnapshotPage(p.snap, VisibleIn(p.snap, r), limits, size, p.fromSeq, Success(p.resp))
    ensures ServedOk(r, limits, size, p)
  {
    hide PageOk;
  }

  // ---------------------------------------------------------------- what a stream delivers

  /** What one page delivers: the visible entries it passed, in order. */
  lemma {:induction false} ServedContent(r: FetchRequest, limits: Limits, size: Message -> nat, p: Served)
    requires ServedOk(r, limits, size, p)
    ensures p.fromSeq <= p.resp.nextSeq && Ascending(p.resp.messages, p.fromSeq, p.resp.nextSeq)
    ensures forall s: nat :: p.fromSeq <= s < p.resp.nextSeq ==> s in p.snap.db.messages
    ensures forall m :: m in p.resp.messages <==>
              && p.fromSeq <= m.sequence < p.resp.nextSeq
              && m == p.snap.db.messages[m.sequence] && Shown(p.snap.db, r, m)
  {
    hide PageOk;
    hide Inv;
    ServedMoves(r, limits, size, p);
    ServedFacts(r, limits, size, p);
    PageShowsIt(p.snap, r, limits, size, p.fromSeq, p.resp);
  }

  lemma {:induction false} ServedFacts(r: FetchRequest, limits: Limits, size: Message -> nat, p: Served)
    requires ServedOk(r, limits, size, p)
    ensures Inv(p.snap.db) && GapFree(p.snap.db)
    ensures SnapshotPage(p.snap, VisibleTo(QueryOf(p.snap.db, r)), limits, size, p.fromSeq, Success(p.resp))
  {
    hide PageOk;
    hide UuidIndex;
    hide ChannelTable;
    hide EventSourced;
    hide AllJustified;
    hide Readable;
  }

  /** The stream delivers strictly increasing sequence numbers between its start and its cursor. */
  lemma {:induction false} StreamAscends(r: FetchRequest, limits: Limits, size: Message -> nat, pages: seq<Served>)
    requires Stream(r, limits, size, pages)
    ensures r.fromSeq <= CursorOf(r.fromSeq, pages)
    ensures Ascending(AllOf(pages), r.fromSeq, CursorOf(r.fromSeq, pages))
    decreases |pages|
  {
    hide ServedOk;
    if |pages| > 0 {
      var n := |pages| - 1;
      StreamAscends(r, limits, size, pages[..n]);
      ServedContent(r, limits, size, pages[n]);
      AscendingConcat(AllOf(pages[..n]), pages[n].resp.messages, r.fromSeq, pages[n].fromSeq, pages[n].resp.nextSeq);
    }
  }

  /** Page `k` scanned entry `s`. */
  predicate Scanned(pages: seq<Served>, k: nat, s: nat)
    requires k < |pages|
  {
    pages[k].fromSeq <= s < pages[k].resp.nextSeq
  }

  lemma {:induction false} StreamPage(r: FetchRequest, limits: Limits, size: Message -> nat, pages: seq<Served>, k: nat)
    requires Stream(r, limits, size, pages) && k < |pages|
    ensures ServedOk(r, limits, size, pages[k]) && Stream(r, limits, size, pages[..k])
    ensures pages[k].fromSeq == CursorOf(r.fromSeq, pages[..k])
    ensures r.fromSeq <= pages[k].fromSeq && pages[k].resp.nextSeq <= CursorOf(r.fromSeq, pages)
    decreases |pages|
  {
    hide ServedOk;
    var n := |pages| - 1;
    if k < n {
      StreamPage(r, limits, size, pages[..n], k);
      assert pages[..n][..k] == pages[..k];
      ServedMoves(r, limits, size, pages[n]);
    } else {
      StreamAscends(r, limits, size, pages[..n]);
    }
  }

  /** The cursor never moves back from one page to the next. */
  lemma {:induction false} CursorOnlyAdvances(r: FetchRequest, limits: Limits, size: Message -> nat, pages: seq<Served>,
      j: nat, k: nat)
    requires Stream(r, limits, size, pages) && j < k < |pages|
    ensures pages[j].fromSeq <= pages[j].resp.nextSeq <= pages[k].fromSeq <= pages[k].resp.nextSeq
  {
    hide ServedOk;
    hide Stream;
    StreamPage(r, limits, size, pages, k);
    StreamPage(r, limits, size, pages[..k], j);
    ServedMoves(r, limits, size, pages[j]);
    ServedMoves(r, limits, size, pages[k]);
  }

  /** Every entry between the start and the cursor was scanned in one page ... */
  lemma {:induction false} ScannedOnce(r: FetchRequest, limits: Limits, size: Message -> nat, pages: seq<Served>, s: nat)
    returns (k: nat)
    requires Stream(r, limits, size, pages) && r.fromSeq <= s < CursorOf(r.fromSeq, pages)
    ensures k < |pages| && Scanned(pages, k, s)
    ensures forall j :: 0 <= j < |pages| && Scanned(pages, j, s) ==> j == k
    decreases |pages|
  {
    hide ServedOk;
    var n := |pages| - 1;
    if pages[n].fromSeq <= s {
      k := n;
    } else {
      k := ScannedOnce(r, limits, size, pages[..n], s);
    }
    forall j | 0 <= j < |pages| && Scanned(pages, j, s)
      ensures j == k
    {
      if j < k {
        CursorOnlyAdvances(r, limits, size, pages, j, k);
      } else if k < j {
        CursorOnlyAdvances(r, limits, size, pages, k, j);
      }
    }
  }

  /** ... and delivered, once, exactly if the subscriber could see it in that page's snapshot. */
  lemma {:induction false} DeliveredIffVisible(r: FetchRequest, limits: Limits, size: Message -> nat, pages: seq<Served>,
      k: nat, s: nat)
    requires Stream(r, limits, size, pages) && k < |pages| && Scanned(pages, k, s)
    ensures s in pages[k].snap.db.messages
    ensures forall m :: m in AllOf(pages) && m.sequence == s <==>
              m == pages[k].snap.db.messages[s] && m.sequence == s && Shown(pages[k].snap.db, r, m)
    decreases |pages|
  {
    hide ServedOk;
    hide Shown;
    var n := |pages| - 1;
    ServedContent(r, limits, size, pages[n]);
    if k == n {
      StreamAscends(r, limits, size, pages[..n]);
      assert forall m :: m in AllOf(pages[..n]) ==> m.sequence < s;
    } else {
      DeliveredIffVisible(r, limits, size, pages[..n], k, s);
      CursorOnlyAdvances(r, limits, size, pages, k, n);
    }
  }

  /** A client that goes away has received the beginning of what it would have received. */
  lemma {:induction false} SentIsPrefix(r: FetchRequest, limits: Limits, size: Message -> nat, turns: seq<Turn>,
      served: seq<Served>, cut: Option<Served>, delivered: seq<Message>)
    requires Stream(r, limits, size, Pages(served, cut)) && Sent(turns, served, cut, delivered)
    ensures delivered <= AllOf(Pages(served, cut))
    ensures Ascending(delivered, r.fromSeq, CursorOf(r.fromSeq, Pages(served, cut)))
  {
    hide Stream;
    var pages := Pages(served, cut);
    StreamAscends(r, limits, size, pages);
    if cut.Some? {
      assert pages[..|served|] == served;
    }
  }

  /**
   What the client receives: of every entry that a page it took as a whole has scanned,
   the message, if and only if it was visible in the snapshot of that page.
   */
  lemma {:induction false} ReceivedIffVisible(r: FetchRequest, limits: Limits, size: Message -> nat, turns: seq<Turn>,
      served: seq<Served>, cut: Option<Served>, delivered: seq<Message>, k: nat, s: nat)
    requires Stream(r, limits, size, Pages(served, cut)) && Sent(turns, served, cut, delivered)
    requires k < |served| && Scanned(served, k, s)
    ensures s in served[k].snap.db.messages
    ensures forall m :: m in delivered && m.sequence == s <==>
              m == served[k].snap.db.messages[s] && m.sequence == s && Shown(served[k].snap.db, r, m)
  {
    hide ServedOk;
    hide Shown;
    var pages := Pages(served, cut);
    if cut.Some? {
      assert pages[..|served|] == served;
      StreamPage(r, limits, size, pages, |served|);
      ServedContent(r, limits, size, cut.value);
    }
    assert Stream(r, limits, size, served);
    StreamPage(r, limits, size, served, k);
    DeliveredIffVisible(r, limits, size, served, k, s);
  }

  /** A client that takes a hundred messages a round is never cut off, whatever the contents. */
  lemma {:induction false} WillingClientGetsAll(r: FetchRequest, limits: Limits, size: Message -> nat, turns: seq<Turn>,
      served: seq<Served>, cut: Option<Served>, delivered: seq<Message>)
    requires limits.rows == SUBSCRIPTION_ROWS && Linked(r, limits, size, Pages(served, cut))
    requires Sent(turns, served, cut, delivered)
    requires forall k :: 0 <= k < |turns| ==> turns[k].accepts >= SUBSCRIPTION_ROWS
    ensures cut == None && delivered == AllOf(served)
  {
    hide Linked;
    if cut.Some? {
      LinkedRows(r, limits, size, Pages(served, cut));
    }
  }

  /** No page is longer than its row limit. */
  lemma {:induction false} LinkedRows(r: FetchRequest, limits: Limits, size: Message -> nat, pages: seq<Served>)
    requires Linked(r, limits, size, pages) && |pages| > 0
    ensures |pages[|pages| - 1].resp.messages| <= limits.rows
  {
    hide VisitedInOrder;
    hide Selected;
    hide WithinSoftLimit;
    hide Crowded;
  }

  // ---------------------------------------------------------------- streams of the server's own storage

  /** The snapshot published at this moment, with an iterator over its log. */
  ghost predicate AcquiredAt(t: Snapshots.Trace, moment: nat, snap: Snapshot) {
    moment < |t.states| && Snapshots.Shows(t.states[moment], snap.db) && Represents(snap.cf, snap.db)
  }

  lemma {:induction false} LaterExtends(maxPayload: nat, t: Snapshots.Trace, i: nat, j: nat, a: Snapshot, b: Snapshot)
    requires Snapshots.IsTrace(maxPayload, t) && i <= j && AcquiredAt(t, i, a) && AcquiredAt(t, j, b)
    ensures Faithful(a) && Faithful(b) && Extends(a.db, b.db)
  {
    hide Snapshots.IsTrace;
    hide Inv;
    hide Extends;
    hide Represents;
    Snapshots.PublishedOnlyGrow(maxPayload, t, i, i);
    Snapshots.PublishedOnlyGrow(maxPayload, t, i, j);
  }

  /** The moments at which a stream acquires its snapshots: the start, then one for each round. */
  ghost predicate Acquires(t: Snapshots.Trace, moments: seq<nat>, start: Result<Snapshot>, turns: seq<Turn>) {
    && |moments| == |turns| + 1 && (forall k, l :: 0 <= k < l < |moments| ==> moments[k] <= moments[l])
    && (start.Success? ==> AcquiredAt(t, moments[0], start.value))
    && (forall k :: 0 <= k < |turns| && turns[k].snapshot.Success? ==> AcquiredAt(t, moments[k + 1], turns[k].snapshot.value))
  }

  /** In every history of commits and refreshes, acquiring the shared snapshot round by round feeds a stream. */
  lemma {:induction false} HistoryFeeds(maxPayload: nat, t: Snapshots.Trace, moments: seq<nat>, start: Result<Snapshot>, turns: seq<Turn>)
    requires Snapshots.IsTrace(maxPayload, t) && Acquires(t, moments, start, turns)
    ensures Feed(start, turns)
  {
    hide Snapshots.IsTrace;
    hide Faithful;
    hide Extends;
    hide AcquiredAt;
    if start.Success? {
      LaterExtends(maxPayload, t, moments[0], moments[0], start.value, start.value);
    }
    forall k | 0 <= k < |turns| && turns[k].snapshot.Success?
      ensures Faithful(turns[k].snapshot.value)
      ensures start.Success? ==> Extends(start.value.db, turns[k].snapshot.value.db)
    {
      var snap := turns[k].snapshot.value;
      LaterExtends(maxPayload, t, moments[k + 1], moments[k + 1], snap, snap);
      if start.Success? {
        LaterExtends(maxPayload, t, moments[0], moments[k + 1], start.value, snap);
      }
    }
    forall k, l | 0 <= k < l < |turns| && turns[k].snapshot.Success? && turns[l].snapshot.Success?
      ensures Extends(turns[k].snapshot.value.db, turns[l].snapshot.value.db)
    {
      LaterExtends(maxPayload, t, moments[k + 1], moments[l + 1], turns[k].snapshot.value, turns[l].snapshot.value);
    }
  }

  /**
   A message whose commit was bumped before a round acquired its snapshot, with neither
   stop nor fatal set when it got it, is in that snapshot, and once the stream has
   caught up in that round the message has been scanned by exactly one page so far.
   */
  lemma {:induction false} FreshMessageIsScanned(maxPayload: nat, t: Snapshots.Trace, i: nat, j: nat, id: nat, b: nat,
      r: FetchRequest, limits: Limits, size: Message -> nat, pages: seq<Served>, n: nat, s: nat) returns (k: nat)
    requires Snapshots.IsTrace(maxPayload, t) && i < |t.steps| && j < |t.steps|
    requires Snapshots.Waiting(t, i, j, id) && t.steps[j] == Snapshots.AcquireReturn(id)
    requires !t.states[j].stop && !t.states[j].fatal && b < |t.states[i].bumps|
    requires Snapshots.AcquireResult(t.states[j], |t.states[i].bumps|).Success?
    requires t.states[i].bumps[b] < |t.states[i].history| && s in t.states[i].history[t.states[i].bumps[b]].messages
    requires Stream(r, limits, size, pages) && n < |pages| && Snapshots.Shows(t.states[j], pages[n].snap.db)
    requires r.fromSeq <= s && pages[n].resp.nextSeq > pages[n].resp.lastSeq
    ensures s in pages[n].snap.db.messages
    ensures pages[n].snap.db.messages[s] == t.states[i].history[t.states[i].bumps[b]].messages[s]
    ensures k <= n && Scanned(pages, k, s) && forall l :: 0 <= l < |pages| && Scanned(pages, l, s) ==> l == k
  {
    hide Snapshots.IsTrace;
    hide Stream;
    Snapshots.AcquiredIsFresh(maxPayload, t, i, j, id, b);
    StreamPage(r, limits, size, pages, n);
    ServedMoves(r, limits, size, pages[n]);
    assert s <= pages[n].snap.db.maxSeq;
    k := ScannedOnce(r, limits, size, pages, s);
    if n < k {
      CursorOnlyAdvances(r, limits, size, pages, n, k);
    }
  }

  // ---------------------------------------------------------------- registration

  /** The open streams, by context, and the contexts that were told to stop. */
  class Registry {
    var subscriptions: set<nat>
    var stopping: bool
    var cancelled: set<nat>

    /** Once the server is stopping, no registered stream runs on. */
    ghost predicate Valid()
      reads this
    {
      stopping ==> subscriptions <= cancelled
    }

    constructor ()
      ensures Valid() && subscriptions == {} && !stopping && cancelled == {}
    {
      subscriptions, stopping, cancelled := {}, false, {};
    }

    /** A stream is admitted exactly if the server is not stopping. */
    method RegisterSubscription(context: nat) returns (admitted: bool)
      requires Valid()
      modifies this
      ensures Valid() && admitted == !old(stopping)
      ensures subscriptions == if admitted then old(subscriptions) + {context} else old(subscriptions)
      ensures stopping == old(stopping) && cancelled == old(cancelled)
    {
      if stopping {
        return false;
      }
      subscriptions := subscriptions + {context};
      return true;
    }

    method UnregisterSubscription(context: nat)
      requires Valid()
      modifies this
      ensures Valid() && subscriptions == old(subscriptions) - {context}
      ensures stopping == old(stopping) && cancelled == old(cancelled)
    {
      subscriptions := subscriptions - {context};
    }

    /** Every stream registered at that moment is cancelled, and no other. */
    method StopSubscriptions()
      requires Valid()
      modifies this
      ensures Valid() && stopping && subscriptions == old(subscriptions)
      ensures cancelled == old(cancelled) + old(subscriptions)
    {
      stopping := true;
      var left := subscriptions;
      while left != {}
        invariant left <= subscriptions == old(subscriptions) && stopping
        invariant cancelled == old(cancelled) + (subscriptions - left)
        decreases |left|
      {
        var context :| context in left;
        left := left - {context};
        cancelled := cancelled + {context};
      }
    }
  }
}
