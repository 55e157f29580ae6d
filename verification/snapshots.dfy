/**
 The shared subscription snapshot: commits that write and then bump a generation
 counter, a background thread that refreshes the snapshot under a
 generation/version protocol, and readers that wait for a snapshot fresh enough.
 Every interleaving of their steps is a history of this state machine.
 */
module Snapshots {
  import opened Types
  import opened Store
  import opened Log
  import opened LogInvariants
  import opened LogRuns

  /** The holder of the coordinator lock, between the write of its batch and what follows it. */
  datatype Writer = Free | Written | Failed

  /** Where the refresher is; `taken` is the number of the durable state its snapshot shows. */
  datatype Phase =
    | Idle
    | Loading(generation: nat)
    | Taken(generation: nat, taken: Result<nat>)
    | Failing
    | Exited

  /**
   `history` lists the durable states, newest last; `bumps[g]` is the number of the
   state whose commit raised the generation to `g + 1`.
   */
  datatype State = State(
    history: seq<Db>,
    bumps: seq<nat>,
    writer: Writer,
    published: Option<nat>,
    generation: nat,
    version: nat,
    attempt: nat,
    status: Status,
    phase: Phase,
    stop: bool,
    fatal: bool,
    readers: map<nat, nat>)

  datatype Step =
    | CommitWrite(op: Op, db: Db)
    | CommitBump
    | CommitFail(op: Op, db: Db)
    | CommitFatal
    | RefreshLoad
    | RefreshTake(failure: Option<Status>)
    | RefreshPublish
    | RefreshFatal
    | RefreshExit
    | Stop
    | FatalError
    | AcquireStart(id: nat)
    | AcquireReturn(id: nat)

  function Newest(s: State): Db
    requires |s.history| > 0
  {
    s.history[|s.history| - 1]
  }

  // ---------------------------------------------------------------- readers

  /** What `AcquireSubscriptionSnapshot` waits for. */
  predicate WaitDone(s: State, required: nat) {
    s.stop || s.fatal || s.generation >= required || (s.status != Ok && s.attempt >= required)
  }

  datatype Acquired = Acquired(state: nat, version: nat)

  /** What it answers once the wait is over. */
  function AcquireResult(s: State, required: nat): Result<Acquired> {
    if s.status != Ok && s.attempt >= required then Failure(s.status)
    else if s.published.None? then Failure(Reject(Unavailable))
    else Success(Acquired(s.published.value, s.version))
  }

  /** `WaitForSubscriptionSnapshot` reports something new to a stream that saw `observed`. */
  predicate SomethingNew(s: State, observed: nat) {
    s.fatal || s.version != observed || (s.status != Ok && s.attempt > s.generation)
  }

  // ---------------------------------------------------------------- steps

  /** The refresher, holding the lock, finds nothing to do or remembers the generation it starts from. */
  function Load(s: State): State {
    if s.published.Some? && |s.bumps| == s.generation then s else s.(phase := Loading(|s.bumps|))
  }

  /** With the lock again: give up after a fatal error, or publish the attempt's outcome. */
  function Publish(s: State): State
    requires s.phase.Taken?
  {
    if s.fatal then s.(phase := Exited)
    else
      var tried := s.(attempt := s.phase.generation);
      match s.phase.taken
      case Success(n) =>
        tried.(published := Some(n), generation := s.phase.generation, version := s.version + 1, status := Ok, phase := Idle)
      case Failure(why) =>
        tried.(status := why, phase := if why.Error? && why.fatal then Failing else Idle)
  }

  predicate Takes(maxPayload: nat, s: State, step: Step, s': State) {
    |s.history| > 0 &&
    match step
    case CommitWrite(op, db) =>
      s.writer.Free? && Next(maxPayload, Newest(s), op, db) && s' == s.(history := s.history + [db], writer := Written)
    case CommitBump =>
      s.writer.Written? && s' == s.(bumps := s.bumps + [|s.history| - 1], writer := Free)
    case CommitFail(op, db) =>
      s.writer.Free? && Next(maxPayload, Newest(s), op, db) && s' == s.(history := s.history + [db], writer := Failed)
    case CommitFatal =>
      s.writer.Failed? && s' == s.(fatal := true, writer := Free)
    case RefreshLoad =>
      s.phase.Idle? && !s.stop && !s.fatal && s' == Load(s)
    case RefreshTake(failure) =>
      && s.phase.Loading? && failure != Some(Ok)
      && s' == s.(phase := Taken(s.phase.generation,
                                 if failure.Some? then Failure(failure.value) else Success(|s.history| - 1)))
    case RefreshPublish => s.phase.Taken? && s' == Publish(s)
    case RefreshFatal => s.phase.Failing? && s' == s.(fatal := true, phase := Exited)
    case RefreshExit => s.phase.Idle? && (s.stop || s.fatal) && s' == s.(phase := Exited)
    case Stop => s' == s.(stop := true)
    case FatalError => s' == s.(fatal := true)
    case AcquireStart(id) => id !in s.readers && s' == s.(readers := s.readers[id := |s.bumps|])
    case AcquireReturn(id) =>
      id in s.readers && WaitDone(s, s.readers[id]) && s' == s.(readers := s.readers - {id})
  }

  /** The run ends in this state. */
  ghost predicate EndsIn(maxPayload: nat, run: Run, db: Db) {
    IsRun(maxPayload, run) && run.states[|run.ops|] == db
  }

  /** The store as a process may find it: in any state that earlier processes can have left. */
  ghost predicate Left(maxPayload: nat, db: Db) {
    exists run: Run :: EndsIn(maxPayload, run, db)
  }

  /** The constructor: a first snapshot of the store as it is, or a fatal error and no refresher. */
  ghost predicate Initial(maxPayload: nat, s: State) {
    && |s.history| == 1 && Left(maxPayload, s.history[0])
    && s.bumps == [] && s.writer == Free && s.readers == map[] && s.generation == 0 && s.attempt == 0 && !s.stop
    && (|| (s.published == Some(0) && s.version == 1 && s.status == Ok && s.phase == Idle && !s.fatal)
        || (s.published == None && s.version == 0 && s.status != Ok && s.phase == Exited && s.fatal))
  }

  // ---------------------------------------------------------------- invariant

  /** Each durable state keeps all that the earlier ones recorded. */
  ghost predicate Chronicle(history: seq<Db>) {
    && (forall i :: 0 <= i < |history| ==> Inv(history[i]))
    && (forall i, j :: 0 <= i <= j < |history| ==> Extends(history[i], history[j]))
  }

  /** State `n` is at or after every commit whose bump made the generation `g` or less. */
  ghost predicate Covers(s: State, n: nat, g: nat) {
    n < |s.history| && g <= |s.bumps| && forall b :: 0 <= b < g ==> s.bumps[b] <= n
  }

  ghost predicate BumpsInOrder(s: State) {
    && (forall b :: 0 <= b < |s.bumps| ==> s.bumps[b] < |s.history|)
    && (s.writer.Written? ==> forall b :: 0 <= b < |s.bumps| ==> s.bumps[b] < |s.history| - 1)
    && (forall b, c :: 0 <= b < c < |s.bumps| ==> s.bumps[b] < s.bumps[c])
  }

  ghost predicate Coherent(s: State) {
    && |s.history| > 0 && BumpsInOrder(s)
    && (match s.published
        case None => s.phase.Exited? && s.fatal && s.status != Ok && s.generation == 0
        case Some(n) => Covers(s, n, s.generation))
    && (match s.phase
        case Loading(g) => s.generation <= g <= |s.bumps|
        case Taken(g, taken) =>
          && s.generation <= g <= |s.bumps|
          && (taken.Success? ==> Covers(s, taken.value, g) && (s.published.Some? ==> s.published.value <= taken.value))
          && taken != Failure(Ok)
        case _ => true)
    && (forall id :: id in s.readers ==> s.readers[id] <= |s.bumps|)
  }

  predicate Commits(step: Step) {
    step.CommitWrite? || step.CommitBump? || step.CommitFail? || step.CommitFatal?
  }

  predicate Refreshes(step: Step) {
    step.RefreshLoad? || step.RefreshTake? || step.RefreshPublish? || step.RefreshFatal? || step.RefreshExit?
  }

  lemma {:induction false} CoherentWrite(s: State, s': State)
    requires Coherent(s) && s.bumps == s'.bumps && s.history <= s'.history
    requires s'.writer.Written? ==> |s.history| < |s'.history|
    requires s' == s.(history := s'.history, writer := s'.writer, fatal := s'.fatal) && (s.fatal ==> s'.fatal)
    ensures Coherent(s')
  {
  }

  lemma {:induction false} CoherentBump(s: State)
    requires Coherent(s) && s.writer.Written?
    ensures Coherent(s.(bumps := s.bumps + [|s.history| - 1], writer := Free))
  {
    var s' := s.(bumps := s.bumps + [|s.history| - 1], writer := Free);
    assert forall n: nat, g: nat :: Covers(s, n, g) ==> Covers(s', n, g);
    assert BumpsInOrder(s');
  }

  lemma {:induction false} CoherentRefresh(maxPayload: nat, s: State, step: Step, s': State)
    requires Coherent(s) && Takes(maxPayload, s, step, s') && Refreshes(step)
    ensures Coherent(s')
  {
    hide Next;
    assert BumpsInOrder(s');
    assert forall n: nat, g: nat :: Covers(s, n, g) ==> Covers(s', n, g);
    if step.RefreshTake? && step.failure.None? {
      assert Covers(s', |s.history| - 1, s.phase.generation);
    }
  }

  lemma {:induction false} CoherentStep(maxPayload: nat, s: State, step: Step, s': State)
    requires Coherent(s) && Takes(maxPayload, s, step, s')
    ensures Coherent(s')
  {
    hide Next;
    if Refreshes(step) {
      hide Coherent;
      hide Takes;
      CoherentRefresh(maxPayload, s, step, s');
    } else if step.CommitBump? {
      hide Coherent;
      CoherentBump(s);
    } else if Commits(step) {
      hide Coherent;
      CoherentWrite(s, s');
    } else {
      hide Covers;
      hide BumpsInOrder;
      assert forall n: nat, g: nat :: Covers(s, n, g) ==> Covers(s', n, g) by {
        SameCovers(s, s');
      }
      assert BumpsInOrder(s') by {
        SameCovers(s, s');
      }
    }
  }

  lemma {:induction false} SameCovers(s: State, s': State)
    requires s.history == s'.history && s.bumps == s'.bumps && s.writer == s'.writer
    ensures forall n: nat, g: nat :: Covers(s, n, g) ==> Covers(s', n, g)
    ensures BumpsInOrder(s) ==> BumpsInOrder(s')
  {
  }

  lemma {:induction false} ChronicleGrows(maxPayload: nat, history: seq<Db>, op: Op, db: Db)
    requires |history| > 0 && Chronicle(history) && Next(maxPayload, history[|history| - 1], op, db)
    ensures Chronicle(history + [db])
  {
    hide Inv;
    hide Next;
    hide Extends;
    var n := |history|;
    NextInv(maxPayload, history[n - 1], op, db);
    NextExtends(maxPayload, history[n - 1], op, db);
    ExtendsReflexive(db);
    var longer := history + [db];
    forall i, j | 0 <= i <= j < |longer|
      ensures Extends(longer[i], longer[j])
    {
      if i < n && j == n {
        ExtendsTransitive(history[i], history[n - 1], db);
      }
    }
  }

  // ---------------------------------------------------------------- histories

  datatype Trace = Trace(states: seq<State>, steps: seq<Step>)

  ghost predicate IsTrace(maxPayload: nat, t: Trace) {
    && |t.states| == |t.steps| + 1 && Initial(maxPayload, t.states[0])
    && forall i :: 0 <= i < |t.steps| ==> Takes(maxPayload, t.states[i], t.steps[i], t.states[i + 1])
  }

  lemma {:induction false} EndInv(maxPayload: nat, run: Run, db: Db)
    requires EndsIn(maxPayload, run, db)
    ensures Inv(db)
  {
    hide Inv;
    hide Next;
    hide InitialDb;
    RunInv(maxPayload, run, |run.ops|);
  }

  lemma {:induction false} TraceCoherent(maxPayload: nat, t: Trace, i: nat)
    requires IsTrace(maxPayload, t) && i < |t.states|
    ensures Coherent(t.states[i]) && Chronicle(t.states[i].history)
  {
    hide Inv;
    hide Extends;
    if i == 0 {
      hide IsRun;
      var run: Run :| EndsIn(maxPayload, run, t.states[0].history[0]);
      EndInv(maxPayload, run, t.states[0].history[0]);
      ExtendsReflexive(t.states[0].history[0]);
    } else {
      hide Takes;
      hide Initial;
      hide Coherent;
      hide Chronicle;
      TraceCoherent(maxPayload, t, i - 1);
      assert Takes(maxPayload, t.states[i - 1], t.steps[i - 1], t.states[i]);
      CoherentStep(maxPayload, t.states[i - 1], t.steps[i - 1], t.states[i]);
      ChronicleStep(maxPayload, t.states[i - 1], t.steps[i - 1], t.states[i]);
    }
  }

  lemma {:induction false} ChronicleStep(maxPayload: nat, s: State, step: Step, s': State)
    requires Chronicle(s.history) && Takes(maxPayload, s, step, s')
    ensures Chronicle(s'.history)
  {
    hide Chronicle;
    hide Next;
    if step.CommitWrite? || step.CommitFail? {
      ChronicleGrows(maxPayload, s.history, step.op, step.db);
    }
  }

  /** What later states keep of earlier ones. */
  ghost predicate Later(s: State, s': State) {
    && s.history <= s'.history && s.bumps <= s'.bumps
    && s.generation <= s'.generation && s.version <= s'.version
    && (s.published.Some? ==> s'.published.Some? && s.published.value <= s'.published.value)
    && (s.published != s'.published || s.generation != s'.generation ==> s.version < s'.version)
  }

  lemma {:induction false} LaterStep(maxPayload: nat, s: State, step: Step, s': State)
    requires Coherent(s) && Takes(maxPayload, s, step, s')
    ensures Later(s, s')
  {
    hide Next;
  }

  lemma {:induction false} TraceLater(maxPayload: nat, t: Trace, i: nat, j: nat)
    requires IsTrace(maxPayload, t) && i <= j < |t.states|
    ensures Later(t.states[i], t.states[j])
    decreases j
  {
    hide Takes;
    hide Coherent;
    hide Initial;
    if i < j {
      TraceLater(maxPayload, t, i, j - 1);
      TraceCoherent(maxPayload, t, j - 1);
      assert Takes(maxPayload, t.states[j - 1], t.steps[j - 1], t.states[j]);
      LaterStep(maxPayload, t.states[j - 1], t.steps[j - 1], t.states[j]);
    }
  }

  // ---------------------------------------------------------------- results

  /** `db` is the durable state the published snapshot shows. */
  predicate Shows(s: State, db: Db) {
    s.published.Some? && s.published.value < |s.history| && s.history[s.published.value] == db
  }

  /** The snapshots that are published, one after the other, only grow. */
  lemma {:induction false} PublishedOnlyGrow(maxPayload: nat, t: Trace, i: nat, j: nat)
    requires IsTrace(maxPayload, t) && i <= j < |t.states| && t.states[i].published.Some?
    ensures t.states[j].published.Some?
    ensures var a, b := t.states[i].published.value, t.states[j].published.value;
            && a < |t.states[i].history| && b < |t.states[j].history|
            && Extends(t.states[i].history[a], t.states[j].history[b])
            && Inv(t.states[j].history[b])
            && (a != b ==> t.states[i].version < t.states[j].version)
  {
    hide Takes;
    hide Initial;
    hide Inv;
    hide Extends;
    TraceLater(maxPayload, t, i, j);
    TraceCoherent(maxPayload, t, i);
    TraceCoherent(maxPayload, t, j);
    var a, b := t.states[i].published.value, t.states[j].published.value;
    assert t.states[i].history[a] == t.states[j].history[a];
  }

  /** While a call waits, its required generation is the one it loaded at the start. */
  ghost predicate Waiting(t: Trace, i: nat, j: nat, id: nat)
    requires i < |t.steps| && |t.states| == |t.steps| + 1 && j < |t.states|
  {
    t.steps[i] == AcquireStart(id) && i < j && forall k :: i < k < j ==> t.steps[k] != AcquireReturn(id)
  }

  lemma {:induction false} RequiredStays(maxPayload: nat, t: Trace, i: nat, j: nat, id: nat)
    requires IsTrace(maxPayload, t) && i < |t.steps| && j < |t.states| && Waiting(t, i, j, id)
    ensures id in t.states[j].readers && t.states[j].readers[id] == |t.states[i].bumps|
    decreases j
  {
    hide Initial;
    hide Next;
    assert Takes(maxPayload, t.states[j - 1], t.steps[j - 1], t.states[j]);
    if i + 1 < j {
      RequiredStays(maxPayload, t, i, j - 1, id);
    }
  }

  /**
   What freshness rests on: once the published generation has reached that of an
   earlier moment, the published snapshot contains every commit bumped by then,
   whatever the flags say.
   */
  lemma {:induction false} GenerationReached(maxPayload: nat, t: Trace, i: nat, j: nat, b: nat)
    requires IsTrace(maxPayload, t) && i <= j < |t.states| && b < |t.states[i].bumps|
    requires t.states[j].published.Some? && t.states[j].generation >= |t.states[i].bumps|
    ensures var got := t.states[j].published.value;
            && got < |t.states[j].history| && t.states[i].bumps[b] < |t.states[i].history|
            && Extends(t.states[i].history[t.states[i].bumps[b]], t.states[j].history[got])
  {
    hide Initial;
    hide Takes;
    hide Inv;
    hide Extends;
    TraceLater(maxPayload, t, i, j);
    TraceCoherent(maxPayload, t, i);
    TraceCoherent(maxPayload, t, j);
    var s, s' := t.states[i], t.states[j];
    assert s'.bumps[b] == s.bumps[b];
    assert Covers(s', s'.published.value, s'.generation);
    assert s'.history[s.bumps[b]] == s.history[s.bumps[b]];
  }

  /**
   A snapshot returned while neither stop nor fatal is set contains every commit
   whose bump preceded the call.
   */
  lemma {:induction false} AcquiredIsFresh(maxPayload: nat, t: Trace, i: nat, j: nat, id: nat, b: nat)
    requires IsTrace(maxPayload, t) && i < |t.steps| && j < |t.steps|
    requires Waiting(t, i, j, id) && t.steps[j] == AcquireReturn(id)
    requires !t.states[j].stop && !t.states[j].fatal && b < |t.states[i].bumps|
    requires AcquireResult(t.states[j], |t.states[i].bumps|).Success?
    ensures var got := AcquireResult(t.states[j], |t.states[i].bumps|).value.state;
            && got < |t.states[j].history| && t.states[i].bumps[b] < |t.states[i].history|
            && Extends(t.states[i].history[t.states[i].bumps[b]], t.states[j].history[got])
  {
    hide Initial;
    hide Next;
    hide Inv;
    hide Extends;
    RequiredStays(maxPayload, t, i, j, id);
    assert Takes(maxPayload, t.states[j], t.steps[j], t.states[j + 1]);
    GenerationReached(maxPayload, t, i, j, b);
  }

  /**
   Once the published generation has reached what a call requires, the call returns, and
   it returns the published snapshot if and only if no attempt as recent has failed.
   */
  lemma {:induction false} ReachedIsReturned(maxPayload: nat, t: Trace, i: nat, required: nat)
    requires IsTrace(maxPayload, t) && i < |t.states| && t.states[i].generation >= required
    ensures var s := t.states[i];
            && WaitDone(s, required)
            && (AcquireResult(s, required).Success? <==> s.status == Ok || s.attempt < required)
            && (AcquireResult(s, required).Success? ==>
                  s.published.Some? && AcquireResult(s, required).value == Acquired(s.published.value, s.version))
            && (AcquireResult(s, required).Failure? ==> AcquireResult(s, required).status == s.status)
  {
    hide IsTrace;
    hide BumpsInOrder;
    hide Covers;
    hide Chronicle;
    TraceCoherent(maxPayload, t, i);
  }

  /** A bumped commit is missing from the published snapshot. */
  ghost predicate Missing(s: State, b: nat) {
    b < |s.bumps| && (s.published.None? || s.published.value < s.bumps[b])
  }

  lemma {:induction false} MissingIsBehind(s: State, b: nat)
    requires Coherent(s) && Missing(s, b) && !s.phase.Exited?
    ensures s.generation < |s.bumps|
  {
  }

  /** The refresher never overlooks a missing commit: it starts a new attempt. */
  lemma {:induction false} MissingForcesLoad(maxPayload: nat, s: State, b: nat, s': State)
    requires Coherent(s) && Missing(s, b) && Takes(maxPayload, s, RefreshLoad, s')
    ensures s'.phase == Loading(|s.bumps|) && s.generation < |s.bumps|
  {
    hide Next;
    MissingIsBehind(s, b);
  }

  /** Between the load and the next publication the attempt keeps its generation, and nothing is published. */
  lemma {:induction false} AttemptStays(maxPayload: nat, t: Trace, l: nat, p: nat, b: nat)
    requires IsTrace(maxPayload, t) && l < p < |t.states| && Missing(t.states[l], b) && t.steps[l] == RefreshLoad
    requires forall k :: l < k < p ==> t.steps[k] != RefreshPublish
    ensures t.states[p].phase.Loading? || t.states[p].phase.Taken?
    ensures t.states[p].phase.generation == |t.states[l].bumps| && t.states[p].version == t.states[l].version
    decreases p
  {
    hide Initial;
    hide Coherent;
    hide Next;
    assert Takes(maxPayload, t.states[p - 1], t.steps[p - 1], t.states[p]);
    if l + 1 == p {
      TraceCoherent(maxPayload, t, l);
      MissingForcesLoad(maxPayload, t.states[l], b, t.states[p]);
    } else {
      AttemptStays(maxPayload, t, l, p - 1, b);
    }
  }

  /**
   No wakeup is lost: the refresh that starts while a bumped commit is missing ends,
   unless it fails, with a new version that contains the commit, and every stream
   that waits on the old version is told.
   */
  lemma {:induction false} MissingCommitIsPublished(maxPayload: nat, t: Trace, l: nat, p: nat, b: nat)
    requires IsTrace(maxPayload, t) && l < p < |t.steps| && Missing(t.states[l], b) && t.steps[l] == RefreshLoad
    requires t.steps[p] == RefreshPublish && forall k :: l < k < p ==> t.steps[k] != RefreshPublish
    ensures var s, s' := t.states[l], t.states[p + 1];
            && t.states[p].phase.Taken?
            && (t.states[p].fatal || t.states[p].phase.taken.Failure? || s'.version == s.version + 1)
            && (s'.version == s.version + 1 ==> !Missing(s', b) && s'.generation >= |s.bumps|)
            && (s'.version == s.version + 1 ==> forall required :: 0 <= required <= |s.bumps| ==>
                  WaitDone(s', required) && AcquireResult(s', required).Success?)
            && (!t.states[p].fatal && t.states[p].phase.taken.Failure? ==>
                  s'.status != Ok && s'.attempt == |s.bumps|)
            && SomethingNew(s', s.version)
  {
    hide Initial;
    hide Next;
    hide BumpsInOrder;
    AttemptStays(maxPayload, t, l, p, b);
    TraceCoherent(maxPayload, t, p);
    TraceLater(maxPayload, t, l, p);
    TraceCoherent(maxPayload, t, l);
    assert Takes(maxPayload, t.states[l], t.steps[l], t.states[l + 1]);
    assert Takes(maxPayload, t.states[p], t.steps[p], t.states[p + 1]);
    PublishOutcome(maxPayload, t.states[l], t.states[p], t.states[p + 1], b);
  }

  lemma {:induction false} PublishOutcome(maxPayload: nat, s: State, mid: State, s': State, b: nat)
    requires Coherent(s) && Coherent(mid) && Later(s, mid) && Takes(maxPayload, mid, RefreshPublish, s')
    requires mid.phase.generation == |s.bumps| && mid.version == s.version && Missing(s, b) && !s.phase.Exited?
    ensures (mid.fatal || mid.phase.taken.Failure? || s'.version == s.version + 1)
    ensures s'.version == s.version + 1 ==> !Missing(s', b) && s'.generation >= |s.bumps|
    ensures s'.version == s.version + 1 ==> forall required :: 0 <= required <= |s.bumps| ==>
              WaitDone(s', required) && AcquireResult(s', required).Success?
    ensures !mid.fatal && mid.phase.taken.Failure? ==> s'.status != Ok && s'.attempt == |s.bumps|
    ensures SomethingNew(s', s.version)
  {
    hide Next;
    MissingIsBehind(s, b);
  }

  lemma {:induction false} AllocateOne(maxPayload: nat, db: Db)
    ensures var db' := db.(nextUuid := db.nextUuid + 1);
            Next(maxPayload, db, AllocateUuids(1), db') && !Extends(db', db)
  {
    hide Apply;
    ApplyTwo(db, SetNextUuid(db.nextUuid + 1), SetNextUuid(0));
  }

  /** Chaining steps that are each allowed. */
  lemma {:induction false} TraceGrows(maxPayload: nat, t: Trace, step: Step, s': State)
    requires IsTrace(maxPayload, t) && Takes(maxPayload, t.states[|t.steps|], step, s')
    ensures IsTrace(maxPayload, Trace(t.states + [s'], t.steps + [step]))
  {
    hide Takes;
    hide Initial;
  }

  ghost predicate Reachable(maxPayload: nat, s: State) {
    exists t: Trace :: IsTrace(maxPayload, t) && t.states[|t.steps|] == s
  }

  lemma {:induction false} ReachableStart(maxPayload: nat, s: State)
    requires Initial(maxPayload, s)
    ensures Reachable(maxPayload, s)
  {
    hide Initial;
    var t := Trace([s], []);
    assert IsTrace(maxPayload, t) && t.states[|t.steps|] == s;
  }

  lemma {:induction false} ReachableStep(maxPayload: nat, s: State, step: Step, s': State)
    requires Reachable(maxPayload, s) && Takes(maxPayload, s, step, s')
    ensures Reachable(maxPayload, s')
  {
    hide Takes;
    hide Initial;
    var t: Trace :| IsTrace(maxPayload, t) && t.states[|t.steps|] == s;
    TraceGrows(maxPayload, t, step, s');
    var longer := Trace(t.states + [s'], t.steps + [step]);
    assert IsTrace(maxPayload, longer) && longer.states[|longer.steps|] == s';
  }

  /** A call that started after the first commit was bumped would be handed the snapshot before that commit. */
  ghost predicate StaleFor(s: State, id: nat) {
    && s.bumps == [1] && s.readers == map[id := 1]
    && WaitDone(s, 1) && AcquireResult(s, 1) == Success(Acquired(0, 1))
    && |s.history| > 1 && !Extends(s.history[1], s.history[0])
  }

  lemma {:induction false} NewStoreIsLeft(maxPayload: nat, timestamp: nat)
    ensures Left(maxPayload, InitialDb(timestamp))
  {
    hide InitialDb;
    assert EndsIn(maxPayload, Run([InitialDb(timestamp)], []), InitialDb(timestamp));
  }

  /** A call waits for a commit that was bumped and not yet published. */
  lemma {:induction false} WaitingForCommit(maxPayload: nat, timestamp: nat) returns (s: State)
    ensures Reachable(maxPayload, s) && s.writer.Free? && !s.stop && !s.fatal && s.bumps == [1] && s.readers == map[0 := 1]
    ensures s.published == Some(0) && s.version == 1 && s.status == Ok && s.generation == 0
    ensures |s.history| == 2 && !Extends(s.history[1], s.history[0])
  {
    hide Next;
    hide Extends;
    hide InitialDb;
    hide Reachable;
    var db, op := InitialDb(timestamp), AllocateUuids(1);
    var db' := db.(nextUuid := db.nextUuid + 1);
    AllocateOne(maxPayload, db);
    var s0 := State([db], [], Free, Some(0), 0, 1, 0, Ok, Idle, false, false, map[]);
    NewStoreIsLeft(maxPayload, timestamp);
    hide Left;
    ReachableStart(maxPayload, s0);
    var s1 := s0.(history := [db] + [db'], writer := Written);
    ReachableStep(maxPayload, s0, CommitWrite(op, db'), s1);
    var s2 := s1.(bumps := [] + [1], writer := Free);
    ReachableStep(maxPayload, s1, CommitBump, s2);
    s := s2.(readers := map[][0 := 1]);
    ReachableStep(maxPayload, s2, AcquireStart(0), s);
  }

  /**
   Once the server is stopping the wait ends early and the promise is void: a call
   that started after a commit was bumped can be handed a snapshot without it.
   */
  lemma {:induction false} StaleWhileStopping(maxPayload: nat, timestamp: nat) returns (s: State)
    ensures Reachable(maxPayload, s) && s.stop && !s.fatal && StaleFor(s, 0)
  {
    hide Next;
    hide Extends;
    hide Reachable;
    var waiting := WaitingForCommit(maxPayload, timestamp);
    s := waiting.(stop := true);
    ReachableStep(maxPayload, waiting, Stop, s);
  }

  /** So it is once another commit has failed and the error was declared fatal. */
  lemma {:induction false} StaleAfterFatal(maxPayload: nat, timestamp: nat) returns (s: State)
    ensures Reachable(maxPayload, s) && s.fatal && !s.stop && StaleFor(s, 0)
  {
    hide Extends;
    hide Reachable;
    hide Decide;
    var waiting := WaitingForCommit(maxPayload, timestamp);
    var op, db := AllocateUuids(1), Newest(waiting);
    assert Next(maxPayload, db, op, db);
    hide Next;
    var failed := waiting.(history := waiting.history + [db], writer := Failed);
    ReachableStep(maxPayload, waiting, CommitFail(op, db), failed);
    s := failed.(fatal := true, writer := Free);
    ReachableStep(maxPayload, failed, CommitFatal, s);
    assert s.history[0] == waiting.history[0] && s.history[1] == waiting.history[1];
  }

  // ---------------------------------------------------------------- the durable states as a run

  /** One of the first `i` steps wrote the batch of `op`. */
  ghost predicate Wrote(t: Trace, i: nat, op: Op)
    requires i <= |t.steps|
  {
    exists l :: 0 <= l < i && (t.steps[l].CommitWrite? || t.steps[l].CommitFail?) && t.steps[l].op == op
  }

  /**
   The durable states of a history, after the run that led to the store it began on,
   are a run of the log.
   */
  lemma {:induction false} HistoryIsRun(maxPayload: nat, t: Trace, i: nat, base: Run) returns (run: Run)
    requires IsTrace(maxPayload, t) && i < |t.states| && EndsIn(maxPayload, base, t.states[0].history[0])
    ensures IsRun(maxPayload, run) && run.states == base.states[..|base.ops|] + t.states[i].history
    ensures |run.ops| >= |base.ops| && run.ops[..|base.ops|] == base.ops
    ensures forall k :: |base.ops| <= k < |run.ops| ==> Wrote(t, i, run.ops[k])
  {
    hide Next;
    hide InitialDb;
    if i == 0 {
      run := base;
      assert base.states[..|base.ops|] + [base.states[|base.ops|]] == base.states;
    } else {
      var before := HistoryIsRun(maxPayload, t, i - 1, base);
      var step := t.steps[i - 1];
      assert Takes(maxPayload, t.states[i - 1], step, t.states[i]);
      if step.CommitWrite? || step.CommitFail? {
        run := Run(before.states + [step.db], before.ops + [step.op]);
        RunGrows(maxPayload, before, step.op, step.db);
      } else {
        run := before;
      }
    }
  }

  lemma {:induction false} RunGrows(maxPayload: nat, run: Run, op: Op, db: Db)
    requires IsRun(maxPayload, run) && Next(maxPayload, run.states[|run.ops|], op, db)
    ensures IsRun(maxPayload, Run(run.states + [db], run.ops + [op]))
  {
    hide Next;
    hide InitialDb;
  }
}
