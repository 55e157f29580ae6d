/**
 `ScanMessages`: the walk over the byte-ordered message family that every read of
 the log uses, for store contents that may be damaged in any way.
 */
module Scan {
  import opened Types
  import opened Records
  import opened Encoding
  import opened ChannelEvents
  import opened Store

  /** A stored value: a message that parses, or bytes that do not. */
  datatype Value = Parsed(message: Message) | Garbage

  datatype Entry<V> = Entry(key: Bytes, value: V)

  /** What an iterator over a snapshot yields: entries in strictly ascending key order. */
  ghost predicate Sorted<V>(cf: seq<Entry<V>>) {
    forall i, j :: 0 <= i < j < |cf| ==> Less(cf[i].key, cf[j].key)
  }

  datatype Action = Continue | StopBefore | StopAfter

  /** What a visitor answers: its new state and what the scan shall do. */
  datatype Visit<S> = Visit(state: S, action: Result<Action>)

  // ---------------------------------------------------------------- specification

  function Key(s: U64): Bytes {
    NumericKey(MESSAGE_PREFIX, s)
  }

  /** A valid message is stored under number `s`. */
  ghost predicate GoodAt(cf: seq<Entry<Value>>, s: nat, m: Message) {
    && s < TWO64 && m.sequence == s && ValidStoredMessage(m)
    && exists j :: 0 <= j < |cf| && cf[j] == Entry(Key(s), Parsed(m))
  }

  /** The visitor's state after it has seen `ms` in order. */
  function StateAfter<S>(visitor: (S, Message) -> Visit<S>, init: S, ms: seq<Message>): S {
    if |ms| == 0 then init else visitor(StateAfter(visitor, init, ms[..|ms| - 1]), ms[|ms| - 1]).state
  }

  /** What the visitor answers to the `k`-th of `ms`. */
  function ActionAt<S>(visitor: (S, Message) -> Visit<S>, init: S, ms: seq<Message>, k: nat): Result<Action>
    requires k < |ms|
  {
    visitor(StateAfter(visitor, init, ms[..k]), ms[k]).action
  }

  ghost predicate AllContinue<S(!new)>(visitor: (S, Message) -> Visit<S>, init: S, ms: seq<Message>, n: nat)
    requires n <= |ms|
  {
    forall k :: 0 <= k < n ==> ActionAt(visitor, init, ms, k) == Success(Continue)
  }

  /** The records counted: a message the visitor stopped before is seen but not passed. */
  ghost function PassedCount<S(!new)>(visitor: (S, Message) -> Visit<S>, init: S, ms: seq<Message>): (n: nat)
    ensures n <= |ms|
  {
    if |ms| > 0 && ActionAt(visitor, init, ms, |ms| - 1) == Success(StopBefore) then |ms| - 1 else |ms|
  }

  /** The visited messages are exactly the stored, valid messages from `fromSeq` on, each once, in order. */
  ghost predicate VisitedInOrder(cf: seq<Entry<Value>>, fromSeq: U64, lastSeq: U64, ms: seq<Message>) {
    forall k :: 0 <= k < |ms| ==> fromSeq + k <= lastSeq && GoodAt(cf, fromSeq + k, ms[k])
  }

  ghost predicate HasGood(cf: seq<Entry<Value>>, s: nat) {
    exists m :: GoodAt(cf, s, m)
  }

  /** Every number in the range holds a valid message. */
  ghost predicate Contiguous(cf: seq<Entry<Value>>, fromSeq: U64, lastSeq: U64) {
    forall s: nat :: fromSeq <= s <= lastSeq ==> HasGood(cf, s)
  }

  /** A key under the prefix, from `fromSeq` on, that is no message key. */
  ghost predicate Malformed(cf: seq<Entry<Value>>, j: nat, fromSeq: U64) {
    && j < |cf| && StartsWith(cf[j].key, MESSAGE_PREFIX) && !IsNumericKey(cf[j].key, MESSAGE_PREFIX)
    && !Less(cf[j].key, Key(fromSeq))
  }

  /** Entry `i` has a message key whose number is at least `bound`. */
  ghost predicate NumberedFrom(cf: seq<Entry<Value>>, i: nat, bound: nat) {
    i < |cf| && IsNumericKey(cf[i].key, MESSAGE_PREFIX) && KeyValue(cf[i].key, MESSAGE_PREFIX) >= bound
  }

  ghost predicate Shielded(cf: seq<Entry<Value>>, j: nat, bound: nat) {
    exists i: nat :: i < j && NumberedFrom(cf, i, bound)
  }

  /** Every malformed key from `fromSeq` on lies behind a message key numbered at least `bound`. */
  ghost predicate Quiet(cf: seq<Entry<Value>>, fromSeq: U64, bound: nat) {
    forall j: nat :: Malformed(cf, j, fromSeq) ==> Shielded(cf, j, bound)
  }

  /** The range holds a valid message at every number, no malformed key is met, and it ends below 2^64 - 1. */
  ghost predicate Intact(cf: seq<Entry<Value>>, fromSeq: U64, lastSeq: U64) {
    Contiguous(cf, fromSeq, lastSeq) && Quiet(cf, fromSeq, lastSeq + 1) && fromSeq <= lastSeq + 1 < TWO64
  }

  function RangeLength(fromSeq: U64, lastSeq: U64): nat {
    if fromSeq <= lastSeq then lastSeq + 1 - fromSeq else 0
  }

  /** How many records a scan that nothing stops passes. */
  function Reach(fromSeq: U64, lastSeq: U64, maxRecords: nat): (n: nat)
    ensures n <= maxRecords && n <= RangeLength(fromSeq, lastSeq)
    ensures n == maxRecords || n == RangeLength(fromSeq, lastSeq)
  {
    if maxRecords <= RangeLength(fromSeq, lastSeq) then maxRecords else RangeLength(fromSeq, lastSeq)
  }

  ghost predicate Full(cf: seq<Entry<Value>>, fromSeq: U64, n: nat) {
    forall s: nat :: fromSeq <= s < fromSeq + n ==> HasGood(cf, s)
  }

  /** Some entry has the message key of `s`. */
  ghost predicate Numbered(cf: seq<Entry<Value>>, s: nat) {
    exists i: nat :: i < |cf| && IsNumericKey(cf[i].key, MESSAGE_PREFIX) && KeyValue(cf[i].key, MESSAGE_PREFIX) == s
  }

  /** No message key is numbered from `a` to `b`. */
  ghost predicate NoneBetween(cf: seq<Entry<Value>>, a: nat, b: nat) {
    forall s: nat :: a <= s <= b ==> !Numbered(cf, s)
  }

  /**
   The contents a scan that nothing stops accepts.  The numbers it passes hold valid
   messages and it meets no malformed key on the way or right behind; if it reaches
   the end of the range, that end is below 2^64 - 1 or uses up the record budget; if
   the budget ends first, the next number is stored or nothing more of the range is.
   */
  ghost predicate Scannable(cf: seq<Entry<Value>>, fromSeq: U64, lastSeq: U64, maxRecords: nat) {
    var n := Reach(fromSeq, lastSeq, maxRecords);
    && Full(cf, fromSeq, n) && Quiet(cf, fromSeq, fromSeq + n)
    && if n == RangeLength(fromSeq, lastSeq) then fromSeq + n < TWO64 || n == maxRecords
       else Numbered(cf, fromSeq + n) || NoneBetween(cf, fromSeq + n, lastSeq)
  }

  // ---------------------------------------------------------------- iterator facts

  /** `Seek`: the first entry whose key is not below `target`. */
  method Seek<V>(cf: seq<Entry<V>>, target: Bytes) returns (i: nat)
    requires Sorted(cf)
    ensures i <= |cf|
    ensures forall j :: 0 <= j < i ==> Less(cf[j].key, target)
    ensures forall j :: i <= j < |cf| ==> !Less(cf[j].key, target)
  {
    i := 0;
    while i < |cf| && Less(cf[i].key, target)
      invariant i <= |cf|
      invariant forall j :: 0 <= j < i ==> Less(cf[j].key, target)
    {
      i := i + 1;
    }
    forall j | i <= j < |cf|
      ensures !Less(cf[j].key, target)
    {
      if i < j && Less(cf[j].key, target) {
        LessTransitive(cf[i].key, cf[j].key, target);
      }
    }
  }

  /** A key between two keys with a common prefix has that prefix. */
  lemma {:induction false} BetweenHasPrefix(p: Bytes, a: Bytes, k: Bytes, b: Bytes)
    requires Less(p + a, k) && Less(k, p + b)
    ensures StartsWith(k, p)
  {
    if |p| > 0 {
      assert (p + a)[0] == p[0] && (p + b)[0] == p[0] && k[0] == p[0];
      assert (p + a)[1..] == p[1..] + a && (p + b)[1..] == p[1..] + b;
      BetweenHasPrefix(p[1..], a, k[1..], b);
      assert k[..|p|] == [k[0]] + k[1..][..|p| - 1];
      assert p == [p[0]] + p[1..];
    }
  }

  /**
   Where the iterator stands after `passed` messages: `first` is the first entry not
   below the start, and the messages passed are the entries from there on.
   */
  ghost predicate Position(cf: seq<Entry<Value>>, first: nat, fromSeq: U64, passed: nat) {
    && first + passed <= |cf| && fromSeq + passed <= TWO64
    && (forall j :: 0 <= j < first ==> Less(cf[j].key, Key(fromSeq)))
    && (forall j :: first <= j < |cf| ==> !Less(cf[j].key, Key(fromSeq)))
    && (forall j :: first <= j < first + passed ==> cf[j].key == Key(fromSeq + (j - first)))
  }

  /** Entries before the iterator are numbered below the message due next. */
  lemma {:induction false} PositionBehind(cf: seq<Entry<Value>>, first: nat, fromSeq: U64, passed: nat, j: nat)
    requires Sorted(cf) && Position(cf, first, fromSeq, passed) && j < first + passed
    ensures IsNumericKey(cf[j].key, MESSAGE_PREFIX) ==> KeyValue(cf[j].key, MESSAGE_PREFIX) < fromSeq + passed
    ensures !Less(cf[j].key, Key(fromSeq)) ==> IsNumericKey(cf[j].key, MESSAGE_PREFIX)
  {
    hide Less;
    if j < first {
      if IsNumericKey(cf[j].key, MESSAGE_PREFIX) {
        KeyValueInverse(cf[j].key, MESSAGE_PREFIX);
        NumericKeyOrder(MESSAGE_PREFIX, KeyValue(cf[j].key, MESSAGE_PREFIX), fromSeq);
      }
    } else {
      NumericKeyInverse(MESSAGE_PREFIX, fromSeq + (j - first));
    }
  }

  /** The entry the iterator stands on, and all behind it, are numbered at least the next one due. */
  lemma {:induction false} PositionAhead(cf: seq<Entry<Value>>, first: nat, fromSeq: U64, passed: nat, j: nat)
    requires Sorted(cf) && Position(cf, first, fromSeq, passed) && first + passed <= j < |cf|
    ensures IsNumericKey(cf[j].key, MESSAGE_PREFIX) ==> KeyValue(cf[j].key, MESSAGE_PREFIX) >= fromSeq + passed
  {
    hide Less;
    if IsNumericKey(cf[j].key, MESSAGE_PREFIX) {
      var v := KeyValue(cf[j].key, MESSAGE_PREFIX);
      KeyValueInverse(cf[j].key, MESSAGE_PREFIX);
      if passed > 0 {
        var k := first + passed - 1;
        assert cf[k].key == Key(fromSeq + passed - 1);
        assert Less(cf[k].key, cf[j].key);
        NumericKeyOrder(MESSAGE_PREFIX, fromSeq + passed - 1, v);
      } else {
        NumericKeyOrder(MESSAGE_PREFIX, v, fromSeq);
      }
    }
  }

  /** If the message due next is stored at all, the iterator stands on it or on a malformed key. */
  lemma {:induction false} DueIsHere(cf: seq<Entry<Value>>, first: nat, fromSeq: U64, passed: nat)
    requires Sorted(cf) && Position(cf, first, fromSeq, passed) && Numbered(cf, fromSeq + passed)
    ensures var i := first + passed;
            && i < |cf| && StartsWith(cf[i].key, MESSAGE_PREFIX)
            && (IsNumericKey(cf[i].key, MESSAGE_PREFIX) ==> KeyValue(cf[i].key, MESSAGE_PREFIX) == fromSeq + passed)
  {
    hide Less;
    var i := first + passed;
    var j: nat :| j < |cf| && IsNumericKey(cf[j].key, MESSAGE_PREFIX) && KeyValue(cf[j].key, MESSAGE_PREFIX) == fromSeq + passed;
    var due := KeyValue(cf[j].key, MESSAGE_PREFIX);
    KeyValueInverse(cf[j].key, MESSAGE_PREFIX);
    if j < i {
      PositionBehind(cf, first, fromSeq, passed, j);
    }
    if i < j {
      assert Less(cf[i].key, cf[j].key);
      BeforeDueHasPrefix(cf, first, fromSeq, passed, j);
      if IsNumericKey(cf[i].key, MESSAGE_PREFIX) {
        PositionAhead(cf, first, fromSeq, passed, i);
        KeyValueInverse(cf[i].key, MESSAGE_PREFIX);
        NumericKeyOrder(MESSAGE_PREFIX, KeyValue(cf[i].key, MESSAGE_PREFIX), due);
        assert false;
      }
    }
  }

  lemma {:induction false} BeforeDueHasPrefix(cf: seq<Entry<Value>>, first: nat, fromSeq: U64, passed: nat, j: nat)
    requires Sorted(cf) && Position(cf, first, fromSeq, passed) && first + passed < j < |cf|
    requires fromSeq + passed < TWO64 && cf[j].key == Key(fromSeq + passed)
    ensures StartsWith(cf[first + passed].key, MESSAGE_PREFIX)
  {
    hide Less;
    var i := first + passed;
    assert Less(cf[i].key, cf[j].key) && !Less(cf[i].key, Key(fromSeq));
    if passed > 0 {
      var k := i - 1;
      assert cf[k].key == Key(fromSeq + passed - 1) && Less(cf[k].key, cf[i].key);
      BetweenHasPrefix(MESSAGE_PREFIX, Encoded(fromSeq + passed - 1), cf[i].key, Encoded(fromSeq + passed));
    }
  }

  lemma {:induction false} GoodIsNumbered(cf: seq<Entry<Value>>, s: nat)
    requires HasGood(cf, s)
    ensures Numbered(cf, s)
  {
    hide ValidStoredMessage;
    var m :| GoodAt(cf, s, m);
    var j :| 0 <= j < |cf| && cf[j] == Entry(Key(s), Parsed(m));
    NumericKeyInverse(MESSAGE_PREFIX, s);
  }

  /** Behind an entry that has left the prefix there is no key under it. */
  lemma {:induction false} NothingBehind(cf: seq<Entry<Value>>, first: nat, fromSeq: U64, passed: nat, j: nat)
    requires Sorted(cf) && Position(cf, first, fromSeq, passed) && first + passed <= j < |cf|
    requires !StartsWith(cf[first + passed].key, MESSAGE_PREFIX)
    ensures !StartsWith(cf[j].key, MESSAGE_PREFIX)
  {
    hide Less;
    var i := first + passed;
    if i < j {
      PrefixFirst(MESSAGE_PREFIX, Encoded(fromSeq));
      assert !Less(cf[i].key, Key(fromSeq));
      if Less(cf[i].key, MESSAGE_PREFIX) {
        LessTransitive(cf[i].key, MESSAGE_PREFIX, Key(fromSeq));
      }
      PrefixEnds(MESSAGE_PREFIX, cf[i].key, cf[j].key);
    }
  }

  // ---------------------------------------------------------------- why a scan fails

  lemma {:induction false} MalformedStops(cf: seq<Entry<Value>>, first: nat, fromSeq: U64, lastSeq: U64, maxRecords: nat, passed: nat)
    requires Sorted(cf) && Position(cf, first, fromSeq, passed) && passed <= Reach(fromSeq, lastSeq, maxRecords)
    requires first + passed < |cf| && StartsWith(cf[first + passed].key, MESSAGE_PREFIX)
    requires !IsNumericKey(cf[first + passed].key, MESSAGE_PREFIX)
    ensures !Scannable(cf, fromSeq, lastSeq, maxRecords)
  {
    hide Less;
    hide Full;
    hide NoneBetween;
    hide Numbered;
    var i, bound := first + passed, fromSeq + Reach(fromSeq, lastSeq, maxRecords);
    if Quiet(cf, fromSeq, bound) {
      assert Malformed(cf, i, fromSeq);
      var k: nat :| k < i && NumberedFrom(cf, k, bound);
      PositionBehind(cf, first, fromSeq, passed, k);
    }
  }

  lemma {:induction false} GapStops(cf: seq<Entry<Value>>, first: nat, fromSeq: U64, lastSeq: U64, maxRecords: nat, passed: nat)
    requires Sorted(cf) && Position(cf, first, fromSeq, passed) && passed <= Reach(fromSeq, lastSeq, maxRecords)
    requires first + passed < |cf| && IsNumericKey(cf[first + passed].key, MESSAGE_PREFIX)
    requires fromSeq + passed < KeyValue(cf[first + passed].key, MESSAGE_PREFIX) <= lastSeq
    ensures !Scannable(cf, fromSeq, lastSeq, maxRecords)
  {
    hide Less;
    hide Quiet;
    hide HasGood;
    hide Position;
    var n := Reach(fromSeq, lastSeq, maxRecords);
    assert Numbered(cf, KeyValue(cf[first + passed].key, MESSAGE_PREFIX));
    if Numbered(cf, fromSeq + passed) {
      DueIsHere(cf, first, fromSeq, passed);
      assert false;
    }
    if passed < n && Full(cf, fromSeq, n) {
      GoodIsNumbered(cf, fromSeq + passed);
    }
  }

  lemma {:induction false} BadValueStops(cf: seq<Entry<Value>>, first: nat, fromSeq: U64, lastSeq: U64, maxRecords: nat, passed: nat)
    requires Sorted(cf) && Position(cf, first, fromSeq, passed) && passed < Reach(fromSeq, lastSeq, maxRecords)
    requires first + passed < |cf| && IsNumericKey(cf[first + passed].key, MESSAGE_PREFIX)
    requires KeyValue(cf[first + passed].key, MESSAGE_PREFIX) == fromSeq + passed
    requires var v := cf[first + passed].value;
             !v.Parsed? || v.message.sequence != fromSeq + passed || !ValidStoredMessage(v.message)
    ensures !Scannable(cf, fromSeq, lastSeq, maxRecords)
  {
    hide Quiet;
    hide Less;
    hide Numbered;
    hide NoneBetween;
    hide ValidStoredMessage;
    var i, s := first + passed, fromSeq + passed;
    if HasGood(cf, s) {
      var m :| GoodAt(cf, s, m);
      var j :| 0 <= j < |cf| && cf[j] == Entry(Key(s), Parsed(m));
      KeyValueInverse(cf[i].key, MESSAGE_PREFIX);
      LessIrreflexive(Key(s));
    }
  }

  lemma {:induction false} EndStops(cf: seq<Entry<Value>>, first: nat, fromSeq: U64, lastSeq: U64, maxRecords: nat, passed: nat)
    requires Sorted(cf) && Position(cf, first, fromSeq, passed)
    requires passed < Reach(fromSeq, lastSeq, maxRecords)
    requires var i := first + passed;
             || i >= |cf| || !StartsWith(cf[i].key, MESSAGE_PREFIX)
             || (IsNumericKey(cf[i].key, MESSAGE_PREFIX) && KeyValue(cf[i].key, MESSAGE_PREFIX) > lastSeq)
    ensures !Scannable(cf, fromSeq, lastSeq, maxRecords)
  {
    hide Less;
    hide Quiet;
    hide HasGood;
    hide Position;
    hide NoneBetween;
    var n := Reach(fromSeq, lastSeq, maxRecords);
    if Full(cf, fromSeq, n) {
      GoodIsNumbered(cf, fromSeq + passed);
      DueIsHere(cf, first, fromSeq, passed);
      assert false;
    }
  }

  /** Where a scan that nothing stopped came to rest: behind the prefix, above the range, or out of budget. */
  ghost predicate AtRest(cf: seq<Entry<Value>>, i: nat, lastSeq: U64, next: nat, outOfBudget: bool) {
    || i >= |cf| || !StartsWith(cf[i].key, MESSAGE_PREFIX)
    || (IsNumericKey(cf[i].key, MESSAGE_PREFIX) && KeyValue(cf[i].key, MESSAGE_PREFIX) > lastSeq)
    || (IsNumericKey(cf[i].key, MESSAGE_PREFIX) && KeyValue(cf[i].key, MESSAGE_PREFIX) == next && outOfBudget)
  }

  lemma {:induction false} RestIsQuiet(cf: seq<Entry<Value>>, first: nat, fromSeq: U64, lastSeq: U64, maxRecords: nat, passed: nat)
    requires Sorted(cf) && Position(cf, first, fromSeq, passed) && passed == Reach(fromSeq, lastSeq, maxRecords)
    requires AtRest(cf, first + passed, lastSeq, fromSeq + passed, passed == maxRecords)
    ensures Quiet(cf, fromSeq, fromSeq + passed)
  {
    hide Less;
    hide Reach;
    var i := first + passed;
    forall j: nat | Malformed(cf, j, fromSeq)
      ensures Shielded(cf, j, fromSeq + passed)
    {
      if j < i {
        PositionBehind(cf, first, fromSeq, passed, j);
      } else if !StartsWith(cf[i].key, MESSAGE_PREFIX) {
        NothingBehind(cf, first, fromSeq, passed, j);
      } else {
        PositionAhead(cf, first, fromSeq, passed, i);
        assert NumberedFrom(cf, i, fromSeq + passed);
      }
    }
  }

  lemma {:induction false} RestIsEmpty(cf: seq<Entry<Value>>, first: nat, fromSeq: U64, lastSeq: U64, passed: nat)
    requires Sorted(cf) && Position(cf, first, fromSeq, passed)
    requires AtRest(cf, first + passed, lastSeq, fromSeq + passed, true)
    ensures Numbered(cf, fromSeq + passed) || NoneBetween(cf, fromSeq + passed, lastSeq)
  {
    hide Less;
    hide Position;
    var i := first + passed;
    if !Numbered(cf, fromSeq + passed) {
      forall s: nat | fromSeq + passed <= s <= lastSeq
        ensures !Numbered(cf, s)
      {
        if Numbered(cf, s) {
          var j: nat :| j < |cf| && IsNumericKey(cf[j].key, MESSAGE_PREFIX) && KeyValue(cf[j].key, MESSAGE_PREFIX) == s;
          NotBehindRest(cf, first, fromSeq, lastSeq, passed, j);
        }
      }
    }
  }

  lemma {:induction false} NotBehindRest(cf: seq<Entry<Value>>, first: nat, fromSeq: U64, lastSeq: U64, passed: nat, j: nat)
    requires Sorted(cf) && Position(cf, first, fromSeq, passed)
    requires AtRest(cf, first + passed, lastSeq, fromSeq + passed, true) && !Numbered(cf, fromSeq + passed)
    requires j < |cf| && IsNumericKey(cf[j].key, MESSAGE_PREFIX)
    ensures KeyValue(cf[j].key, MESSAGE_PREFIX) < fromSeq + passed || KeyValue(cf[j].key, MESSAGE_PREFIX) > lastSeq
  {
    hide Less;
    var i := first + passed;
    if j < i {
      PositionBehind(cf, first, fromSeq, passed, j);
    } else if !StartsWith(cf[i].key, MESSAGE_PREFIX) {
      NothingBehind(cf, first, fromSeq, passed, j);
    } else if i < j {
      assert Less(cf[i].key, cf[j].key);
      KeyValueInverse(cf[i].key, MESSAGE_PREFIX);
      KeyValueInverse(cf[j].key, MESSAGE_PREFIX);
      NumericKeyOrder(MESSAGE_PREFIX, KeyValue(cf[i].key, MESSAGE_PREFIX), KeyValue(cf[j].key, MESSAGE_PREFIX));
    }
  }

  /** What the scan promises about the messages it has passed so far. */
  ghost predicate Progress<S(!new)>(cf: seq<Entry<Value>>, fromSeq: U64, lastSeq: U64, visitor: (S, Message) -> Visit<S>, init: S,
                                    ms: seq<Message>, state: S) {
    && VisitedInOrder(cf, fromSeq, lastSeq, ms) && state == StateAfter(visitor, init, ms)
    && AllContinue(visitor, init, ms, |ms|)
  }

  /** One more message is visited. */
  lemma {:induction false} ProgressStep<S(!new)>(cf: seq<Entry<Value>>, fromSeq: U64, lastSeq: U64,
      visitor: (S, Message) -> Visit<S>, init: S, ms: seq<Message>, state: S, m: Message)
    requires Progress(cf, fromSeq, lastSeq, visitor, init, ms, state)
    requires fromSeq + |ms| <= lastSeq && GoodAt(cf, fromSeq + |ms|, m)
    ensures var ms' := ms + [m];
            && VisitedInOrder(cf, fromSeq, lastSeq, ms')
            && visitor(state, m).state == StateAfter(visitor, init, ms')
            && AllContinue(visitor, init, ms', |ms|)
            && ActionAt(visitor, init, ms', |ms|) == visitor(state, m).action
            && (visitor(state, m).action == Success(Continue) ==>
                  Progress(cf, fromSeq, lastSeq, visitor, init, ms', visitor(state, m).state))
  {
    hide GoodAt;
    var ms' := ms + [m];
    assert ms'[..|ms|] == ms;
    assert forall k :: 0 <= k < |ms| ==> ms'[..k] == ms[..k];
    assert forall k :: 0 <= k < |ms| ==> ActionAt(visitor, init, ms', k) == ActionAt(visitor, init, ms, k);
  }

  lemma {:induction false} ProgressStart<S(!new)>(cf: seq<Entry<Value>>, fromSeq: U64, lastSeq: U64,
      visitor: (S, Message) -> Visit<S>, init: S)
    ensures Progress(cf, fromSeq, lastSeq, visitor, init, [], init)
  {
  }

  // ---------------------------------------------------------------- the scan

  /** How a successful scan of `ms` came to its end. */
  ghost predicate Ended<S(!new)>(visitor: (S, Message) -> Visit<S>, init: S, ms: seq<Message>,
                                 fromSeq: U64, lastSeq: U64, maxRecords: nat) {
    var n := PassedCount(visitor, init, ms);
    && n <= maxRecords
    && (|ms| > 0 ==> ActionAt(visitor, init, ms, |ms| - 1).Success?)
    && (|| (|ms| > 0 && ActionAt(visitor, init, ms, |ms| - 1) != Success(Continue))
        || n == maxRecords
        || fromSeq + n > lastSeq)
  }

  /** The visitor never ends a scan. */
  ghost predicate NeverStops<S(!new)>(visitor: (S, Message) -> Visit<S>) {
    forall s: S, m: Message :: visitor(s, m).action == Success(Continue)
  }

  /** A scan that ran until the range or the record budget was exhausted. */
  lemma {:induction false} EndedByRange<S(!new)>(cf: seq<Entry<Value>>, fromSeq: U64, lastSeq: U64, maxRecords: nat,
      visitor: (S, Message) -> Visit<S>, init: S, ms: seq<Message>, state: S)
    requires Progress(cf, fromSeq, lastSeq, visitor, init, ms, state) && |ms| <= maxRecords
    requires |ms| == maxRecords || fromSeq + |ms| > lastSeq
    ensures PassedCount(visitor, init, ms) == |ms| && Ended(visitor, init, ms, fromSeq, lastSeq, maxRecords)
  {
    hide StateAfter;
    if |ms| > 0 {
      assert ActionAt(visitor, init, ms, |ms| - 1) == Success(Continue);
    }
  }

  lemma {:induction false} KeyIsGood(cf: seq<Entry<Value>>, i: nat, s: nat)
    requires i < |cf| && IsNumericKey(cf[i].key, MESSAGE_PREFIX) && KeyValue(cf[i].key, MESSAGE_PREFIX) == s
    requires cf[i].value.Parsed? && cf[i].value.message.sequence == s && ValidStoredMessage(cf[i].value.message)
    ensures GoodAt(cf, s, cf[i].value.message) && cf[i].key == Key(s)
  {
    hide ValidStoredMessage;
    KeyValueInverse(cf[i].key, MESSAGE_PREFIX);
    assert cf[i] == Entry(Key(s), Parsed(cf[i].value.message));
  }

  lemma {:induction false} VisitedWithinReach(cf: seq<Entry<Value>>, fromSeq: U64, lastSeq: U64, maxRecords: nat, ms: seq<Message>)
    requires VisitedInOrder(cf, fromSeq, lastSeq, ms) && |ms| <= maxRecords
    ensures |ms| <= Reach(fromSeq, lastSeq, maxRecords)
  {
    hide GoodAt;
    if |ms| > 0 {
      var k := |ms| - 1;
      assert GoodAt(cf, fromSeq + k, ms[k]);
    }
  }

  lemma {:induction false} VisitedIsFull(cf: seq<Entry<Value>>, fromSeq: U64, lastSeq: U64, ms: seq<Message>)
    requires VisitedInOrder(cf, fromSeq, lastSeq, ms)
    ensures Full(cf, fromSeq, |ms|)
  {
    hide GoodAt;
    forall s: nat | fromSeq <= s < fromSeq + |ms|
      ensures HasGood(cf, s)
    {
      var k := s - fromSeq;
      assert GoodAt(cf, fromSeq + k, ms[k]);
    }
  }

  /** A scan that came to rest by itself has accepted its contents. */
  lemma {:induction false} Settled(cf: seq<Entry<Value>>, first: nat, fromSeq: U64, lastSeq: U64, maxRecords: nat, ms: seq<Message>)
    requires Sorted(cf) && Position(cf, first, fromSeq, |ms|) && VisitedInOrder(cf, fromSeq, lastSeq, ms)
    requires |ms| == Reach(fromSeq, lastSeq, maxRecords)
    requires AtRest(cf, first + |ms|, lastSeq, fromSeq + |ms|, |ms| == maxRecords)
    requires |ms| < maxRecords ==> fromSeq + |ms| < TWO64
    ensures Scannable(cf, fromSeq, lastSeq, maxRecords)
  {
    hide Less;
    hide Position;
    hide GoodAt;
    hide Quiet;
    hide Full;
    hide Numbered;
    hide NoneBetween;
    VisitedIsFull(cf, fromSeq, lastSeq, ms);
    RestIsQuiet(cf, first, fromSeq, lastSeq, maxRecords, |ms|);
    if |ms| < RangeLength(fromSeq, lastSeq) {
      RestIsEmpty(cf, first, fromSeq, lastSeq, |ms|);
    }
  }

  /** A range that is intact is accepted whatever the record budget. */
  lemma {:induction false} IntactScannable(cf: seq<Entry<Value>>, fromSeq: U64, lastSeq: U64, maxRecords: nat)
    requires Intact(cf, fromSeq, lastSeq)
    ensures Scannable(cf, fromSeq, lastSeq, maxRecords)
  {
    hide HasGood;
    hide Malformed;
    hide Numbered;
    var n := Reach(fromSeq, lastSeq, maxRecords);
    forall j: nat | Malformed(cf, j, fromSeq)
      ensures Shielded(cf, j, fromSeq + n)
    {
      var i: nat :| i < j && NumberedFrom(cf, i, lastSeq + 1);
      assert NumberedFrom(cf, i, fromSeq + n);
    }
    if n < RangeLength(fromSeq, lastSeq) {
      GoodIsNumbered(cf, fromSeq + n);
    }
  }

  /** With budget for the whole range: exactly when a contiguous valid range is free of false alarms. */
  lemma {:induction false} ScannableWhole(cf: seq<Entry<Value>>, fromSeq: U64, lastSeq: U64, maxRecords: nat)
    requires fromSeq <= lastSeq && maxRecords >= lastSeq - fromSeq + 1
    ensures Scannable(cf, fromSeq, lastSeq, maxRecords) <==>
              && Contiguous(cf, fromSeq, lastSeq) && Quiet(cf, fromSeq, lastSeq + 1)
              && (lastSeq + 1 < TWO64 || maxRecords == lastSeq - fromSeq + 1)
  {
    hide HasGood;
    hide Quiet;
    var n := Reach(fromSeq, lastSeq, maxRecords);
    assert n == RangeLength(fromSeq, lastSeq);
  }

  /**
   For arbitrary store contents: the visitor sees valid stored messages only, from
   `fromSeq` on without a gap, each once and in order; the answer is the number
   after the last one passed (as a 64-bit number); on scannable contents nothing
   but the visitor itself can make the scan fail; and a visitor that never ends a
   scan is answered with success exactly on scannable contents.
   */
  method ScanMessages<S(!new)>(cf: seq<Entry<Value>>, fromSeq: U64, lastSeq: U64, maxRecords: nat,
                               visitor: (S, Message) -> Visit<S>, init: S)
    returns (r: Result<U64>, state: S, ghost visited: seq<Message>)
    requires Sorted(cf)
    ensures VisitedInOrder(cf, fromSeq, lastSeq, visited)
    ensures state == StateAfter(visitor, init, visited)
    ensures AllContinue(visitor, init, visited, if |visited| > 0 then |visited| - 1 else 0)
    ensures r.Success? ==> Ended(visitor, init, visited, fromSeq, lastSeq, maxRecords)
    ensures r.Success? ==> r.value == (fromSeq + PassedCount(visitor, init, visited)) % TWO64
    ensures r.Failure? ==>
              || (|visited| > 0 && ActionAt(visitor, init, visited, |visited| - 1) == Failure(r.status))
              || (r.status == CORRUPTION && !Scannable(cf, fromSeq, lastSeq, maxRecords))
    ensures NeverStops(visitor) ==>
              r == if Scannable(cf, fromSeq, lastSeq, maxRecords)
                   then Success((fromSeq + Reach(fromSeq, lastSeq, maxRecords)) % TWO64) else Failure(CORRUPTION)
  {
    hide ValidStoredMessage;
    hide GoodAt;
    hide Scannable;
    hide StateAfter;
    hide ActionAt;
    hide Key;
    hide Less;
    hide VisitedInOrder;
    var i := Seek(cf, Key(fromSeq));
    var scanned: nat, nextSeq: U64 := 0, fromSeq;
    ghost var first := i;
    state := init;
    visited := [];
    ProgressStart(cf, fromSeq, lastSeq, visitor, init);
    while i < |cf| && StartsWith(cf[i].key, MESSAGE_PREFIX)
      invariant i == first + scanned && Position(cf, first, fromSeq, scanned)
      invariant nextSeq == (fromSeq + scanned) % TWO64
      invariant |visited| == scanned <= maxRecords
      invariant Progress(cf, fromSeq, lastSeq, visitor, init, visited, state)
      decreases |cf| - i
    {
      PositionAhead(cf, first, fromSeq, scanned, i);
      VisitedWithinReach(cf, fromSeq, lastSeq, maxRecords, visited);
      if !IsNumericKey(cf[i].key, MESSAGE_PREFIX) {
        MalformedStops(cf, first, fromSeq, lastSeq, maxRecords, scanned);
        return Failure(CORRUPTION), state, visited;
      }
      var sq := KeyValue(cf[i].key, MESSAGE_PREFIX);
      if sq > lastSeq {
        break;
      }
      if sq != nextSeq {
        GapStops(cf, first, fromSeq, lastSeq, maxRecords, scanned);
        return Failure(CORRUPTION), state, visited;
      }
      if scanned >= maxRecords {
        break;
      }
      if !cf[i].value.Parsed? || cf[i].value.message.sequence != sq || !ValidStoredMessage(cf[i].value.message) {
        BadValueStops(cf, first, fromSeq, lastSeq, maxRecords, scanned);
        return Failure(CORRUPTION), state, visited;
      }
      var message := cf[i].value.message;
      KeyIsGood(cf, i, fromSeq + scanned);
      ProgressStep(cf, fromSeq, lastSeq, visitor, init, visited, state, message);
      var v := visitor(state, message);
      state := v.state;
      visited := visited + [message];
      if v.action.Failure? {
        return Failure(v.action.status), state, visited;
      }
      if v.action.value.StopBefore? {
        return Success(sq), state, visited;
      }
      scanned := scanned + 1;
      nextSeq := (sq + 1) % TWO64;
      if v.action.value.StopAfter? {
        return Success(nextSeq), state, visited;
      }
      i := i + 1;
    }
    VisitedWithinReach(cf, fromSeq, lastSeq, maxRecords, visited);
    assert AtRest(cf, i, lastSeq, fromSeq + scanned, scanned == maxRecords);
    if scanned < maxRecords && nextSeq <= lastSeq &&
       (i >= |cf| || !StartsWith(cf[i].key, MESSAGE_PREFIX) || Decoded(cf[i].key[|MESSAGE_PREFIX|..]) > lastSeq) {
      if fromSeq + scanned < TWO64 {
        EndStops(cf, first, fromSeq, lastSeq, maxRecords, scanned);
      } else {
        WrapStops(cf, fromSeq, lastSeq, maxRecords, scanned);
      }
      return Failure(CORRUPTION), state, visited;
    }
    EndedByRange(cf, fromSeq, lastSeq, maxRecords, visitor, init, visited, state);
    Settled(cf, first, fromSeq, lastSeq, maxRecords, visited);
    return Success(nextSeq), state, visited;
  }

  /** A range up to the largest number leaves the next number at 0, which reads as missing. */
  lemma {:induction false} WrapStops(cf: seq<Entry<Value>>, fromSeq: U64, lastSeq: U64, maxRecords: nat, passed: nat)
    requires fromSeq + passed == TWO64 && passed < maxRecords && passed <= Reach(fromSeq, lastSeq, maxRecords)
    ensures !Scannable(cf, fromSeq, lastSeq, maxRecords)
  {
    hide Full;
    hide Quiet;
  }

  // ---------------------------------------------------------------- false alarms

  /** Some message that is valid under number `s` > 0. */
  function Sample(s: U64): Message {
    Message(s, 1, 1, [], "", 0, 1, [])
  }

  lemma {:induction false} SampleIsGood(cf: seq<Entry<Value>>, s: U64, j: nat)
    requires s > 0 && j < |cf| && cf[j] == Entry(Key(s), Parsed(Sample(s)))
    ensures HasGood(cf, s)
  {
    hide ValidChannelSystemMessage;
    assert GoodAt(cf, s, Sample(s));
  }

  /**
   A contiguous valid range is not enough: a malformed key right behind it is decoded
   before its number is compared with the end of the range.
   */
  lemma {:induction false} AlarmBehindRange(s: U64, maxRecords: nat) returns (cf: seq<Entry<Value>>)
    requires s > 0 && maxRecords >= 1
    ensures Sorted(cf) && Contiguous(cf, s, s) && !Scannable(cf, s, s, maxRecords)
  {
    hide HasGood;
    var behind := Key(s) + [0 as char];
    cf := [Entry(Key(s), Parsed(Sample(s))), Entry(behind, Garbage)];
    PrefixFirst(Key(s), [0 as char]);
    SampleIsGood(cf, s, 0);
    NumericKeyInverse(MESSAGE_PREFIX, s);
    assert behind[..|MESSAGE_PREFIX|] == Key(s)[..|MESSAGE_PREFIX|];
    if Less(behind, Key(s)) {
      LessTransitive(Key(s), behind, Key(s));
      LessIrreflexive(Key(s));
    }
    assert Malformed(cf, 1, s);
    assert !NumberedFrom(cf, 0, s + 1);
    assert !Shielded(cf, 1, s + 1);
  }

  /** Nor is it at the end of the number space, with budget to spare. */
  lemma {:induction false} AlarmAtTheEnd(maxRecords: nat) returns (cf: seq<Entry<Value>>)
    requires maxRecords >= 2
    ensures Sorted(cf) && Contiguous(cf, TWO64 - 1, TWO64 - 1) && Quiet(cf, TWO64 - 1, TWO64)
    ensures !Scannable(cf, TWO64 - 1, TWO64 - 1, maxRecords)
  {
    hide HasGood;
    var last := TWO64 - 1;
    cf := [Entry(Key(last), Parsed(Sample(last)))];
    SampleIsGood(cf, last, 0);
    NumericKeyInverse(MESSAGE_PREFIX, last);
    WrapStops(cf, last, last, maxRecords, 1);
  }
}
