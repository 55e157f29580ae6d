/** Values shared by every part of the model: outcomes, status codes and options. */
module Types {

  datatype Option<+T> = None | Some(value: T)

  const TWO64: nat := 0x1_0000_0000_0000_0000

  /** A 64-bit unsigned integer. */
  type U64 = n: nat | n < TWO64

  /** The gRPC status codes the server answers with. */
  datatype Code =
    | InvalidArgument
    | Unauthenticated
    | PermissionDenied
    | NotFound
    | AlreadyExists
    | Aborted
    | ResourceExhausted
    | OutOfRange
    | Cancelled
    | Unavailable
    | DataLoss

  /** `fatal` is the flag that takes the server down (`requires_server_exit`). */
  datatype Status = Ok | Error(code: Code, fatal: bool)

  datatype Result<+T> = Success(value: T) | Failure(status: Status)

  function Reject(code: Code): Status {
    Error(code, false)
  }

  /** Every storage inconsistency the server detects is reported as DATA_LOSS. */
  const CORRUPTION: Status := Error(DataLoss, false)

  /** The elements of `s`, each kept at its first position only. */
  function FirstOccurrences(s: seq<U64>): (r: seq<U64>)
    ensures forall x :: x in r <==> x in s
    ensures Distinct(r)
    ensures |r| <= |s|
  {
    if |s| == 0 then []
    else
      var init := FirstOccurrences(s[..|s| - 1]);
      assert s == s[..|s| - 1] + [s[|s| - 1]];
      if s[|s| - 1] in init then init else init + [s[|s| - 1]]
  }

  predicate Distinct<T(==)>(s: seq<T>) {
    forall i, j :: 0 <= i < j < |s| ==> s[i] != s[j]
  }

  /** What is left of `s` once the first `x` is erased. */
  function EraseFirst(s: seq<U64>, x: U64): (r: seq<U64>)
    requires x in s
    ensures |r| == |s| - 1
  {
    if s[0] == x then s[1..] else [s[0]] + EraseFirst(s[1..], x)
  }

  lemma {:induction false} EraseFirstKeeps(s: seq<U64>, x: U64)
    requires x in s
    ensures forall y :: y in EraseFirst(s, x) ==> y in s
    ensures forall y :: y in s && y != x ==> y in EraseFirst(s, x)
  {
    assert s == [s[0]] + s[1..];
    if s[0] != x {
      EraseFirstKeeps(s[1..], x);
    }
  }

  /** Erasing from a list without repetitions removes exactly one element. */
  lemma {:induction false} EraseFirstDistinct(s: seq<U64>, x: U64)
    requires x in s && Distinct(s)
    ensures Distinct(EraseFirst(s, x)) && x !in EraseFirst(s, x)
  {
    var tail := s[1..];
    assert Distinct(tail) && s[0] !in tail;
    if s[0] != x {
      EraseFirstDistinct(tail, x);
      EraseFirstKeeps(tail, x);
      DistinctCons(s[0], EraseFirst(tail, x));
    }
  }

  /** Erasing is leaving out the first position. */
  lemma {:induction false} EraseSplits(s: seq<U64>, x: U64, i: nat)
    requires i < |s| && s[i] == x && x !in s[..i]
    ensures x in s && EraseFirst(s, x) == s[..i] + s[i + 1..]
  {
    if i > 0 {
      assert s[0] in s[..i];
      assert s[1..][..i - 1] == s[..i][1..];
      EraseSplits(s[1..], x, i - 1);
      assert s[..i] == [s[0]] + s[1..][..i - 1] && s[i + 1..] == s[1..][i..];
    }
  }

  lemma DistinctCons(x: U64, s: seq<U64>)
    requires Distinct(s) && x !in s
    ensures Distinct([x] + s)
  {
  }

  /** A list without repetitions is as long as the set of its elements. */
  lemma {:induction false} DistinctCount<T(!new)>(ids: seq<T>, keys: set<T>)
    requires Distinct(ids) && forall id :: id in ids <==> id in keys
    ensures |ids| == |keys|
  {
    if |ids| == 0 {
      assert keys == {};
    } else {
      var n := |ids| - 1;
      var init := ids[..n];
      assert ids == init + [ids[n]];
      assert ids[n] in ids;
      forall id
        ensures id in init <==> id in keys - {ids[n]}
      {
        if id in init {
          var k :| 0 <= k < n && init[k] == id;
          assert ids[k] == id && ids[k] != ids[n];
        }
      }
      DistinctCount(init, keys - {ids[n]});
    }
  }

  /** The first position of an element. */
  function FirstIndex(s: seq<U64>, x: U64): (i: nat)
    requires x in s
    ensures i < |s| && s[i] == x && x !in s[..i]
  {
    if s[0] == x then 0
    else
      assert s == [s[0]] + s[1..];
      var i := 1 + FirstIndex(s[1..], x);
      assert s[..i] == [s[0]] + s[1..][..i - 1];
      i
  }

  /** In the order in which the elements are first mentioned in `s`. */
  ghost predicate InOrderOfMention(r: seq<U64>, s: seq<U64>) {
    && (forall i :: 0 <= i < |r| ==> r[i] in s)
    && (forall i, j :: 0 <= i < j < |r| ==> FirstIndex(s, r[i]) < FirstIndex(s, r[j]))
  }

  lemma {:induction false} FirstIndexIs(s: seq<U64>, x: U64, i: nat)
    requires i < |s| && s[i] == x && x !in s[..i]
    ensures x in s && FirstIndex(s, x) == i
  {
    if i > 0 {
      assert s[..i] == [s[0]] + s[1..][..i - 1];
      FirstIndexIs(s[1..], x, i - 1);
    }
  }

  /** Keeping first occurrences keeps the order of first mention. */
  lemma {:induction false} FirstOccurrencesInOrder(s: seq<U64>)
    ensures InOrderOfMention(FirstOccurrences(s), s)
  {
    if |s| > 0 {
      var n := |s| - 1;
      var init, last := s[..n], s[n];
      var before := FirstOccurrences(init);
      FirstOccurrencesInOrder(init);
      assert s == init + [last];
      forall x | x in init
        ensures x in s && FirstIndex(s, x) == FirstIndex(init, x)
      {
        var k := FirstIndex(init, x);
        assert s[..k] == init[..k];
        FirstIndexIs(s, x, k);
      }
      if last !in before {
        assert s[..n] == init;
        FirstIndexIs(s, last, n);
      }
    }
  }
}
