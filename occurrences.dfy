/**
 * The occurrence finder of Downloader.getSubstringIndex: a counted loop of
 * `indexOf` calls, each restarting one past the previous hit. The caller
 * only ever searches for the quote character, so the search is over a char.
 */
module Occurrences {
  import opened JavaString

  /** The indices at or after `from` that hold `c`, in increasing order. */
  function PositionsFrom(s: string, c: char, from: nat): (r: seq<int>)
    ensures forall k :: 0 <= k < |r| ==> from <= r[k] < |s| && s[r[k]] == c
    ensures forall k :: 0 < k < |r| ==> r[k - 1] < r[k]
    decreases |s| - from
  {
    if from >= |s| then []
    else if s[from] == c then [from] + PositionsFrom(s, c, from + 1)
    else PositionsFrom(s, c, from + 1)
  }

  /** The positions are listed in strictly increasing order. */
  lemma {:induction false} PositionsIncreasing(s: string, c: char, from: nat, a: int, b: int)
    requires 0 <= a < b < |PositionsFrom(s, c, from)|
    ensures PositionsFrom(s, c, from)[a] < PositionsFrom(s, c, from)[b]
    decreases |s| - from
  {
    var rest := PositionsFrom(s, c, from + 1);
    if s[from] == c {
      assert PositionsFrom(s, c, from) == [from] + rest;
      if a > 0 {
        PositionsIncreasing(s, c, from + 1, a - 1, b - 1);
      } else {
        assert rest[b - 1] >= from + 1;
      }
    } else {
      assert PositionsFrom(s, c, from) == rest;
      PositionsIncreasing(s, c, from + 1, a, b);
    }
  }

  /** No position is missed: every index at or after `from` that holds `c` is listed. */
  lemma {:induction false} PositionsFromComplete(s: string, c: char, from: nat, i: int)
    requires from <= i < |s| && s[i] == c
    ensures i in PositionsFrom(s, c, from)
    decreases |s| - from
  {
    var rest := PositionsFrom(s, c, from + 1);
    if i == from {
      assert PositionsFrom(s, c, from) == [from] + rest;
    } else if s[from] == c {
      PositionsFromComplete(s, c, from + 1, i);
      assert PositionsFrom(s, c, from) == [from] + rest;
    } else {
      PositionsFromComplete(s, c, from + 1, i);
      assert PositionsFrom(s, c, from) == rest;
    }
  }

  /** Every index of `c` in `s`, in increasing order: the reference definition of "the k-th occurrence". */
  function Positions(s: string, c: char): seq<int>
  {
    PositionsFrom(s, c, 0)
  }

  /** How many times `c` occurs in `s`. */
  function Count(s: string, c: char): nat
  {
    |Positions(s, c)|
  }

  /** indexOf from `from` finds the first position at or after `from`. */
  lemma IndexOfFirstPosition(s: string, c: char, from: nat)
    ensures IndexOf(s, c, from) == if PositionsFrom(s, c, from) == [] then -1 else PositionsFrom(s, c, from)[0]
  {
    var ps := PositionsFrom(s, c, from);
    var r := IndexOf(s, c, from);
    if r >= 0 {
      PositionsFromComplete(s, c, from, r);
      var k :| 0 <= k < |ps| && ps[k] == r;
      if k > 0 {
        PositionsIncreasing(s, c, from, 0, k);
      }
    }
  }

  /** Restarting one past the first position leaves the remaining positions. */
  lemma {:induction false} PositionsAfterFirst(s: string, c: char, from: nat)
    requires PositionsFrom(s, c, from) != []
    ensures PositionsFrom(s, c, PositionsFrom(s, c, from)[0] + 1) == PositionsFrom(s, c, from)[1..]
    decreases |s| - from
  {
    var rest := PositionsFrom(s, c, from + 1);
    if s[from] == c {
      assert PositionsFrom(s, c, from) == [from] + rest;
      assert PositionsFrom(s, c, from)[1..] == rest;
    } else {
      assert PositionsFrom(s, c, from) == rest;
      PositionsAfterFirst(s, c, from + 1);
    }
  }

  /** The model of getSubstringIndex: `occurrence` rounds of indexOf, starting from index -1. */
  function SubstringIndex(occurrence: int, c: char, s: string): (r: int)
    ensures -1 <= r < |s|
    ensures r >= 0 ==> s[r] == c
    decreases occurrence
  {
    if occurrence <= 0 then -1
    else IndexOf(s, c, SubstringIndex(occurrence - 1, c, s) + 1)
  }

  /** After k rounds (k at most the count) the occurrences still to be found are those after the k-th. */
  lemma {:induction false} RemainingAfter(s: string, c: char, k: int)
    requires 0 <= k <= Count(s, c)
    ensures PositionsFrom(s, c, SubstringIndex(k, c, s) + 1) == Positions(s, c)[k..]
    decreases k
  {
    var ps := Positions(s, c);
    if k == 0 {
      assert SubstringIndex(0, c, s) == -1 && ps[0..] == ps;
    } else {
      RemainingAfter(s, c, k - 1);
      var from: nat := SubstringIndex(k - 1, c, s) + 1;
      assert SubstringIndex(k, c, s) == IndexOf(s, c, from);
      RoundStep(s, c, from, ps[k - 1..]);
      assert ps[k - 1..][1..] == ps[k..];
    }
  }

  /** While there are occurrences left, round k lands on the k-th occurrence. */
  lemma SubstringIndexNth(s: string, c: char, k: int)
    requires 1 <= k <= Count(s, c)
    ensures SubstringIndex(k, c, s) == Positions(s, c)[k - 1]
    ensures PositionsFrom(s, c, SubstringIndex(k, c, s) + 1) == Positions(s, c)[k..]
  {
    var ps := Positions(s, c);
    var from: nat := SubstringIndex(k - 1, c, s) + 1;
    RemainingAfter(s, c, k - 1);
    assert SubstringIndex(k, c, s) == IndexOf(s, c, from);
    RoundStep(s, c, from, ps[k - 1..]);
    RemainingAfter(s, c, k);
  }

  /** One round from `from`: it lands on the first remaining position and leaves the others. */
  lemma RoundStep(s: string, c: char, from: nat, rest: seq<int>)
    requires PositionsFrom(s, c, from) == rest && rest != []
    ensures IndexOf(s, c, from) == rest[0]
    ensures PositionsFrom(s, c, rest[0] + 1) == rest[1..]
  {
    IndexOfFirstPosition(s, c, from);
    PositionsAfterFirst(s, c, from);
  }

  /** One round past the last occurrence the search reports -1. */
  lemma SubstringIndexPastLast(s: string, c: char)
    ensures SubstringIndex(Count(s, c) + 1, c, s) == -1
  {
    var n := Count(s, c);
    var from: nat := SubstringIndex(n, c, s) + 1;
    if n == 0 {
      assert from == 0;
    } else {
      SubstringIndexNth(s, c, n);
    }
    assert PositionsFrom(s, c, from) == [];
    IndexOfFirstPosition(s, c, from);
  }

  /**
   * The quirk: after reporting -1 the next round restarts from index 0, so the
   * rounds repeat with period Count + 1.
   */
  lemma {:induction false} SubstringIndexPeriodic(s: string, c: char, k: nat)
    ensures SubstringIndex(k + Count(s, c) + 1, c, s) == SubstringIndex(k, c, s)
    decreases k
  {
    if k == 0 {
      SubstringIndexPastLast(s, c);
    } else {
      SubstringIndexPeriodic(s, c, k - 1);
    }
  }

  /**
   * Round `k` over the occurrence list `ps` when the rounds wrap with period
   * |ps| + 1: round 0 of each period is -1, round j is the j-th occurrence.
   */
  function Wrapped(ps: seq<int>, k: int): int
  {
    if k <= 0 || k % (|ps| + 1) == 0 then -1 else ps[k % (|ps| + 1) - 1]
  }

  /** Closed form of every round: the occurrence number wraps modulo Count + 1, and 0 means -1. */
  lemma {:induction false} SubstringIndexWraps(s: string, c: char, k: int)
    ensures SubstringIndex(k, c, s) == Wrapped(Positions(s, c), k)
    decreases k
  {
    var ps := Positions(s, c);
    var m := |ps| + 1;
    if k <= 0 {
    } else if k < m {
      SubstringIndexFirstPeriod(s, c, k);
    } else {
      var w := Wrapped(ps, k - m);
      assert Wrapped(ps, k) == w by {
        WrappedShift(ps, k);
      }
      assert SubstringIndex(k - m, c, s) == w by {
        if k > m {
          SubstringIndexWraps(s, c, k - m);
        }
      }
      assert SubstringIndex(k, c, s) == SubstringIndex(k - m, c, s) by {
        SubstringIndexPeriodic(s, c, k - m);
      }
    }
  }

  lemma SubstringIndexFirstPeriod(s: string, c: char, k: int)
    requires 0 < k <= Count(s, c)
    ensures SubstringIndex(k, c, s) == Wrapped(Positions(s, c), k)
  {
    assert SubstringIndex(k, c, s) == Positions(s, c)[k - 1] by {
      SubstringIndexNth(s, c, k);
    }
    assert Wrapped(Positions(s, c), k) == Positions(s, c)[k - 1] by {
      WrappedFirstPeriod(Positions(s, c), k);
    }
  }

  lemma WrappedFirstPeriod(ps: seq<int>, k: int)
    requires 0 < k <= |ps|
    ensures Wrapped(ps, k) == ps[k - 1]
  {
    ModUnique(k, |ps| + 1, 0, k);
  }

  lemma WrappedShift(ps: seq<int>, k: int)
    requires k >= |ps| + 1
    ensures Wrapped(ps, k) == Wrapped(ps, k - |ps| - 1)
  {
    if k == |ps| + 1 {
      ModUnique(k, |ps| + 1, 1, 0);
    } else {
      ModShift(k, |ps| + 1);
    }
  }

  lemma ModShift(k: int, m: int)
    requires 0 < m <= k
    ensures (k - m) % m == k % m
  {
    var q, r := k / m, k % m;
    assert k == q * m + r;
    assert k - m == (q - 1) * m + r;
    ModUnique(k - m, m, q - 1, r);
  }

  lemma ModUnique(a: int, m: int, q: int, r: int)
    requires 0 < m && 0 <= r < m && a == q * m + r
    ensures a % m == r
  {
    var q', r' := a / m, a % m;
    assert a == q' * m + r';
    if q' != q {
      var d := if q' < q then q - q' else q' - q;
      assert d * m == (if q' < q then r' - r else r - r') by {
        if q' < q { assert q * m - q' * m == (q - q') * m; } else { assert q' * m - q * m == (q' - q) * m; }
      }
      MulAtLeast(d, m);
    }
  }

  lemma {:induction false} MulAtLeast(d: nat, m: int)
    requires 1 <= d && 0 < m
    ensures d * m >= m
    decreases d
  {
    if d > 1 {
      MulAtLeast(d - 1, m);
      assert d * m == (d - 1) * m + m;
    }
  }

  /**
   * The two rounds the resolver asks for (3 and 4), by the number of
   * occurrences: past the last one the search yields -1 and then starts over.
   */
  lemma ThirdAndFourthRounds(s: string, c: char)
    ensures Count(s, c) >= 4 ==>
      SubstringIndex(3, c, s) == Positions(s, c)[2] && SubstringIndex(4, c, s) == Positions(s, c)[3]
    ensures Count(s, c) == 3 ==>
      SubstringIndex(3, c, s) == Positions(s, c)[2] && SubstringIndex(4, c, s) == -1
    ensures Count(s, c) == 2 ==>
      SubstringIndex(3, c, s) == -1 && SubstringIndex(4, c, s) == Positions(s, c)[0]
    ensures Count(s, c) == 1 ==>
      SubstringIndex(3, c, s) == Positions(s, c)[0] && SubstringIndex(4, c, s) == -1
    ensures Count(s, c) == 0 ==>
      SubstringIndex(3, c, s) == -1 && SubstringIndex(4, c, s) == -1
  {
    var n := Count(s, c);
    if n >= 4 {
      SubstringIndexNth(s, c, 3);
      SubstringIndexNth(s, c, 4);
    } else if n == 3 {
      SubstringIndexNth(s, c, 3);
      SubstringIndexPastLast(s, c);
    } else if n == 2 {
      SubstringIndexPastLast(s, c);
      SubstringIndexPeriodic(s, c, 1);
      SubstringIndexNth(s, c, 1);
    } else if n == 1 {
      SubstringIndexPeriodic(s, c, 1);
      SubstringIndexNth(s, c, 1);
      SubstringIndexPeriodic(s, c, 2);
      SubstringIndexPastLast(s, c);
    } else {
      SubstringIndexPastLast(s, c);
      SubstringIndexPeriodic(s, c, 1);
      SubstringIndexPeriodic(s, c, 2);
      SubstringIndexPeriodic(s, c, 3);
    }
  }

  /** No occurrence lies strictly between two consecutive occurrences, nor before the first. */
  lemma OccurrencesConsecutive(s: string, c: char, j: int)
    requires 0 <= j < Count(s, c)
    ensures forall i :: (if j == 0 then 0 else Positions(s, c)[j - 1] + 1) <= i < Positions(s, c)[j] ==> s[i] != c
  {
    var from: nat := if j == 0 then 0 else Positions(s, c)[j - 1] + 1;
    if j > 0 {
      SubstringIndexNth(s, c, j);
    }
    SubstringIndexNth(s, c, j + 1);
  }

  /** A slice whose every index misses `c` does not contain `c`. */
  lemma NoOccurrenceInSlice(s: string, c: char, lo: int, hi: int)
    requires 0 <= lo <= hi <= |s|
    requires forall i :: lo <= i < hi ==> s[i] != c
    ensures c !in s[lo..hi]
  {
    forall j | 0 <= j < hi - lo ensures s[lo..hi][j] != c {
      assert s[lo..hi][j] == s[lo + j];
    }
  }

  /** getSubstringIndex's loop computes SubstringIndex. */
  method GetSubstringIndex(occurrence: int, substring: char, str: string) returns (currentIndex: int)
    ensures currentIndex == SubstringIndex(occurrence, substring, str)
  {
    currentIndex := -1;
    var counter := 0;
    while counter < occurrence
      invariant 0 <= counter
      invariant counter == 0 || counter <= occurrence
      invariant currentIndex == SubstringIndex(counter, substring, str)
    {
      currentIndex := IndexOf(str, substring, currentIndex + 1);
      counter := counter + 1;
    }
  }
}
