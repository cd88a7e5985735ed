/**
 The order in which background reads take the fake GPIO inputs: from the slot after the last one
 read, the first that is ready, wrapping around at the end of the table.
 */
module RoundRobin {

  const SLOTS: nat := 32

  /** How far slot s is from `start`, going up and around. */
  function Offset(s: int, start: int): (d: int)
    requires 0 <= s < SLOTS && 0 <= start < SLOTS
    ensures 0 <= d < SLOTS
  {
    if s >= start then s - start else s - start + SLOTS
  }

  predicate InTable(ready: set<int>) { forall s :: s in ready ==> 0 <= s < SLOTS }

  /** Slot r is the next ready one from `start` on. */
  predicate IsNext(ready: set<int>, start: int, r: int)
    requires InTable(ready) && 0 <= start < SLOTS
  {
    r in ready && forall s :: s in ready ==> Offset(r, start) <= Offset(s, start)
  }

  function Start(last: int): (start: int)
    requires -1 <= last < SLOTS
    ensures 0 <= start < SLOTS
  {
    if last + 1 == SLOTS then 0 else last + 1
  }

  /** The slot i places from `start`. */
  function Around(start: int, i: nat): (s: int)
    requires 0 <= start < SLOTS && i < SLOTS
    ensures 0 <= s < SLOTS && Offset(s, start) == i
  {
    if start + i >= SLOTS then start + i - SLOTS else start + i
  }

  /** The next ready slot from `start` on, the first i places being searched already; or -1. */
  function NextFrom(ready: set<int>, start: int, i: nat): (r: int)
    requires InTable(ready) && 0 <= start < SLOTS && i <= SLOTS
    ensures r == -1 || 0 <= r < SLOTS
    decreases SLOTS - i
  {
    if i == SLOTS then -1
    else if Around(start, i) in ready then Around(start, i)
    else NextFrom(ready, start, i + 1)
  }

  /** The search from place i on is the search from the start when the places before it are not ready. */
  lemma {:induction false} SearchedSoFar(ready: set<int>, start: int, i: nat, n: nat)
    requires InTable(ready) && 0 <= start < SLOTS && i <= n <= SLOTS
    requires forall k: nat :: k < n ==> Around(start, k) !in ready
    ensures NextFrom(ready, start, i) == NextFrom(ready, start, n)
    decreases n - i
  {
    if i < n { SearchedSoFar(ready, start, i + 1, n); }
  }

  lemma {:induction false} NextFromIsNext(ready: set<int>, start: int, i: nat)
    requires InTable(ready) && 0 <= start < SLOTS && i <= SLOTS
    requires forall s :: s in ready ==> Offset(s, start) >= i
    ensures if ready == {} then NextFrom(ready, start, i) == -1 else IsNext(ready, start, NextFrom(ready, start, i))
    decreases SLOTS - i
  {
    if i < SLOTS {
      if Around(start, i) !in ready {
        assert forall s :: s in ready ==> (Offset(s, start) == i ==> s == Around(start, i));
        NextFromIsNext(ready, start, i + 1);
      }
    } else {
      assert forall s :: s !in ready;
      assert ready == {};
    }
  }

  /** The slot read before the k-th of `v`. */
  function Previous(last: int, v: seq<int>, k: nat): int
    requires k <= |v|
  {
    if k == 0 then last else v[k - 1]
  }

  predicate VisitAt(ready: set<int>, last: int, v: seq<int>, k: nat)
    requires InTable(ready) && -1 <= last < SLOTS && k < |v|
  {
    && v[k] in ready && (k > 0 ==> v[k - 1] in ready)
    && IsNext(ready, Start(Previous(last, v, k)), v[k])
  }

  /** The slots that n reads in a row take, the ready set staying what it is. */
  predicate Visits(ready: set<int>, last: int, v: seq<int>)
    requires InTable(ready) && -1 <= last < SLOTS
  {
    && (forall k :: 0 <= k < |v| ==> v[k] in ready)
    && forall k :: 0 <= k < |v| ==> VisitAt(ready, last, v, k)
  }

  /** The ready slots up to one, as seen from `start`. */
  function UpTo(ready: set<int>, start: int, r: int): (u: set<int>)
    requires InTable(ready) && 0 <= start < SLOTS && 0 <= r < SLOTS
    ensures u <= ready
  {
    set s | s in ready && Offset(s, start) <= Offset(r, start)
  }

  function Elements(v: seq<int>): set<int> {
    if v == [] then {} else Elements(v[..|v| - 1]) + {v[|v| - 1]}
  }

  lemma OneMoreElement(v: seq<int>, k: nat)
    requires k < |v|
    ensures Elements(v[..k + 1]) == Elements(v[..k]) + {v[k]}
  {
    assert v[..k + 1][..k] == v[..k];
  }

  /** Within the first lap every read goes further. */
  lemma NextGoesFurther(ready: set<int>, start: int, r: int, next: int)
    requires InTable(ready) && 0 <= start < SLOTS && r in ready && IsNext(ready, Start(r), next)
    requires UpTo(ready, start, r) != ready
    ensures next !in UpTo(ready, start, r) && UpTo(ready, start, next) == UpTo(ready, start, r) + {next}
  {
    var far :| far in ready && far !in UpTo(ready, start, r);
    forall s | s in ready
      ensures Offset(s, Start(r)) == Offset(s, start) - Offset(r, start) - 1 +
                                     if Offset(s, start) <= Offset(r, start) then SLOTS else 0
    {
    }
    assert Offset(next, Start(r)) <= Offset(far, Start(r));
  }

  lemma FirstIsAlone(ready: set<int>, start: int, next: int)
    requires InTable(ready) && 0 <= start < SLOTS && IsNext(ready, start, next)
    ensures UpTo(ready, start, next) == {next}
  {
  }

  /** After k reads, no more than there are ready slots: k of them, none twice, those up to the last. */
  lemma {:induction false} LapSoFar(ready: set<int>, last: int, v: seq<int>, k: nat)
    requires InTable(ready) && -1 <= last < SLOTS && Visits(ready, last, v) && 0 < k <= |v| && k <= |ready|
    ensures Elements(v[..k]) == UpTo(ready, Start(last), v[k - 1]) && |Elements(v[..k])| == k
  {
    OneMoreElement(v, k - 1);
    if k == 1 {
      assert VisitAt(ready, last, v, 0);
      FirstIsAlone(ready, Start(last), v[0]);
      assert Elements(v[..0]) == {};
    } else {
      LapSoFar(ready, last, v, k - 1);
      assert VisitAt(ready, last, v, k - 1);
      NextGoesFurther(ready, Start(last), v[k - 2], v[k - 1]);
    }
  }

  lemma {:induction false} Occurs(v: seq<int>, i: int)
    requires 0 <= i < |v|
    ensures v[i] in Elements(v)
  {
    if i < |v| - 1 { Occurs(v[..|v| - 1], i); }
  }

  lemma Fresh(v: seq<int>, i: int, j: int)
    requires 0 <= i < j < |v| && |Elements(v[..j])| == j && |Elements(v[..j + 1])| == j + 1
    ensures v[i] != v[j]
  {
    OneMoreElement(v, j);
    Occurs(v[..j], i);
  }

  lemma NoneTwice(ready: set<int>, last: int, v: seq<int>, i: int, j: int)
    requires InTable(ready) && -1 <= last < SLOTS && Visits(ready, last, v) && 0 <= i < j < |v| <= |ready|
    ensures v[i] != v[j]
  {
    SizeSoFar(ready, last, v, j);
    SizeSoFar(ready, last, v, j + 1);
    Fresh(v, i, j);
  }

  lemma SizeSoFar(ready: set<int>, last: int, v: seq<int>, k: nat)
    requires InTable(ready) && -1 <= last < SLOTS && Visits(ready, last, v) && 0 < k <= |v| && k <= |ready|
    ensures |Elements(v[..k])| == k
  {
    LapSoFar(ready, last, v, k);
  }

  lemma {:induction false} FullSubset(part: set<int>, whole: set<int>)
    requires part <= whole && |part| == |whole|
    ensures part == whole
  {
    var rest := whole - part;
    assert whole == part + rest;
    assert |whole| == |part| + |rest|;
  }

  /** Any n consecutive background reads of n ready inputs take each exactly once, wherever they start. */
  lemma EveryInputOnce(ready: set<int>, last: int, v: seq<int>)
    requires InTable(ready) && -1 <= last < SLOTS && Visits(ready, last, v) && |v| == |ready|
    ensures Elements(v) == ready
    ensures forall i, j :: 0 <= i < j < |v| ==> v[i] != v[j]
  {
    if |v| > 0 {
      LapSoFar(ready, last, v, |v|);
      assert v[..|v|] == v;
      FullSubset(Elements(v), ready);
      forall i, j | 0 <= i < j < |v| ensures v[i] != v[j] {
        NoneTwice(ready, last, v, i, j);
      }
    } else {
      assert Elements(v) == {};
      assert ready == {};
    }
  }
}
