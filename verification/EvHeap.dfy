/** What the timeout heap is: an ordered array of events with indices back into it. */
module EvHeap {
  import opened Seqs
  import opened EvTime
  import opened EvQueues

  function Parent(i: nat): nat
    requires i > 0
  {
    (i - 1) / 2
  }

  /** No event is due after one of its children. */
  ghost predicate Ordered(p: seq<Id>, n: nat, at: map<Id, Time>)
  {
    n <= |p| && (forall i :: 0 <= i < n ==> p[i] in at) &&
    forall i :: 0 < i < n ==> !Greater(at[p[Parent(i)]], at[p[i]])
  }

  ghost predicate Indexed(p: seq<Id>, n: nat, idx: map<Id, int>)
  {
    n <= |p| && forall i :: 0 <= i < n ==> p[i] in idx && idx[p[i]] == i
  }

  ghost function Stored(p: seq<Id>, n: nat): set<Id>
    requires n <= |p|
  {
    set i | 0 <= i < n :: p[i]
  }

  // ----- a heap with a hole, where an event will go -----

  /** The events but the one at `hole` are in order, and those below the hole are due after the one above it. */
  ghost predicate Holed(p: seq<Id>, k: nat, hole: nat, at: map<Id, Time>)
  {
    hole < k <= |p| && (forall i :: 0 <= i < k && i != hole ==> p[i] in at) &&
    (forall i :: 0 < i < k && i != hole && Parent(i) != hole ==> !Greater(at[p[Parent(i)]], at[p[i]])) &&
    forall i :: 0 < i < k && Parent(i) == hole && hole > 0 ==> !Greater(at[p[Parent(hole)]], at[p[i]])
  }

  /** The event fits above everything below the hole. */
  ghost predicate FitsAbove(p: seq<Id>, k: nat, hole: nat, at: map<Id, Time>, e: Id)
  {
    k <= |p| && e in at &&
    forall i :: 0 < i < k && i != hole && Parent(i) == hole ==> p[i] in at && !Greater(at[e], at[p[i]])
  }

  /** The event fits below the one above the hole. */
  ghost predicate FitsBelow(p: seq<Id>, hole: nat, at: map<Id, Time>, e: Id)
  {
    e in at &&
    (hole > 0 ==> Parent(hole) < |p| && p[Parent(hole)] in at && !Greater(at[p[Parent(hole)]], at[e]))
  }

  ghost predicate IndexedBut(p: seq<Id>, k: nat, hole: nat, idx: map<Id, int>, e: Id)
  {
    hole < k <= |p| && e in idx && forall i :: 0 <= i < k && i != hole ==> p[i] in idx && idx[p[i]] == i && p[i] != e
  }

  ghost function StoredBut(p: seq<Id>, k: nat, hole: nat): set<Id>
    requires k <= |p|
  {
    set i | 0 <= i < k && i != hole :: p[i]
  }

  /** One step up: the event above the hole moves down into it. */
  lemma StepUp(p: seq<Id>, k: nat, hole: nat, at: map<Id, Time>, idx: map<Id, int>, e: Id)
    requires Holed(p, k, hole, at) && FitsAbove(p, k, hole, at, e) && IndexedBut(p, k, hole, idx, e)
    requires hole > 0 && !FitsBelow(p, hole, at, e)
    ensures var up := Parent(hole); var p', idx' := p[hole := p[up]], idx[p[up] := hole];
            Holed(p', k, up, at) && FitsAbove(p', k, up, at, e) && IndexedBut(p', k, up, idx', e) &&
            StoredBut(p', k, up) == StoredBut(p, k, hole)
  {
    var up := Parent(hole);
    var p', idx' := p[hole := p[up]], idx[p[up] := hole];
    assert up < hole;
    forall i | 0 < i < k && i != up && Parent(i) != up ensures !Greater(at[p'[Parent(i)]], at[p'[i]]) {
      if i == hole { assert false; }
      if Parent(i) == hole { assert !Greater(at[p[Parent(hole)]], at[p[i]]); }
    }
    forall i | 0 < i < k && i != up && Parent(i) == up ensures !Greater(at[e], at[p'[i]]) {
      if i != hole { assert !Greater(at[p[up]], at[p[i]]); }
    }
    if up > 0 {
      assert !Greater(at[p[Parent(up)]], at[p[up]]);
      forall i | 0 < i < k && Parent(i) == up ensures !Greater(at[p'[Parent(up)]], at[p'[i]]) {
        if i != hole { assert !Greater(at[p[up]], at[p[i]]); }
      }
    }
    forall x | x in StoredBut(p, k, hole) ensures x in StoredBut(p', k, up) {
      var i :| 0 <= i < k && i != hole && p[i] == x;
      if i == up { assert p'[hole] == x; } else { assert p'[i] == x; }
    }
    forall x | x in StoredBut(p', k, up) ensures x in StoredBut(p, k, hole) {
      var i :| 0 <= i < k && i != up && p'[i] == x;
      if i == hole { assert p[up] == x; } else { assert p[i] == x; }
    }
  }

  /** The event goes into the hole. */
  lemma Fill(p: seq<Id>, k: nat, hole: nat, at: map<Id, Time>, idx: map<Id, int>, e: Id)
    requires Holed(p, k, hole, at) && FitsAbove(p, k, hole, at, e) && IndexedBut(p, k, hole, idx, e)
    requires FitsBelow(p, hole, at, e)
    ensures var p', idx' := p[hole := e], idx[e := hole];
            e in idx && Ordered(p', k, at) && Indexed(p', k, idx') && Stored(p', k) == StoredBut(p, k, hole) + {e}
  {
    var p' := p[hole := e];
    forall i | 0 < i < k ensures !Greater(at[p'[Parent(i)]], at[p'[i]]) {
    }
    assert p'[hole] == e;
    forall x | x in StoredBut(p, k, hole) ensures x in Stored(p', k) {
      var i :| 0 <= i < k && i != hole && p[i] == x;
      assert p'[i] == x;
    }
    forall x | x in Stored(p', k) ensures x in StoredBut(p, k, hole) + {e} {
      var i :| 0 <= i < k && p'[i] == x;
      if i != hole { assert p[i] == x; }
    }
  }

  /** One step down: the earlier of the events below the hole moves up into it. */
  lemma StepDown(p: seq<Id>, k: nat, hole: nat, child: nat, at: map<Id, Time>, idx: map<Id, int>, e: Id)
    requires Holed(p, k, hole, at) && IndexedBut(p, k, hole, idx, e) && e in at
    requires 0 < child < k && Parent(child) == hole && Greater(at[e], at[p[child]])
    requires forall i :: 0 < i < k && Parent(i) == hole ==> !Greater(at[p[child]], at[p[i]])
    ensures var p', idx' := p[hole := p[child]], idx[p[child] := hole];
            Holed(p', k, child, at) && IndexedBut(p', k, child, idx', e) &&
            StoredBut(p', k, child) == StoredBut(p, k, hole) &&
            FitsBelow(p', child, at, e)
  {
    var p' := p[hole := p[child]];
    assert hole < child;
    forall i | 0 < i < k && i != child && Parent(i) != child ensures !Greater(at[p'[Parent(i)]], at[p'[i]]) {
      if i == hole {
        assert !Greater(at[p[Parent(hole)]], at[p[child]]);
      } else if Parent(i) == hole {
        assert !Greater(at[p[child]], at[p[i]]);
      }
    }
    forall i | 0 < i < k && Parent(i) == child ensures !Greater(at[p'[Parent(child)]], at[p'[i]]) {
      assert i != hole && !Greater(at[p[child]], at[p[i]]);
    }
    forall x | x in StoredBut(p, k, hole) ensures x in StoredBut(p', k, child) {
      var i :| 0 <= i < k && i != hole && p[i] == x;
      if i == child { assert p'[hole] == x; } else { assert p'[i] == x; }
    }
    forall x | x in StoredBut(p', k, child) ensures x in StoredBut(p, k, hole) {
      var i :| 0 <= i < k && i != child && p'[i] == x;
      if i == hole { assert p[child] == x; } else { assert p[i] == x; }
    }
  }

  /** The child that is not due after the other one is the least of those below the hole. */
  lemma LeastChild(p: seq<Id>, k: nat, hole: nat, child: nat, at: map<Id, Time>)
    requires Holed(p, k, hole, at) && 2 * hole + 1 <= child <= 2 * hole + 2 && child < k
    requires child == 2 * hole + 1 && child + 1 < k ==> Greater(at[p[child + 1]], at[p[child]])
    requires child == 2 * hole + 2 ==> !Greater(at[p[child]], at[p[child - 1]])
    ensures Parent(child) == hole &&
            forall i :: 0 < i < k && Parent(i) == hole ==> !Greater(at[p[child]], at[p[i]])
  {
    forall i | 0 < i < k && Parent(i) == hole ensures !Greater(at[p[child]], at[p[i]]) {
      assert i == 2 * hole + 1 || i == 2 * hole + 2;
    }
  }

  /** Where two records of back-indices agree. */
  ghost predicate SameOutside(idx: map<Id, int>, was: map<Id, int>, here: set<Id>)
  {
    idx.Keys == was.Keys && forall x :: x in idx && x !in here ==> idx[x] == was[x]
  }

  lemma SameItself(idx: map<Id, int>, here: set<Id>)
    ensures SameOutside(idx, idx, here)
  {
  }

  lemma SameOn(a: map<Id, int>, b: map<Id, int>, c: map<Id, int>, here: set<Id>, there: set<Id>)
    requires SameOutside(b, a, here) && SameOutside(c, b, there) && here <= there
    ensures SameOutside(c, a, there)
  {
  }

  lemma SameFill(idx: map<Id, int>, was: map<Id, int>, here: set<Id>, e: Id, i: int)
    requires SameOutside(idx, was, here) && e in idx
    ensures SameOutside(idx[e := i], was, here + {e})
  {
  }

  lemma HoleFacts(p: seq<Id>, k: nat, hole: nat, at: map<Id, Time>)
    requires Holed(p, k, hole, at)
    ensures hole < k <= |p| && forall i :: 0 <= i < k && i != hole ==> p[i] in at
  {
  }

  /** The comparison with the event above the hole tells whether the new one fits below it. */
  lemma AboveTells(p: seq<Id>, k: nat, hole: nat, at: map<Id, Time>, e: Id)
    requires Holed(p, k, hole, at) && FitsAbove(p, k, hole, at, e)
    ensures e in at && hole < k <= |p| && (hole > 0 ==> p[Parent(hole)] in at)
    ensures FitsBelow(p, hole, at, e) <==> hole == 0 || !Greater(at[p[Parent(hole)]], at[e])
  {
    BelowTells(p, k, hole, at, e);
  }

  lemma BelowTells(p: seq<Id>, k: nat, hole: nat, at: map<Id, Time>, e: Id)
    requires Holed(p, k, hole, at) && e in at
    ensures hole < k <= |p| && (hole > 0 ==> p[Parent(hole)] in at)
    ensures FitsBelow(p, hole, at, e) <==> hole == 0 || !Greater(at[p[Parent(hole)]], at[e])
  {
  }

  /** A step down moves an event of the heap, so that nothing outside it changes. */
  lemma StepSame(p: seq<Id>, k: nat, hole: nat, child: nat, idx: map<Id, int>, was: map<Id, int>, e: Id)
    requires IndexedBut(p, k, hole, idx, e) && child < k && child != hole &&
             SameOutside(idx, was, StoredBut(p, k, hole))
    ensures SameOutside(idx[p[child] := hole], was, StoredBut(p, k, hole))
  {
    assert p[child] in StoredBut(p, k, hole);
  }

  lemma Fits(p: seq<Id>, k: nat, hole: nat, child: nat, at: map<Id, Time>, e: Id)
    requires Holed(p, k, hole, at) && 0 < child < k && child != hole && e in at &&
             !Greater(at[e], at[p[child]])
    requires forall i :: 0 < i < k && Parent(i) == hole ==> !Greater(at[p[child]], at[p[i]])
    ensures FitsAbove(p, k, hole, at, e)
  {
  }

  lemma FitsLeaf(p: seq<Id>, k: nat, hole: nat, at: map<Id, Time>, e: Id)
    requires k <= |p| && k <= 2 * hole + 1 && e in at
    ensures FitsAbove(p, k, hole, at, e)
  {
  }

  /** Taking an event out leaves a hole. */
  lemma MakeHole(p: seq<Id>, n: nat, hole: nat, at: map<Id, Time>, idx: map<Id, int>)
    requires Ordered(p, n, at) && Indexed(p, n, idx) && hole < n
    ensures Holed(p, n, hole, at) && FitsBelow(p, hole, at, p[hole])
  {
    if hole > 0 {
      forall i | 0 < i < n && Parent(i) == hole ensures !Greater(at[p[Parent(hole)]], at[p[i]]) {
        assert !Greater(at[p[hole]], at[p[i]]);
      }
    }
  }

  /** The first event of the heap is due before every other one. */
  lemma {:induction false} TopIsLeast(p: seq<Id>, n: nat, at: map<Id, Time>, i: nat)
    requires Ordered(p, n, at) && i < n
    ensures !Greater(at[p[0]], at[p[i]])
    decreases i
  {
    if i > 0 { TopIsLeast(p, n, at, Parent(i)); }
  }

  // ----- the heap and the set of its events -----

  /** The heap holds exactly the events of `all`, in order, each at its back-index; every other event is marked -1. */
  ghost predicate Heaped(p: seq<Id>, n: nat, at: map<Id, Time>, idx: map<Id, int>, all: set<Id>)
  {
    Ordered(p, n, at) && Indexed(p, n, idx) && Stored(p, n) == all && forall x :: x in idx && x !in all ==> idx[x] == -1
  }

  lemma HeapedIndex(p: seq<Id>, n: nat, at: map<Id, Time>, idx: map<Id, int>, all: set<Id>, e: Id)
    requires Heaped(p, n, at, idx, all) && e in idx
    ensures n <= |p| && if e in all then 0 <= idx[e] < n && p[idx[e]] == e && e in at else idx[e] == -1
  {
    if e in all {
      var i :| 0 <= i < n && p[i] == e;
    }
  }

  /** Room for one more is a hole at the end. */
  lemma PushHole(p: seq<Id>, n: nat, at: map<Id, Time>, idx: map<Id, int>, all: set<Id>, e: Id)
    requires Heaped(p, n, at, idx, all) && n < |p| && e !in all && e in idx && e in at
    ensures Holed(p, n + 1, n, at) && FitsAbove(p, n + 1, n, at, e) && IndexedBut(p, n + 1, n, idx, e) &&
            StoredBut(p, n + 1, n) == all
  {
    forall i | 0 <= i < n ensures p[i] != e { assert p[i] in Stored(p, n); }
    assert StoredBut(p, n + 1, n) == Stored(p, n);
  }

  lemma Pushed(p: seq<Id>, n: nat, at: map<Id, Time>, idx: map<Id, int>, was: map<Id, int>, all: set<Id>, e: Id)
    requires Ordered(p, n, at) && Indexed(p, n, idx) && Stored(p, n) == all + {e} && SameOutside(idx, was, all + {e})
    requires forall x :: x in was && x !in all ==> was[x] == -1
    ensures Heaped(p, n, at, idx, all + {e}) && idx.Keys == was.Keys
  {
  }

  /** Where the hole is when an event leaves and the last event takes its place. */
  ghost function HoleSize(n: nat, i: nat): nat
    requires 0 < n
  {
    if i < n - 1 then n - 1 else i + 1
  }

  /** The last event can go up or stay: it never has to do both, as all that was below the leaving event is due after
      its parent. */
  lemma EraseHole(p: seq<Id>, n: nat, at: map<Id, Time>, idx: map<Id, int>, all: set<Id>, e: Id)
    requires Heaped(p, n, at, idx, all) && e in idx && e in all
    ensures 0 <= idx[e] < n <= |p|
    ensures var i, last, k := idx[e], p[n - 1], HoleSize(n, idx[e]);
            last in at && Holed(p, k, i, at) && IndexedBut(p, k, i, idx, last) &&
            (FitsBelow(p, i, at, last) || FitsAbove(p, k, i, at, last))
    ensures var i, last, k := idx[e], p[n - 1], HoleSize(n, idx[e]);
            StoredBut(p, k, i) + {last} == (if i < n - 1 then all - {e} else all) &&
            (i == n - 1 ==> FitsBelow(p, i, at, last))
  {
    HeapedIndex(p, n, at, idx, all, e);
    var i, last, k: nat := idx[e], p[n - 1], HoleSize(n, idx[e]);
    MakeHole(p, n, i, at, idx);
    HoleShrinks(p, n, k, i, at);
    if !FitsBelow(p, i, at, last) {
      assert i > 0 && Greater(at[p[Parent(i)]], at[last]);
      forall c | 0 < c < k && Parent(c) == i ensures !Greater(at[last], at[p[c]]) {
        assert !Greater(at[p[Parent(i)]], at[p[c]]);
      }
    }
    EraseElems(p, n, idx, all, e);
  }

  lemma HoleShrinks(p: seq<Id>, n: nat, k: nat, hole: nat, at: map<Id, Time>)
    requires Holed(p, n, hole, at) && hole < k <= n
    ensures Holed(p, k, hole, at)
  {
  }

  lemma EraseElems(p: seq<Id>, n: nat, idx: map<Id, int>, all: set<Id>, e: Id)
    requires 0 < n && Indexed(p, n, idx) && Stored(p, n) == all && e in idx && 0 <= idx[e] < n && p[idx[e]] == e
    ensures StoredBut(p, HoleSize(n, idx[e]), idx[e]) + {p[n - 1]} == if idx[e] < n - 1 then all - {e} else all
  {
    var i, last, k: nat := idx[e], p[n - 1], HoleSize(n, idx[e]);
    var left := StoredBut(p, k, i) + {last};
    forall x | x in all && (i < n - 1 ==> x != e) ensures x in left {
      var j :| 0 <= j < n && p[j] == x;
      assert j == n - 1 || (j < k && j != i);
    }
    forall x | x in left ensures x in all && (i < n - 1 ==> x != e) {
      if x == last {
        assert p[n - 1] in all;
      } else {
        var j :| 0 <= j < k && j != i && p[j] == x;
        assert p[j] in all;
      }
    }
  }

  /** The event has left: its index is cleared. */
  lemma Erased(p: seq<Id>, n: nat, at: map<Id, Time>, idx: map<Id, int>, was: map<Id, int>, all: set<Id>, e: Id, k: nat)
    requires e in all && e in was && 0 < n && n - 1 <= k <= n
    requires Ordered(p, k, at) && Indexed(p, k, idx) && SameOutside(idx, was, Stored(p, k))
    requires if k == n then p[n - 1] == e && Stored(p, n) == all else Stored(p, k) == all - {e}
    requires forall x :: x in was && x !in all ==> was[x] == -1
    ensures Heaped(p, n - 1, at, idx[e := -1], all - {e}) && idx[e := -1].Keys == was.Keys
  {
    if k == n {
      forall i | 0 <= i < n - 1 ensures p[i] != e { assert idx[p[i]] == i; }
      forall x | x in all - {e} ensures x in Stored(p, n - 1) {
        var i :| 0 <= i < n && p[i] == x;
      }
      forall x | x in Stored(p, n - 1) ensures x in all - {e} {
        var i :| 0 <= i < n - 1 && p[i] == x;
        assert p[i] in Stored(p, n);
      }
    } else {
      forall i | 0 <= i < k ensures p[i] != e { assert p[i] in Stored(p, k); }
    }
  }

  /** A deadline outside the heap may change, and memory may be added. */
  lemma HeapedOutside(p: seq<Id>, p': seq<Id>, n: nat, at: map<Id, Time>, at': map<Id, Time>, idx: map<Id, int>,
                      all: set<Id>)
    requires Heaped(p, n, at, idx, all) && n <= |p'| && p[..n] == p'[..n] &&
             forall x :: x in at && x in all ==> x in at' && at'[x] == at[x]
    ensures Heaped(p', n, at', idx, all)
  {
    forall i | 0 <= i < n ensures p'[i] == p[i] && p[i] in all {
      assert p'[..n][i] == p[..n][i];
      assert p[i] in Stored(p, n);
    }
    assert Stored(p', n) == Stored(p, n);
  }

  lemma HeapedTop(p: seq<Id>, n: nat, at: map<Id, Time>, idx: map<Id, int>, all: set<Id>)
    requires Heaped(p, n, at, idx, all)
    ensures n <= |p| && (n == 0 <==> all == {})
    ensures n > 0 ==>
              p[0] in all && p[0] in idx && p[0] in at && idx[p[0]] == 0 &&
              forall x :: x in all ==> x in at && !Greater(at[p[0]], at[x])
  {
    if n > 0 {
      assert p[0] in Stored(p, n);
      forall x | x in all ensures x in at && !Greater(at[p[0]], at[x]) {
        var i :| 0 <= i < n && p[i] == x;
        TopIsLeast(p, n, at, i);
      }
    }
  }

  lemma HeapedEach(p: seq<Id>, n: nat, at: map<Id, Time>, idx: map<Id, int>, all: set<Id>)
    requires Heaped(p, n, at, idx, all)
    ensures n <= |p| && (forall i :: 0 <= i < n ==> p[i] in at && p[i] in all) &&
            forall i, j :: 0 <= i < j < n ==> p[i] != p[j]
  {
    forall i | 0 <= i < n ensures p[i] in all { assert p[i] in Stored(p, n); }
    forall i, j | 0 <= i < j < n ensures p[i] != p[j] { assert idx[p[i]] == i && idx[p[j]] == j; }
  }

  /** Setting every deadline back by the same normal time keeps the heap, if the deadlines are normal. */
  lemma HeapedShift(p: seq<Id>, n: nat, at: map<Id, Time>, at': map<Id, Time>, idx: map<Id, int>, all: set<Id>,
                    off: Time)
    requires Heaped(p, n, at, idx, all) && at'.Keys == at.Keys
    requires forall i :: 0 <= i < n ==> p[i] in at && at'[p[i]] == Minus(at[p[i]], off)
    ensures forall x :: x in all ==> x in at' && at'[x] == Minus(at[x], off)
    ensures Normal(off) && (forall x :: x in all && x in at ==> Normal(at[x])) ==> Heaped(p, n, at', idx, all)
  {
    forall x | x in all ensures x in at' && at'[x] == Minus(at[x], off) {
      var i :| 0 <= i < n && p[i] == x;
    }
    if Normal(off) && forall x :: x in all && x in at ==> Normal(at[x]) {
      forall i | 0 < i < n ensures !Greater(at'[p[Parent(i)]], at'[p[i]]) {
        var a, b := p[Parent(i)], p[i];
        assert a in Stored(p, n) && b in Stored(p, n);
        ShiftIff(at[a]);
        assert KeepsOrder(at[a], at[b], off);
      }
    }
  }

  // ----- events fired in the order of their deadlines -----

  ghost predicate Ascending(order: seq<Id>, at: map<Id, Time>)
  {
    (forall i :: 0 <= i < |order| ==> order[i] in at) &&
    forall i, j :: 0 <= i < j < |order| ==> !Greater(at[order[i]], at[order[j]])
  }

  /** The events fired so far: all due, in order, and none due after one that still waits. */
  ghost predicate Fired(order: seq<Id>, at: map<Id, Time>, now: Time, waiting: set<Id>, was: set<Id>)
  {
    Distinct(order) && Ascending(order, at) && Elems(order) <= was && waiting == was - Elems(order) &&
    (forall x :: x in order ==> !Greater(at[x], now)) &&
    forall x, y :: x in order && y in waiting && y in at ==> !Greater(at[x], at[y])
  }

  lemma FiredNone(at: map<Id, Time>, now: Time, waiting: set<Id>)
    ensures Fired([], at, now, waiting, waiting)
  {
  }

  lemma FiredOne(order: seq<Id>, at: map<Id, Time>, now: Time, waiting: set<Id>, was: set<Id>, x: Id)
    requires Fired(order, at, now, waiting, was) && x in waiting && x in at && !Greater(at[x], now)
    requires forall y :: y in waiting ==> y in at && !Greater(at[x], at[y])
    ensures Fired(order + [x], at, now, waiting - {x}, was) && x !in order
  {
    assert x !in Elems(order);
    assert Elems(order + [x]) == Elems(order) + {x};
  }

  /** When nothing that waits is due, those fired are all that were. */
  lemma FiredAll(order: seq<Id>, at: map<Id, Time>, now: Time, waiting: set<Id>, was: set<Id>)
    requires Fired(order, at, now, waiting, was) && forall x :: x in waiting ==> x in at && Greater(at[x], now)
    ensures Elems(order) == set x | x in was && x in at && !Greater(at[x], now)
  {
    forall x | x in order ensures x in was && x in at && !Greater(at[x], now) {
      assert x in Elems(order);
    }
  }

  lemma FiredFacts(order: seq<Id>, at: map<Id, Time>, now: Time, waiting: set<Id>, was: set<Id>)
    requires Fired(order, at, now, waiting, was)
    ensures Distinct(order) && Ascending(order, at) && waiting == was - Elems(order)
  {
  }

  /** If the first event is not due, none is. */
  lemma NoneDue(p: seq<Id>, n: nat, at: map<Id, Time>, idx: map<Id, int>, all: set<Id>, now: Time)
    requires Heaped(p, n, at, idx, all) && (n > 0 ==> n <= |p| && p[0] in at && Greater(at[p[0]], now))
    ensures forall x :: x in all ==> x in at && Greater(at[x], now)
  {
    HeapedTop(p, n, at, idx, all);
  }

  /** An event that was not known is not in the heap. */
  lemma HeapedNew(p: seq<Id>, n: nat, at: map<Id, Time>, idx: map<Id, int>, all: set<Id>, x: Id, t: Time)
    requires Heaped(p, n, at, idx, all) && x !in all
    ensures Heaped(p, n, at[x := t], idx[x := -1], all)
  {
    forall i | 0 <= i < n ensures p[i] != x { assert p[i] in Stored(p, n); }
  }
}
