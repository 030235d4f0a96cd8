/**
 * An event base: the inserted list, the active queues by priority, the timeout heap, and the flags, back-indices and
 * counters that must agree with them.
 */
module EvBase {
  import opened Seqs
  import opened Options
  import opened EvTime
  import opened EvQueues
  import opened EvFlags
  import opened EvHeap
  import opened EvEffects

  /** The times that become deadlines, and those the clock is corrected with, are normal. */
  predicate Timed(c: Call)
  {
    match c
    case Add(_, tv, now, _, _) => Normal(now) && (tv.Some? ==> Normal(tv.value))
    case Correct(now) => Normal(now)
    case _ => true
  }

  ghost predicate TimesNormal(timeout: map<Id, Time>, eventTv: Time)
  {
    Normal(eventTv) && forall x :: x in timeout ==> Normal(timeout[x])
  }

  ghost predicate AllTimed(calls: seq<Call>)
  {
    forall i :: 0 <= i < |calls| ==> Timed(calls[i])
  }

  ghost predicate ScriptsTimed(scripts: seq<Script>)
  {
    forall i :: 0 <= i < |scripts| ==> AllTimed(scripts[i].calls)
  }

  ghost predicate TurnTimed(t: Turn)
  {
    match t
    case Request(c) => Timed(c)
    case Pass(scripts) => ScriptsTimed(scripts)
  }

  class EventBase {
    // per event
    var kind: map<Id, Kind>
    var pri: map<Id, nat>
    var timeout: map<Id, Time>
    var heapIdx: map<Id, int>
    var res: map<Id, set<What>>
    var hasTimeout: set<Id>
    var isInserted: set<Id>
    var isActive: set<Id>
    // the base itself
    var p: seq<Id>
    var n: nat
    var eventQueue: seq<Id>
    var activeQueues: seq<seq<Id>>
    var eventCount: int
    var activeCount: int
    var eventTv: Time
    /** Whether the clock never goes back. */
    const monotonic: bool

    /** A base with `queues` priorities and no events. */
    constructor (queues: nat, now: Time, steady: bool)
      requires queues > 0
      ensures Agrees() && kind == map[] && |activeQueues| == queues && eventTv == now && monotonic == steady
      ensures timeout == map[]
    {
      monotonic := steady;
      kind, pri, timeout, heapIdx, res := map[], map[], map[], map[], map[];
      hasTimeout, isInserted, isActive := {}, {}, {};
      p, n, eventQueue := [], 0, [];
      activeQueues := seq(queues, _ => []);
      eventCount, activeCount := 0, 0;
      eventTv := now;
      new;
      SortedNone(activeQueues);
    }

    /** The places of the events. */
    ghost function Snap(): State
      reads `kind, `pri, `timeout, `res, `hasTimeout, `isInserted, `isActive, `eventQueue, `activeQueues, `eventTv
    {
      State(kind, pri, timeout, res, hasTimeout, isInserted, isActive, eventQueue, activeQueues, eventTv)
    }

    // ----- agreement -----

    ghost predicate Known()
      reads `kind, `pri, `timeout, `heapIdx, `res, `activeQueues
    {
      Mapped(kind.Keys, pri, timeout.Keys, heapIdx.Keys, res.Keys, |activeQueues|)
    }

    ghost predicate FlagsKnown()
      reads `kind, `hasTimeout, `isInserted, `isActive
    {
      Among(kind.Keys, hasTimeout, isInserted, isActive)
    }

    /** The heap is ordered, holds the events flagged with a timeout, each at its back-index, and all others are
        marked -1. */
    ghost predicate HeapAgrees()
      reads `p, `n, `timeout, `heapIdx, `hasTimeout
    {
      Heaped(p, n, timeout, heapIdx, hasTimeout)
    }

    ghost predicate InsertedAgrees()
      reads `eventQueue, `isInserted
    {
      Lists(eventQueue, isInserted)
    }

    ghost predicate ActiveAgrees()
      reads `activeQueues, `pri, `isActive
    {
      Sorted(activeQueues, pri, isActive)
    }

    ghost function Internal(): set<Id>
      reads `kind
    {
      InternalOf(kind)
    }

    /** The counters are the numbers of memberships. */
    ghost predicate CountsAgree()
      reads `eventCount, `activeCount, `isInserted, `isActive, `hasTimeout, `activeQueues, `kind
    {
      eventCount == Memberships(isInserted, isActive, hasTimeout, Internal()) && activeCount == Total(activeQueues)
    }

    ghost predicate Agrees()
      reads `kind, `pri, `timeout, `heapIdx, `res, `hasTimeout, `isInserted, `isActive, `p, `n, `eventQueue,
            `activeQueues, `eventCount, `activeCount
    {
      Known() && FlagsKnown() && HeapAgrees() && InsertedAgrees() && ActiveAgrees() && CountsAgree()
    }

    // ----- the heap -----

    predicate Later(x: Id, y: Id)
      requires x in timeout && y in timeout
      reads this
    {
      Greater(timeout[x], timeout[y])
    }

    method ShiftUp(hole0: nat, e: Id, ghost k: nat)
      requires Holed(p, k, hole0, timeout) && FitsAbove(p, k, hole0, timeout, e) && IndexedBut(p, k, hole0, heapIdx, e)
      modifies `p, `heapIdx
      ensures |p| == |old(p)| && Ordered(p, k, timeout) && Indexed(p, k, heapIdx) &&
              Stored(p, k) == StoredBut(old(p), k, hole0) + {e}
      ensures SameOutside(heapIdx, old(heapIdx), Stored(p, k))
      ensures FitsBelow(old(p), hole0, timeout, e) ==> p == old(p[hole0 := e])
    {
      hide Holed, FitsAbove, FitsBelow, IndexedBut, StoredBut, SameOutside, Ordered, Indexed, Stored, Greater;
      var hole: nat := hole0;
      AboveTells(p, k, hole, timeout, e);
      SameItself(heapIdx, StoredBut(p, k, hole));
      while hole > 0 && Later(p[(hole - 1) / 2], e)
        invariant |p| == |old(p)| && Holed(p, k, hole, timeout) && FitsAbove(p, k, hole, timeout, e) &&
                  IndexedBut(p, k, hole, heapIdx, e)
        invariant e in timeout && hole < k <= |p| && (hole > 0 ==> p[Parent(hole)] in timeout)
        invariant FitsBelow(p, hole, timeout, e) <==> hole == 0 || !Greater(timeout[p[Parent(hole)]], timeout[e])
        invariant StoredBut(p, k, hole) == StoredBut(old(p), k, hole0) &&
                  SameOutside(heapIdx, old(heapIdx), StoredBut(p, k, hole))
        invariant if hole == hole0 then p == old(p) else !FitsBelow(old(p), hole0, timeout, e)
      {
        StepUp(p, k, hole, timeout, heapIdx, e);
        var up := (hole - 1) / 2;
        StepSame(p, k, hole, up, heapIdx, old(heapIdx), e);
        heapIdx := heapIdx[p[up] := hole];
        p := p[hole := p[up]];
        hole := up;
        AboveTells(p, k, hole, timeout, e);
      }
      Fill(p, k, hole, timeout, heapIdx, e);
      SameFill(heapIdx, old(heapIdx), StoredBut(p, k, hole), e, hole);
      heapIdx := heapIdx[e := hole];
      p := p[hole := e];
    }

    method ShiftDown(hole0: nat, e: Id, ghost k: nat)
      requires k == (if hole0 < n then n else hole0 + 1) && hole0 <= n
      requires Holed(p, k, hole0, timeout) && IndexedBut(p, k, hole0, heapIdx, e) && e in timeout
      requires FitsBelow(p, hole0, timeout, e)
      modifies `p, `heapIdx
      ensures |p| == |old(p)| && Ordered(p, k, timeout) && Indexed(p, k, heapIdx) &&
              Stored(p, k) == StoredBut(old(p), k, hole0) + {e}
      ensures SameOutside(heapIdx, old(heapIdx), Stored(p, k))
      ensures hole0 == n ==> p == old(p[hole0 := e])
    {
      hide Holed, FitsAbove, FitsBelow, IndexedBut, StoredBut, SameOutside, Ordered, Indexed, Stored;
      HoleFacts(p, k, hole0, timeout);
      var hole: nat, more := hole0, 2 * (hole0 + 1) <= n;
      SameItself(heapIdx, StoredBut(p, k, hole));
      if !more { FitsLeaf(p, k, hole, timeout, e); }
      while more
        invariant k <= |p| == |old(p)| && hole <= n
        invariant more ==> 2 * (hole + 1) <= n
        invariant Holed(p, k, hole, timeout) && IndexedBut(p, k, hole, heapIdx, e)
        invariant FitsBelow(p, hole, timeout, e)
        invariant StoredBut(p, k, hole) == StoredBut(old(p), k, hole0) &&
                  SameOutside(heapIdx, old(heapIdx), StoredBut(p, k, hole))
        invariant !more ==> FitsAbove(p, k, hole, timeout, e)
        invariant hole0 == n ==> hole == hole0 && p == old(p)
        decreases more, n - hole
      {
        HoleFacts(p, k, hole, timeout);
        var child := 2 * (hole + 1);
        if child == n || Later(p[child], p[child - 1]) { child := child - 1; }
        LeastChild(p, k, hole, child, timeout);
        if Later(e, p[child]) {
          StepDown(p, k, hole, child, timeout, heapIdx, e);
          StepSame(p, k, hole, child, heapIdx, old(heapIdx), e);
          heapIdx := heapIdx[p[child] := hole];
          p := p[hole := p[child]];
          hole := child;
          more := 2 * (hole + 1) <= n;
          if !more { FitsLeaf(p, k, hole, timeout, e); }
        } else {
          Fits(p, k, hole, child, timeout, e);
          more := false;
        }
      }
      ghost var mid, here := heapIdx, StoredBut(p, k, hole);
      ShiftUp(hole, e, k);
      SameOn(old(heapIdx), mid, heapIdx, here, Stored(p, k));
    }

    /** Memory may run out, which `memory` tells. */
    method Reserve(size: nat, memory: bool) returns (r: int)
      requires n <= |p|
      modifies `p
      ensures r == 0 || r == -1
      ensures r == -1 <==> old(|p|) < size && !memory
      ensures if r == 0 then size <= |p| else p == old(p)
      ensures old(p) <= p
    {
      if |p| < size {
        var a := if |p| > 0 then |p| * 2 else 8;
        if a < size { a := size; }
        if !memory { return -1; }
        p := p + seq(a - |p|, _ => 0);
      }
      r := 0;
    }

    method Push(e: Id, memory: bool, ghost all: set<Id>) returns (r: int)
      requires Heaped(p, n, timeout, heapIdx, all) && e !in all && e in heapIdx && e in timeout
      modifies `p, `n, `heapIdx
      ensures r == 0 || r == -1
      ensures r == -1 <==> old(n == |p|) && !memory
      ensures Heaped(p, n, timeout, heapIdx, if r == 0 then all + {e} else all) && heapIdx.Keys == old(heapIdx.Keys)
      ensures if r == 0 then n == old(n) + 1 && |p| >= old(|p|)
              else n == old(n) && p == old(p) && heapIdx == old(heapIdx)
    {
      hide Holed, FitsAbove, FitsBelow, IndexedBut, SameOutside, Ordered, Indexed, Stored, StoredBut, Greater;
      HeapedIndex(p, n, timeout, heapIdx, all, e);
      r := Reserve(n + 1, memory);
      if r != 0 { return; }
      HeapedOutside(old(p), p, n, timeout, timeout, heapIdx, all);
      PushHole(p, n, timeout, heapIdx, all, e);
      n := n + 1;
      ShiftUp(n - 1, e, n);
      Pushed(p, n, timeout, heapIdx, old(heapIdx), all, e);
    }

    method Erase(e: Id, ghost all: set<Id>) returns (r: int)
      requires Heaped(p, n, timeout, heapIdx, all) && e in heapIdx
      modifies `p, `n, `heapIdx
      ensures r == if e in all then 0 else -1
      ensures Heaped(p, n, timeout, heapIdx, all - {e}) && heapIdx.Keys == old(heapIdx.Keys) && |p| == old(|p|)
      ensures n == if e in all then old(n) - 1 else old(n)
    {
      hide Holed, FitsAbove, FitsBelow, IndexedBut, SameOutside, Ordered, Indexed, Stored, StoredBut;
      HeapedIndex(p, n, timeout, heapIdx, all, e);
      if heapIdx[e] != -1 {
        EraseHole(p, n, timeout, heapIdx, all, e);
        var i := heapIdx[e];
        ghost var k := HoleSize(n, i);
        n := n - 1;
        var last := p[n];
        BelowTells(p, k, i, timeout, last);
        if i > 0 && Later(p[(i - 1) / 2], last) {
          ShiftUp(i, last, k);
        } else {
          ShiftDown(i, last, k);
        }
        Erased(p, n + 1, timeout, heapIdx, old(heapIdx), all, e, k);
        heapIdx := heapIdx[e := -1];
        r := 0;
      } else {
        r := -1;
      }
    }

    method Pop(ghost all: set<Id>) returns (r: Option<Id>)
      requires Heaped(p, n, timeout, heapIdx, all)
      modifies `p, `n, `heapIdx
      ensures r == None <==> all == {}
      ensures r.Some? ==> r.value in all && Heaped(p, n, timeout, heapIdx, all - {r.value})
      ensures r.Some? ==>
                r.value in timeout &&
                forall x :: x in all ==> x in timeout && !Greater(timeout[r.value], timeout[x])
    {
      hide Holed, FitsAbove, FitsBelow, IndexedBut, SameOutside, Ordered, Indexed, Stored, StoredBut;
      HeapedTop(p, n, timeout, heapIdx, all);
      if n > 0 {
        var e := p[0];
        EraseHole(p, n, timeout, heapIdx, all, e);
        BelowTells(p, HoleSize(n, 0), 0, timeout, p[n - 1]);
        n := n - 1;
        ShiftDown(0, p[n], HoleSize(n + 1, 0));
        Erased(p, n + 1, timeout, heapIdx, old(heapIdx), all, e, HoleSize(n + 1, 0));
        heapIdx := heapIdx[e := -1];
        r := Some(e);
      } else {
        r := None;
      }
    }

    // ----- the three places of an event -----

    lemma Has(x: Id)
      requires Agrees() && (x in hasTimeout || x in isInserted || x in isActive || x in kind)
      ensures x in kind && x in pri && x in timeout && x in heapIdx && x in res && pri[x] < |activeQueues|
    {
      if x !in kind { AmongHas(kind.Keys, hasTimeout, isInserted, isActive, x); }
      MappedHas(kind.Keys, pri, timeout.Keys, heapIdx.Keys, res.Keys, |activeQueues|, x);
    }

    method RemoveInserted(x: Id)
      requires Agrees() && x in isInserted
      modifies `eventCount, `isInserted, `eventQueue
      ensures Agrees() && isInserted == old(isInserted) - {x} && eventQueue == Remain(old(eventQueue), {x})
    {
      hide Lists, Sorted, Heaped, Remain, Total, Mapped, Among, Memberships, Weight, InternalOf;
      Has(x);
      WeightOf(kind, x);
      InsertedChange(isInserted, isActive, hasTimeout, Internal(), x);
      ListRemove(eventQueue, isInserted, x);
      AmongChange(kind.Keys, hasTimeout, isInserted, isActive, hasTimeout, isInserted - {x}, isActive, x);
      if !kind[x].internal { eventCount := eventCount - 1; }
      isInserted := isInserted - {x};
      eventQueue := Remain(eventQueue, {x});
    }

    method RemoveActive(x: Id)
      requires Agrees() && x in isActive
      modifies `eventCount, `activeCount, `isActive, `activeQueues
      ensures Agrees() && isActive == old(isActive) - {x}
      ensures x in pri && pri[x] < |old(activeQueues)| &&
              activeQueues == old(activeQueues)[pri[x] := Remain(old(activeQueues)[pri[x]], {x})]
    {
      hide Lists, Sorted, Heaped, Remain, Total, Mapped, Among, Memberships, Weight, InternalOf;
      Has(x);
      WeightOf(kind, x);
      ActiveChange(isInserted, isActive, hasTimeout, Internal(), x);
      SortedRemove(activeQueues, pri, isActive, x);
      AmongChange(kind.Keys, hasTimeout, isInserted, isActive, hasTimeout, isInserted, isActive - {x}, x);
      if !kind[x].internal { eventCount := eventCount - 1; }
      isActive := isActive - {x};
      activeCount := activeCount - 1;
      activeQueues := activeQueues[pri[x] := Remain(activeQueues[pri[x]], {x})];
    }

    method RemoveTimeout(x: Id)
      requires Agrees() && x in hasTimeout
      modifies `eventCount, `hasTimeout, `p, `n, `heapIdx
      ensures Agrees() && hasTimeout == old(hasTimeout) - {x} && n < |p|
    {
      hide Lists, Sorted, Heaped, Remain, Total, Mapped, Among, Memberships, Weight, InternalOf;
      Has(x);
      WeightOf(kind, x);
      TimeoutChange(isInserted, isActive, hasTimeout, Internal(), x);
      HeapedIndex(p, n, timeout, heapIdx, hasTimeout, x);
      AmongChange(kind.Keys, hasTimeout, isInserted, isActive, hasTimeout - {x}, isInserted, isActive, x);
      if !kind[x].internal { eventCount := eventCount - 1; }
      var _ := Erase(x, hasTimeout);
      hasTimeout := hasTimeout - {x};
    }

    method InsertInserted(x: Id)
      requires Agrees() && x in kind && x !in isInserted
      modifies `eventCount, `isInserted, `eventQueue
      ensures Agrees() && isInserted == old(isInserted) + {x} && eventQueue == old(eventQueue) + [x]
    {
      hide Lists, Sorted, Heaped, Remain, Total, Mapped, Among, Memberships, Weight, InternalOf;
      Has(x);
      WeightOf(kind, x);
      InsertedChange(isInserted, isActive, hasTimeout, Internal(), x);
      ListAdd(eventQueue, isInserted, x);
      AmongChange(kind.Keys, hasTimeout, isInserted, isActive, hasTimeout, isInserted + {x}, isActive, x);
      if !kind[x].internal { eventCount := eventCount + 1; }
      isInserted := isInserted + {x};
      eventQueue := eventQueue + [x];
    }

    method InsertActive(x: Id)
      requires Agrees() && x in kind
      modifies `eventCount, `activeCount, `isActive, `activeQueues
      ensures Agrees() && isActive == old(isActive) + {x}
      ensures x in old(isActive) ==> activeQueues == old(activeQueues)
      ensures x !in old(isActive) ==>
                x in pri && pri[x] < |old(activeQueues)| &&
                activeQueues == old(activeQueues)[pri[x] := old(activeQueues)[pri[x]] + [x]]
    {
      hide Lists, Sorted, Heaped, Remain, Total, Mapped, Among, Memberships, Weight, InternalOf;
      if x in isActive { return; }
      Has(x);
      WeightOf(kind, x);
      ActiveChange(isInserted, isActive, hasTimeout, Internal(), x);
      SortedAdd(activeQueues, pri, isActive, x);
      AmongChange(kind.Keys, hasTimeout, isInserted, isActive, hasTimeout, isInserted, isActive + {x}, x);
      if !kind[x].internal { eventCount := eventCount + 1; }
      isActive := isActive + {x};
      activeCount := activeCount + 1;
      activeQueues := activeQueues[pri[x] := activeQueues[pri[x]] + [x]];
    }

    /** There must be room in the heap: the result of the push is not looked at. */
    method InsertTimeout(x: Id)
      requires Agrees() && x in kind && x !in hasTimeout && x in timeout && n < |p|
      modifies `eventCount, `hasTimeout, `p, `n, `heapIdx
      ensures Agrees() && hasTimeout == old(hasTimeout) + {x}
    {
      hide Lists, Sorted, Heaped, Remain, Total, Mapped, Among, Memberships, Weight, InternalOf;
      Has(x);
      WeightOf(kind, x);
      TimeoutChange(isInserted, isActive, hasTimeout, Internal(), x);
      AmongChange(kind.Keys, hasTimeout, isInserted, isActive, hasTimeout + {x}, isInserted, isActive, x);
      if !kind[x].internal { eventCount := eventCount + 1; }
      var _ := Push(x, false, hasTimeout);
      hasTimeout := hasTimeout + {x};
    }

    // ----- adding, deleting and activating events -----

    /** Deletes an event; `backend` is what the backend answers. */
    method EventDel(x: Id, backend: int) returns (r: int)
      requires Agrees() && x in kind
      modifies `eventCount, `activeCount, `hasTimeout, `isInserted, `isActive, `p, `n, `heapIdx, `eventQueue,
               `activeQueues
      ensures Agrees() && r == if x in old(isInserted) then backend else 0
      ensures hasTimeout == old(hasTimeout) - {x} && isInserted == old(isInserted) - {x} &&
              isActive == old(isActive) - {x}
      ensures Left(activeQueues, old(activeQueues), {x}) && eventQueue == Remain(old(eventQueue), {x})
    {
      hide Lists, Sorted, Heaped, Remain, Total, Mapped, Among, Memberships, Weight, InternalOf, Left;
      if x in hasTimeout { RemoveTimeout(x); }
      LeftOne(activeQueues, pri, isActive, x);
      if x in isActive { RemoveActive(x); }
      NotListed(eventQueue, isInserted, x);
      if x in isInserted {
        RemoveInserted(x);
        return backend;
      }
      r := 0;
    }

    method EventActive(x: Id, what: set<What>)
      requires Agrees() && x in kind
      modifies `eventCount, `activeCount, `isActive, `activeQueues, `res
      ensures Agrees() && isActive == old(isActive) + {x}
      ensures x in old(res) && res == old(res)[x := if x in old(isActive) then old(res[x]) + what else what]
      ensures x in old(isActive) ==> activeQueues == old(activeQueues)
      ensures x !in old(isActive) ==>
                x in pri && pri[x] < |old(activeQueues)| &&
                activeQueues == old(activeQueues)[pri[x] := old(activeQueues)[pri[x]] + [x]]
    {
      hide Lists, Sorted, Heaped, Remain, Total, Mapped, Among, Memberships, Weight, InternalOf;
      Has(x);
      if x in isActive {
        res := res[x := res[x] + what];
        assert res.Keys == old(res.Keys);
        return;
      }
      res := res[x := what];
      assert res.Keys == old(res.Keys);
      InsertActive(x);
    }

    /** Before an event gets a new deadline: one that is active because of the old one is no longer so. */
    method Unschedule(x: Id)
      requires Agrees() && x in kind && (x in hasTimeout || n < |p|)
      modifies `eventCount, `activeCount, `hasTimeout, `isActive, `p, `n, `heapIdx, `activeQueues
      ensures Agrees() && hasTimeout == old(hasTimeout) - {x} && n < |p|
      ensures x in res && isActive == if Timeout in res[x] then old(isActive) - {x} else old(isActive)
      ensures if Timeout in res[x] then Left(activeQueues, old(activeQueues), {x})
              else activeQueues == old(activeQueues)
    {
      hide Lists, Sorted, Heaped, Remain, Total, Mapped, Among, Memberships, Weight, InternalOf, Left;
      Has(x);
      if x in hasTimeout { RemoveTimeout(x); }
      LeftOne(activeQueues, pri, isActive, x);
      if x in isActive && Timeout in res[x] { RemoveActive(x); }
    }

    method Schedule(x: Id, deadline: Time)
      requires Agrees() && x in kind && x !in hasTimeout && n < |p|
      modifies `eventCount, `hasTimeout, `p, `n, `heapIdx, `timeout
      ensures Agrees() && hasTimeout == old(hasTimeout) + {x} && timeout == old(timeout)[x := deadline]
    {
      hide Lists, Sorted, Heaped, Remain, Total, Mapped, Among, Memberships, Weight, InternalOf, Left;
      Has(x);
      HeapedOutside(p, p, n, timeout, timeout[x := deadline], heapIdx, hasTimeout);
      timeout := timeout[x := deadline];
      assert timeout.Keys == old(timeout.Keys);
      InsertTimeout(x);
    }

    method Reschedule(x: Id, deadline: Time)
      requires Agrees() && x in kind && (x in hasTimeout || n < |p|)
      modifies `eventCount, `activeCount, `hasTimeout, `isActive, `p, `n, `heapIdx, `activeQueues, `timeout
      ensures Agrees() && hasTimeout == old(hasTimeout) + {x} && timeout == old(timeout)[x := deadline]
      ensures x in res && isActive == if Timeout in res[x] then old(isActive) - {x} else old(isActive)
      ensures if Timeout in res[x] then Left(activeQueues, old(activeQueues), {x})
              else activeQueues == old(activeQueues)
    {
      hide Lists, Sorted, Heaped, Remain, Total, Mapped, Among, Memberships, Weight, InternalOf, Left;
      Unschedule(x);
      Schedule(x, deadline);
    }

    /** Adds an event; `memory` says whether there is any, `backend` is what the backend answers. */
    method EventAdd(x: Id, tv: Option<Time>, now: Time, memory: bool, backend: int) returns (r: int)
      requires Agrees() && x in kind
      modifies `eventCount, `activeCount, `hasTimeout, `isInserted, `isActive, `p, `n, `heapIdx, `eventQueue,
               `activeQueues, `timeout
      ensures Agrees()
      ensures r == -1 <==>
                old((tv.Some? && x !in hasTimeout && n ==
                  |p| && !memory) || (kind[x].io && x !in isInserted + isActive && backend == -1))
      ensures r != -1 ==> r == if kind[x].io && x !in old(isInserted + isActive) then backend else 0
      ensures r == -1 ==>
                unchanged(`eventCount, `activeCount, `hasTimeout, `isInserted, `isActive, `n, `heapIdx, `eventQueue,
                          `activeQueues, `timeout)
      ensures r == -1 ==> old(p) <= p
      ensures r != -1 ==>
                isInserted ==
                if kind[x].io && x !in old(isInserted + isActive) then old(isInserted) + {x} else old(isInserted)
      ensures r != -1 ==>
                eventQueue ==
                if kind[x].io && x !in old(isInserted + isActive) then old(eventQueue) + [x] else old(eventQueue)
      ensures r != -1 && tv.None? ==> unchanged(`hasTimeout, `timeout, `isActive, `activeQueues)
      ensures r != -1 && tv.Some? ==>
                hasTimeout == old(hasTimeout) + {x} && timeout == old(timeout)[x := Plus(now, tv.value)]
      ensures x in res && (r != -1 && tv.Some? ==>
                isActive == (if Timeout in res[x] then old(isActive) - {x} else old(isActive)) &&
                if Timeout in res[x] then Left(activeQueues, old(activeQueues), {x})
                else activeQueues == old(activeQueues))
    {
      hide Lists, Sorted, Heaped, Remain, Total, Mapped, Among, Memberships, Weight, InternalOf, Left;
      Has(x);
      HeapedIndex(p, n, timeout, heapIdx, hasTimeout, x);
      if tv.Some? && x !in hasTimeout {
        var none := Reserve(n + 1, memory);
        HeapedOutside(old(p), p, n, timeout, timeout, heapIdx, hasTimeout);
        if none == -1 { return -1; }
      }
      r := 0;
      if kind[x].io && x !in isInserted && x !in isActive {
        r := backend;
        if r != -1 { InsertInserted(x); }
      }
      if r != -1 && tv.Some? {
        Reschedule(x, Plus(now, tv.value));
      }
    }

    // ----- time -----

    /** The events whose deadline has come. */
    ghost function Due(now: Time): set<Id>
      reads `hasTimeout, `timeout
    {
      set x | x in hasTimeout && x in timeout && !Greater(timeout[x], now)
    }

    /** How long the base may wait: not at all, until the first deadline, or for ever. */
    method TimeoutNext(now: Time) returns (tv: Option<Time>)
      requires Agrees()
      ensures tv.None? <==> hasTimeout == {}
      ensures tv.Some? && Due(now) != {} ==> tv.value == Time(0, 0)
      ensures tv.Some? && Due(now) == {} ==> exists x :: IsFirst(x) && tv.value == Minus(timeout[x], now)
      ensures tv.Some? && Normal(now) && TimesNormal(timeout, eventTv) ==>
                Normal(tv.value) && Micros(tv.value) >= 0 && (Micros(tv.value) == 0 <==> Due(now) != {})
    {
      hide Lists, Sorted, Remain, Total, Mapped, Among, Memberships, Weight, InternalOf, Left, Ordered, Indexed, Stored;
      HeapedTop(p, n, timeout, heapIdx, hasTimeout);
      if n == 0 { return None; }
      var first := p[0];
      HeapedIndex(p, n, timeout, heapIdx, hasTimeout, first);
      assert IsFirst(first);
      if Normal(now) && TimesNormal(timeout, eventTv) { TimesAreNumbers(timeout[first], now); }
      if !Greater(timeout[first], now) {
        assert first in Due(now);
        return Some(Time(0, 0));
      }
      LaterAll(timeout, hasTimeout, first, now);
      tv := Some(Minus(timeout[first], now));
    }

    /** No deadline is before this one. */
    ghost predicate IsFirst(x: Id)
      reads `hasTimeout, `timeout
    {
      x in hasTimeout && x in timeout &&
      forall y :: y in hasTimeout && y in timeout ==> !Greater(timeout[x], timeout[y])
    }

    /** If the clock was set back, every deadline is set back as far. This keeps the heap in order if the deadlines are
        normal; `ShiftReverses` has two that it puts in the wrong order, and by `ShiftIff` only normal ones are safe. */
    method TimeoutCorrect(now: Time)
      requires Agrees()
      modifies `timeout, `eventTv
      ensures timeout.Keys == old(timeout.Keys) && eventTv == if monotonic then old(eventTv) else now
      ensures monotonic || !Greater(old(eventTv), now) ==> timeout == old(timeout)
      ensures !monotonic && Greater(old(eventTv), now) ==>
                forall x :: x in hasTimeout ==>
                  x in timeout && timeout[x] == Minus(old(timeout[x]), Minus(old(eventTv), now))
      ensures forall x :: x in timeout && x !in hasTimeout ==> timeout[x] == old(timeout[x])
      ensures monotonic || !Greater(old(eventTv), now) || (Normal(now) && old(TimesNormal(timeout, eventTv))) ==>
                Agrees()
      ensures Normal(now) && old(TimesNormal(timeout, eventTv)) ==> TimesNormal(timeout, eventTv)
      ensures !monotonic && Greater(old(eventTv), now) && Normal(now) && old(TimesNormal(timeout, eventTv)) ==>
                forall x :: x in hasTimeout ==>
                  Micros(timeout[x]) - Micros(eventTv) == old(Micros(timeout[x])) - old(Micros(eventTv))
    {
      hide Agrees;
      if monotonic { return; }
      if !Greater(eventTv, now) {
        eventTv := now;
        return;
      }
      ghost var was, before := timeout, eventTv;
      var off := Minus(eventTv, now);
      if Normal(now) && TimesNormal(timeout, eventTv) { TimesAreNumbers(eventTv, now); }
      ShiftDeadlines(off);
      eventTv := now;
      if Normal(now) && TimesNormal(was, before) { ShiftedTimes(was, timeout, hasTimeout, before, now); }
    }

    method ShiftDeadlines(off: Time)
      requires Agrees()
      modifies `timeout
      ensures timeout.Keys == old(timeout.Keys)
      ensures forall x :: x in hasTimeout ==> x in timeout && timeout[x] == Minus(old(timeout[x]), off)
      ensures forall x :: x in timeout && x !in hasTimeout ==> timeout[x] == old(timeout[x])
      ensures Normal(off) && (forall x :: x in old(timeout) ==> Normal(old(timeout)[x])) ==> Agrees()
    {
      hide Lists, Sorted, Remain, Total, Mapped, Among, Memberships, Weight, InternalOf, Left, Ordered, Greater, Minus;
      ghost var was := timeout;
      HeapedEach(p, n, timeout, heapIdx, hasTimeout);
      var i := 0;
      while i < n
        invariant 0 <= i <= n <= |p| && timeout.Keys == was.Keys
        invariant forall j :: 0 <= j < i ==> timeout[p[j]] == Minus(was[p[j]], off)
        invariant forall j :: i <= j < n ==> timeout[p[j]] == was[p[j]]
        invariant forall x :: x in timeout && x !in hasTimeout ==> timeout[x] == was[x]
      {
        timeout := timeout[p[i] := Minus(timeout[p[i]], off)];
        i := i + 1;
      }
      HeapedShift(p, n, was, timeout, heapIdx, hasTimeout, off);
    }

    /** The first event of the heap leaves all its places and becomes active because of its deadline. */
    method FireFirst(backend: int) returns (x: Id, ghost without: seq<seq<Id>>)
      requires Agrees() && 0 < n <= |p|
      modifies `eventCount, `activeCount, `hasTimeout, `isInserted, `isActive, `p, `n, `heapIdx, `eventQueue,
               `activeQueues, `res
      ensures Agrees() && x == old(p[0]) && x in old(hasTimeout) && x in old(res)
      ensures hasTimeout == old(hasTimeout) - {x} && isInserted == old(isInserted) - {x} &&
              isActive == old(isActive) + {x}
      ensures res == old(res)[x := {Timeout}] && eventQueue == Remain(old(eventQueue), {x})
      ensures x in pri && pri[x] < |old(activeQueues)| && Left(without, old(activeQueues), {x})
      ensures pri[x] < |without| && activeQueues == without[pri[x] := without[pri[x]] + [x]]
    {
      hide Lists, Sorted, Heaped, Remain, Total, Mapped, Among, Memberships, Weight, InternalOf;
      HeapedTop(p, n, timeout, heapIdx, hasTimeout);
      x := p[0];
      Has(x);
      var _ := EventDel(x, backend);
      without := activeQueues;
      EventActive(x, {Timeout});
    }

    /**
     * Activates the events whose deadline has come, and no others: each leaves its places and goes to the end of the
     * queue of its priority, earlier deadlines first.
     */
    method TimeoutProcess(now: Time, backend: int) returns (ghost order: seq<Id>)
      requires Agrees()
      modifies `eventCount, `activeCount, `hasTimeout, `isInserted, `isActive, `p, `n, `heapIdx, `eventQueue,
               `activeQueues, `res
      ensures Agrees() && Elems(order) == old(Due(now)) && Distinct(order) && Ascending(order, timeout) &&
              hasTimeout == old(hasTimeout) - Elems(order)
      ensures Moved(order, isInserted, old(isInserted), isActive, old(isActive), eventQueue, old(eventQueue), res,
                    old(res))
      ensures Requeued(activeQueues, old(activeQueues), pri, order)
    {
      hide Lists, Sorted, Heaped, Remain, Total, Mapped, Among, Memberships, Weight, InternalOf, Left, Requeued, Fired,
           Ascending, Distinct, Moved, Elems;
      order := [];
      FiredNone(timeout, now, hasTimeout);
      RequeuedNone(activeQueues, pri);
      MovedNone(isInserted, isActive, eventQueue, res);
      HeapedTop(p, n, timeout, heapIdx, hasTimeout);
      while n > 0 && !Greater(timeout[p[0]], now)
        invariant Agrees() && n <= |p| && (n > 0 ==> p[0] in timeout)
        invariant Fired(order, timeout, now, hasTimeout, old(hasTimeout))
        invariant Moved(order, isInserted, old(isInserted), isActive, old(isActive), eventQueue, old(eventQueue), res,
                        old(res))
        invariant Requeued(activeQueues, old(activeQueues), pri, order)
        decreases |hasTimeout|
      {
        ghost var first, waiting, before := p[0], hasTimeout, activeQueues;
        HeapedTop(p, n, timeout, heapIdx, hasTimeout);
        HeapedIndex(p, n, timeout, heapIdx, hasTimeout, first);
        FiredOne(order, timeout, now, hasTimeout, old(hasTimeout), first);
        Has(first);
        MovedOne(order, isInserted, old(isInserted), isActive, old(isActive), eventQueue, old(eventQueue), res,
                 old(res), first);
        ghost var x, without;
        x, without := FireFirst(backend);
        RequeuedOne(before, old(activeQueues), pri, order, first, without);
        order := order + [first];
        HeapedTop(p, n, timeout, heapIdx, hasTimeout);
      }
      NoneDue(p, n, timeout, heapIdx, hasTimeout, now);
      FiredAll(order, timeout, now, hasTimeout, old(hasTimeout));
      FiredFacts(order, timeout, now, hasTimeout, old(hasTimeout));
    }

    // ----- every run -----

    lemma NewAgrees(x: Id, k: Kind, q: nat)
      requires Agrees() && x !in kind && q < |activeQueues|
      ensures Mapped(kind[x := k].Keys, pri[x := q], timeout[x := Time(0, 0)].Keys, heapIdx[x := -1].Keys,
                     res[x := {}].Keys, |activeQueues|)
      ensures Among(kind[x := k].Keys, hasTimeout, isInserted, isActive)
      ensures Memberships(isInserted, isActive, hasTimeout, InternalOf(kind[x := k])) == eventCount
      ensures Heaped(p, n, timeout[x := Time(0, 0)], heapIdx[x := -1], hasTimeout) &&
              Sorted(activeQueues, pri[x := q], isActive)
    {
      hide Lists, Sorted, Heaped, Total, Among, Memberships, Weight, InternalOf, Mapped;
      AmongNew(kind, hasTimeout, isInserted, isActive, x, k);
      HeapedNew(p, n, timeout, heapIdx, hasTimeout, x, Time(0, 0));
      SortedPriority(activeQueues, pri, isActive, x, q);
      MappedNew(kind, pri, timeout, heapIdx, res, |activeQueues|, x, k, q);
    }

    /** A new event: in no place, in the middle of the priorities. */
    method EventSet(x: Id, k: Kind)
      requires Agrees() && x !in kind && |activeQueues| > 0
      modifies `kind, `pri, `timeout, `heapIdx, `res
      ensures Agrees() && kind == old(kind)[x := k] && pri == old(pri)[x := |activeQueues| / 2]
      ensures timeout == old(timeout)[x := Time(0, 0)] && res == old(res)[x := {}]
    {
      hide Lists, Sorted, Heaped, Total, Among, Memberships, Weight, InternalOf, Mapped;
      NewAgrees(x, k, |activeQueues| / 2);
      kind, pri, timeout := kind[x := k], pri[x := |activeQueues| / 2], timeout[x := Time(0, 0)];
      heapIdx, res := heapIdx[x := -1], res[x := {}];
    }

    method PrioritySet(x: Id, to: int) returns (r: int)
      requires Agrees() && x in kind
      modifies `pri
      ensures Agrees() && (r == -1 <==> x in isActive || to < 0 || to >= |activeQueues|)
      ensures r == 0 || r == -1
      ensures pri == if r == -1 then old(pri) else old(pri)[x := to]
    {
      hide Lists, Sorted, Heaped, Total, Among, Memberships, Weight, InternalOf;
      if x in isActive { return -1; }
      if to < 0 || to >= |activeQueues| { return -1; }
      SortedPriority(activeQueues, pri, isActive, x, to);
      pri := pri[x := to];
      r := 0;
    }

    /** The clock never goes back, or all times are normal. */
    ghost predicate InTime()
      reads `timeout, `eventTv
    {
      monotonic || TimesNormal(timeout, eventTv)
    }

    lemma Knowing(x: Id)
      requires Agrees() && x in kind
      ensures Knows(Snap(), x)
    {
      Has(x);
    }

    /** One call; a call that names an event that was never set, or sets one again, is not made. */
    method Do(c: Call)
      requires Agrees() && InTime() && |activeQueues| > 0 && (monotonic || Timed(c))
      modifies this
      ensures Agrees() && InTime() && |activeQueues| == |old(activeQueues)|
      ensures Effect(monotonic, c, old(Snap()), Snap())
    {
      hide Known, FlagsKnown, HeapAgrees, InsertedAgrees, ActiveAgrees, CountsAgree, Effect;
      match c
      case Set(x, k) => DoSet(x, k);
      case SetPriority(x, to) => DoPriority(x, to);
      case Add(x, tv, now, memory, backend) => DoAdd(x, tv, now, memory, backend);
      case Del(x, backend) => DoDel(x, backend);
      case Activate(x, what) => DoActivate(x, what);
      case Process(now, backend) => DoProcess(now, backend);
      case Correct(now) => DoCorrect(now);
    }

    method DoSet(x: Id, k: Kind)
      requires Agrees() && InTime() && |activeQueues| > 0
      modifies this
      ensures Agrees() && InTime() && |activeQueues| == |old(activeQueues)|
      ensures Effect(monotonic, Set(x, k), old(Snap()), Snap())
    {
      hide Known, FlagsKnown, HeapAgrees, InsertedAgrees, ActiveAgrees, CountsAgree;
      if x !in kind { EventSet(x, k); }
    }

    method DoPriority(x: Id, to: int)
      requires Agrees() && InTime() && |activeQueues| > 0
      modifies this
      ensures Agrees() && InTime() && |activeQueues| == |old(activeQueues)|
      ensures Effect(monotonic, SetPriority(x, to), old(Snap()), Snap())
    {
      hide Known, FlagsKnown, HeapAgrees, InsertedAgrees, ActiveAgrees, CountsAgree;
      if x in kind { var _ := PrioritySet(x, to); }
    }

    method DoAdd(x: Id, tv: Option<Time>, now: Time, memory: bool, backend: int)
      requires Agrees() && InTime() && |activeQueues| > 0 && (monotonic || Timed(Add(x, tv, now, memory, backend)))
      modifies this
      ensures Agrees() && InTime() && |activeQueues| == |old(activeQueues)|
      ensures Effect(monotonic, Add(x, tv, now, memory, backend), old(Snap()), Snap())
    {
      hide Known, FlagsKnown, HeapAgrees, InsertedAgrees, ActiveAgrees, CountsAgree, Left, Without, Plus;
      if x in kind {
        Knowing(x);
        if !monotonic && tv.Some? { TimesAreNumbers(now, tv.value); }
        ghost var was := activeQueues;
        var r := EventAdd(x, tv, now, memory, backend);
        if r != -1 && tv.Some? && Timeout in res[x] { LeftIsWithout(activeQueues, was, x); }
        LeftLength(activeQueues, was, x);
      }
    }

    method DoDel(x: Id, backend: int)
      requires Agrees() && InTime() && |activeQueues| > 0
      modifies this
      ensures Agrees() && InTime() && |activeQueues| == |old(activeQueues)|
      ensures Effect(monotonic, Del(x, backend), old(Snap()), Snap())
    {
      hide Known, FlagsKnown, HeapAgrees, InsertedAgrees, ActiveAgrees, CountsAgree, Left, Without, Remain;
      if x in kind {
        ghost var was := activeQueues;
        var _ := EventDel(x, backend);
        LeftIsWithout(activeQueues, was, x);
        LeftLength(activeQueues, was, x);
      }
    }

    method DoActivate(x: Id, what: set<What>)
      requires Agrees() && InTime() && |activeQueues| > 0
      modifies this
      ensures Agrees() && InTime() && |activeQueues| == |old(activeQueues)|
      ensures Effect(monotonic, Activate(x, what), old(Snap()), Snap())
    {
      hide Known, FlagsKnown, HeapAgrees, InsertedAgrees, ActiveAgrees, CountsAgree;
      if x in kind {
        Knowing(x);
        EventActive(x, what);
      }
    }

    method DoProcess(now: Time, backend: int)
      requires Agrees() && InTime() && |activeQueues| > 0
      modifies this
      ensures Agrees() && InTime() && |activeQueues| == |old(activeQueues)|
      ensures Effect(monotonic, Process(now, backend), old(Snap()), Snap())
    {
      hide Known, FlagsKnown, HeapAgrees, InsertedAgrees, ActiveAgrees, CountsAgree, Moved, Elems, Distinct, Ascending;
      ghost var was := Snap();
      ghost var order := TimeoutProcess(now, backend);
      assert Processed(was, now, order, Snap());
    }

    method DoCorrect(now: Time)
      requires Agrees() && InTime() && |activeQueues| > 0 && (monotonic || Normal(now))
      modifies this
      ensures Agrees() && InTime() && |activeQueues| == |old(activeQueues)|
      ensures Effect(monotonic, Correct(now), old(Snap()), Snap())
    {
      hide Known, FlagsKnown, HeapAgrees, InsertedAgrees, ActiveAgrees, CountsAgree;
      TimeoutCorrect(now);
    }

    /** Calls one after another; `states` are the states before, between and after them. */
    method DoAll(calls: seq<Call>) returns (ghost states: seq<State>)
      requires Agrees() && InTime() && |activeQueues| > 0 && (monotonic || AllTimed(calls))
      modifies this
      ensures Agrees() && InTime() && |activeQueues| == |old(activeQueues)|
      ensures Steps(monotonic, calls, states) && states[0] == old(Snap()) && states[|calls|] == Snap()
    {
      hide Agrees, InTime, Effect;
      states := [Snap()];
      for i := 0 to |calls|
        invariant Agrees() && InTime() && |activeQueues| == |old(activeQueues)|
        invariant |states| == i + 1 && states[0] == old(Snap()) && states[i] == Snap()
        invariant forall k :: 0 <= k < i ==> Effect(monotonic, calls[k], states[k], states[k + 1])
      {
        Do(calls[i]);
        states := states + [Snap()];
      }
    }

    // ----- the active events -----

    /** The first queue that is not empty: the highest priority with active events. */
    method FirstQueue() returns (q: nat)
      requires Agrees() && activeCount > 0
      ensures q < |activeQueues| && activeQueues[q] != [] && forall i :: 0 <= i < q ==> activeQueues[i] == []
    {
      SomeQueue(activeQueues);
      hide Agrees;
      q := 0;
      while activeQueues[q] == []
        invariant q < |activeQueues| && forall i :: 0 <= i < q ==> activeQueues[i] == []
        invariant exists k :: q <= k < |activeQueues| && activeQueues[k] != []
        decreases |activeQueues| - q
      {
        q := q + 1;
      }
    }

    /** Takes the first event of a queue. A persistent event keeps its place in the inserted list and its deadline; any
        other loses both. */
    method TakeFirst(q: nat, backend: int) returns (x: Id)
      requires Agrees() && q < |activeQueues| && activeQueues[q] != []
      modifies `eventCount, `activeCount, `hasTimeout, `isInserted, `isActive, `p, `n, `heapIdx, `eventQueue,
               `activeQueues
      ensures Agrees() && x == old(activeQueues[q][0]) && x in kind && isActive == old(isActive) - {x}
      ensures activeQueues == old(activeQueues)[q := old(activeQueues[q])[1..]]
      ensures kind[x].persist ==> unchanged(`hasTimeout, `isInserted, `p, `n, `heapIdx, `eventQueue)
      ensures !kind[x].persist ==> hasTimeout == old(hasTimeout) - {x} && isInserted == old(isInserted) - {x}
      ensures !kind[x].persist ==> eventQueue == Remain(old(eventQueue), {x})
      ensures CanTake(old(Snap()), q) && Snap() == Taken(old(Snap()), q)
    {
      hide Lists, Sorted, Heaped, Remain, Total, Mapped, Among, Memberships, Weight, InternalOf, Left;
      x := activeQueues[q][0];
      ghost var was := activeQueues;
      FirstActive(activeQueues, pri, isActive, q);
      Has(x);
      LeftOne(was, pri, isActive, x);
      FirstGone(was, pri, isActive, q);
      if kind[x].persist {
        RemoveActive(x);
      } else {
        var _ := EventDel(x, backend);
      }
    }

    /** `event_process_active`: the events of the highest priority that has any, first come first served, each out of
        its queue before its callbacks do anything at all. Runs until that queue is empty or it is told to stop.
        `before` are the states before each event, and at the end. */
    method ProcessActive(scripts: seq<Script>) returns (q: nat, ran: seq<Id>, ghost before: seq<State>)
      requires Agrees() && InTime() && activeCount > 0 && (monotonic || ScriptsTimed(scripts))
      modifies this
      ensures Agrees() && InTime() && |activeQueues| == |old(activeQueues)|
      ensures Passes(monotonic, scripts, q, ran, before) && before[0] == old(Snap()) && before[|ran|] == Snap()
      ensures Quiet(scripts, |old(activeQueues)[q]|) ==>
                ran == old(activeQueues)[q] && activeQueues == old(activeQueues)[q := []]
    {
      hide Agrees, InTime, Taken, CanTake, Steps;
      q := FirstQueue();
      ran, before := [], [Snap()];
      var stop := false;
      while activeQueues[q] != [] && !stop && |ran| < |scripts|
        invariant Agrees() && InTime() && |activeQueues| == |old(activeQueues)| && |ran| <= |scripts|
        invariant |before| == |ran| + 1 && before[0] == old(Snap()) && before[|ran|] == Snap()
        invariant forall k :: 0 <= k < |ran| ==>
                    RunsOne(monotonic, before[k], q, ran[k], scripts[k].calls, before[k + 1])
        invariant forall k :: 0 <= k < |ran| - 1 ==> !scripts[k].stop
        invariant if ran == [] then !stop else stop == scripts[|ran| - 1].stop
        decreases |scripts| - |ran|
      {
        var script := scripts[|ran|];
        ghost var s0 := Snap();
        var x := TakeFirst(q, 0);
        ghost var states := DoAll(script.calls);
        assert Leads(monotonic, Taken(s0, q), script.calls, Snap());
        ran, before := ran + [x], before + [Snap()];
        stop := script.stop;
      }
      assert Passes(monotonic, scripts, q, ran, before);
      if Quiet(scripts, |old(activeQueues)[q]|) { QuietPass(monotonic, scripts, q, ran, before); }
    }

    /** Every run, with whatever the callbacks do, keeps flags, lists, queues, heap, back-indices and counters in
        agreement: with any times at all if the clock never goes back, and else with normal times.  `states` are the
        states before, between and after the turns. */
    method Run(turns: seq<Turn>) returns (ghost states: seq<State>)
      requires Agrees() && InTime() && |activeQueues| > 0
      requires monotonic || forall i :: 0 <= i < |turns| ==> TurnTimed(turns[i])
      modifies this
      ensures Agrees() && IsHistory(monotonic, turns, states) && states[0] == old(Snap()) && states[|turns|] == Snap()
    {
      hide Agrees, InTime, TurnEffect;
      states := [Snap()];
      for i := 0 to |turns|
        invariant Agrees() && InTime() && |activeQueues| > 0
        invariant |states| == i + 1 && states[0] == old(Snap()) && states[i] == Snap()
        invariant forall k :: 0 <= k < i ==> TurnEffect(monotonic, turns[k], states[k], states[k + 1])
      {
        TakeTurn(turns[i]);
        states := states + [Snap()];
      }
    }

    method TakeTurn(turn: Turn)
      requires Agrees() && InTime() && |activeQueues| > 0 && (monotonic || TurnTimed(turn))
      modifies this
      ensures Agrees() && InTime() && |activeQueues| > 0 && TurnEffect(monotonic, turn, old(Snap()), Snap())
    {
      hide Agrees, InTime, Effect, Passes;
      match turn
      case Request(c) => Do(c);
      case Pass(scripts) =>
        CountTells();
        if activeCount > 0 {
          ghost var s0 := Snap();
          var q, ran, before := ProcessActive(scripts);
          PassesSome(monotonic, scripts, q, ran, before);
          assert PassEffect(monotonic, scripts, s0, Snap());
        }
    }

    /** The counter of active events tells whether all queues are empty. */
    lemma CountTells()
      requires Agrees()
      ensures activeCount <= 0 ==> forall i :: 0 <= i < |activeQueues| ==> activeQueues[i] == []
    {
      if activeCount <= 0 { NoneActive(activeQueues); }
    }
  }

  lemma LaterAll(timeout: map<Id, Time>, waiting: set<Id>, first: Id, now: Time)
    requires first in waiting && first in timeout && Greater(timeout[first], now)
    requires forall x :: x in waiting && x in timeout ==> !Greater(timeout[first], timeout[x])
    ensures forall x :: x in waiting && x in timeout ==> Greater(timeout[x], now)
  {
  }

  /** Normal deadlines that are set back stay normal, and every remaining time is what it was. */
  lemma ShiftedTimes(was: map<Id, Time>, timeout: map<Id, Time>, waiting: set<Id>, before: Time, now: Time)
    requires TimesNormal(was, before) && Normal(now) && timeout.Keys == was.Keys
    requires forall x :: x in waiting ==> x in timeout && timeout[x] == Minus(was[x], Minus(before, now))
    requires forall x :: x in timeout && x !in waiting ==> timeout[x] == was[x]
    ensures TimesNormal(timeout, now)
    ensures forall x :: x in waiting ==> Micros(timeout[x]) - Micros(now) == Micros(was[x]) - Micros(before)
  {
    var off := Minus(before, now);
    TimesAreNumbers(before, now);
    forall x | x in timeout
      ensures Normal(timeout[x])
      ensures x in waiting ==> Micros(timeout[x]) - Micros(now) == Micros(was[x]) - Micros(before)
    {
      TimesAreNumbers(was[x], off);
    }
  }

  lemma LeftLength(queues: seq<seq<Id>>, was: seq<seq<Id>>, x: Id)
    requires queues == was || Left(queues, was, {x})
    ensures |queues| == |was|
  {
  }

  lemma PassesSome(steady: bool, scripts: seq<Script>, q: nat, ran: seq<Id>, before: seq<State>)
    requires Passes(steady, scripts, q, ran, before)
    ensures exists i :: 0 <= i < |before[0].activeQueues| && before[0].activeQueues[i] != []
  {
  }
}
