/** The fields every event has, and the flags that say where it is. */
module EvFlags {
  import opened Seqs
  import opened EvTime
  import opened EvQueues

  /** What an event reports. */
  datatype What = Timeout | Read | Write | Signal

  /** What an event waits for, and whether it stays after it fired. */
  datatype Kind = Kind(io: bool, persist: bool, internal: bool)

  /** Every event has all its fields, and a priority there is a queue for. */
  ghost predicate Mapped(kind: set<Id>, pri: map<Id, nat>, timeout: set<Id>, heapIdx: set<Id>, res: set<Id>,
                         queues: nat)
  {
    pri.Keys == kind && timeout == kind && heapIdx == kind && res == kind && forall x :: x in pri ==> pri[x] < queues
  }

  lemma MappedHas(kind: set<Id>, pri: map<Id, nat>, timeout: set<Id>, heapIdx: set<Id>, res: set<Id>, queues: nat,
                  x: Id)
    requires Mapped(kind, pri, timeout, heapIdx, res, queues) && x in kind
    ensures x in pri && x in timeout && x in heapIdx && x in res && pri[x] < queues
  {
  }

  ghost predicate Among(keys: set<Id>, a: set<Id>, b: set<Id>, c: set<Id>)
  {
    a <= keys && b <= keys && c <= keys
  }

  lemma AmongHas(keys: set<Id>, a: set<Id>, b: set<Id>, c: set<Id>, x: Id)
    requires Among(keys, a, b, c) && x in a + b + c
    ensures x in keys
  {
  }

  /** Flags may be cleared, and set on a known event. */
  lemma AmongChange(keys: set<Id>, a: set<Id>, b: set<Id>, c: set<Id>, a': set<Id>, b': set<Id>, c': set<Id>, x: Id)
    requires Among(keys, a, b, c) && x in keys && a' <= a + {x} && b' <= b + {x} && c' <= c + {x}
    ensures Among(keys, a', b', c')
  {
  }

  ghost function InternalOf(kind: map<Id, Kind>): set<Id>
  {
    set x | x in kind && kind[x].internal
  }

  lemma WeightOf(kind: map<Id, Kind>, x: Id)
    requires x in kind
    ensures Weight(x, InternalOf(kind)) == if kind[x].internal then 0 else 1
  {
  }

  /** The events of `order` have left the inserted list and become active because of their deadlines. */
  ghost predicate Moved(order: seq<Id>, inserted: set<Id>, inserted0: set<Id>, active: set<Id>, active0: set<Id>,
                        list: seq<Id>, list0: seq<Id>,
                        res: map<Id, set<What>>, res0: map<Id, set<What>>)
  {
    inserted == inserted0 - Elems(order) && active == active0 + Elems(order) && list == Remain(list0, Elems(order)) &&
    res.Keys == res0.Keys && forall x :: x in res ==> res[x] == if x in order then {Timeout} else res0[x]
  }

  lemma MovedNone(inserted: set<Id>, active: set<Id>, list: seq<Id>, res: map<Id, set<What>>)
    ensures Moved([], inserted, inserted, active, active, list, list, res, res)
  {
    RemainAll(list, Elems([]));
  }

  lemma MovedOne(order: seq<Id>, inserted: set<Id>, inserted0: set<Id>, active: set<Id>, active0: set<Id>,
                 list: seq<Id>, list0: seq<Id>,
                 res: map<Id, set<What>>, res0: map<Id, set<What>>, x: Id)
    requires Moved(order, inserted, inserted0, active, active0, list, list0, res, res0) && x in res
    ensures Moved(order + [x], inserted - {x}, inserted0, active + {x}, active0, Remain(list, {x}), list0,
                  res[x := {Timeout}], res0)
  {
    assert Elems(order + [x]) == Elems(order) + {x};
    RemainTwice(list0, Elems(order), {x});
  }

  lemma AmongNew(kind: map<Id, Kind>, a: set<Id>, b: set<Id>, c: set<Id>, x: Id, k: Kind)
    requires Among(kind.Keys, a, b, c) && x !in kind
    ensures x !in a && x !in b && x !in c && Among(kind[x := k].Keys, a, b, c)
    ensures Memberships(b, c, a, InternalOf(kind[x := k])) == Memberships(b, c, a, InternalOf(kind))
  {
    var before, after := InternalOf(kind), InternalOf(kind[x := k]);
    assert forall y :: y in kind ==> (y in before <==> y in after);
    assert a - after == a - before && b - after == b - before && c - after == c - before;
  }

  lemma MappedNew(kind: map<Id, Kind>, pri: map<Id, nat>, timeout: map<Id, Time>, heapIdx: map<Id, int>, res: map<Id,
                  set<What>>,
                  queues: nat, x: Id, k: Kind, q: nat)
    requires Mapped(kind.Keys, pri, timeout.Keys, heapIdx.Keys, res.Keys, queues) && q < queues
    ensures Mapped(kind[x := k].Keys, pri[x := q], timeout[x := Time(0, 0)].Keys, heapIdx[x := -1].Keys,
                   res[x := {}].Keys, queues)
  {
    KeysNew(kind, x, k);
    KeysNew(timeout, x, Time(0, 0));
    KeysNew(heapIdx, x, -1);
    KeysNew(res, x, {});
  }

  lemma KeysNew<V>(m: map<Id, V>, x: Id, v: V)
    ensures m[x := v].Keys == m.Keys + {x}
  {
  }
}
