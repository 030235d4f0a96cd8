/** Queues of events: the inserted list, and a queue of active events for each priority. */
module EvQueues {
  import opened Seqs

  type Id = nat

  /** How many events are in all the queues together. */
  ghost function Total(queues: seq<seq<Id>>): nat
  {
    if queues == [] then 0 else |queues[0]| + Total(queues[1..])
  }

  lemma {:induction false} TotalChange(queues: seq<seq<Id>>, q: nat, s: seq<Id>)
    requires q < |queues|
    ensures Total(queues[q := s]) == Total(queues) - |queues[q]| + |s|
  {
    if q == 0 {
      assert queues[q := s][1..] == queues[1..];
    } else {
      assert queues[q := s][1..] == queues[1..][q - 1 := s];
      TotalChange(queues[1..], q - 1, s);
    }
  }

  /** The events of a sequence that have priority `q`. */
  ghost function OfPriority(s: seq<Id>, pri: map<Id, nat>, q: nat): seq<Id>
  {
    if s == [] then []
    else
      var rest := OfPriority(s[..|s| - 1], pri, q);
      var x := s[|s| - 1];
      if x in pri && pri[x] == q then rest + [x] else rest
  }

  lemma {:induction false} OfPriorityIn(s: seq<Id>, pri: map<Id, nat>, q: nat, x: Id)
    ensures x in OfPriority(s, pri, q) <==> x in s && x in pri && pri[x] == q
  {
    if s != [] {
      OfPriorityIn(s[..|s| - 1], pri, q, x);
      assert s == s[..|s| - 1] + [s[|s| - 1]];
    }
  }

  /** Counting the events of a set that are not exempt. */
  lemma CountAdd(s: set<Id>, exempt: set<Id>, x: Id)
    requires x !in s
    ensures |(s + {x}) - exempt| == |s - exempt| + if x in exempt then 0 else 1
  {
    if x in exempt {
      assert (s + {x}) - exempt == s - exempt;
    } else {
      assert (s + {x}) - exempt == (s - exempt) + {x};
    }
  }

  lemma CountRemove(s: set<Id>, exempt: set<Id>, x: Id)
    requires x in s
    ensures |(s - {x}) - exempt| == |s - exempt| - if x in exempt then 0 else 1
  {
    CountAdd(s - {x}, exempt, x);
    assert s - {x} + {x} == s;
  }

  /** How many times events are in one of the three places, those exempt not counted. */
  ghost function Memberships(inserted: set<Id>, active: set<Id>, timeouts: set<Id>, exempt: set<Id>): nat
  {
    |inserted - exempt| + |active - exempt| + |timeouts - exempt|
  }

  /** One more or one less membership. */
  lemma InsertedChange(inserted: set<Id>, active: set<Id>, timeouts: set<Id>, exempt: set<Id>, x: Id)
    ensures x !in inserted ==>
              Memberships(inserted + {x}, active, timeouts, exempt) ==
                Memberships(inserted, active, timeouts, exempt) + Weight(x, exempt)
    ensures x in inserted ==>
              Memberships(inserted - {x}, active, timeouts, exempt) ==
                Memberships(inserted, active, timeouts, exempt) - Weight(x, exempt)
  {
    if x in inserted { CountRemove(inserted, exempt, x); } else { CountAdd(inserted, exempt, x); }
  }

  lemma ActiveChange(inserted: set<Id>, active: set<Id>, timeouts: set<Id>, exempt: set<Id>, x: Id)
    ensures x !in active ==>
              Memberships(inserted, active + {x}, timeouts, exempt) ==
                Memberships(inserted, active, timeouts, exempt) + Weight(x, exempt)
    ensures x in active ==>
              Memberships(inserted, active - {x}, timeouts, exempt) ==
                Memberships(inserted, active, timeouts, exempt) - Weight(x, exempt)
  {
    if x in active { CountRemove(active, exempt, x); } else { CountAdd(active, exempt, x); }
  }

  lemma TimeoutChange(inserted: set<Id>, active: set<Id>, timeouts: set<Id>, exempt: set<Id>, x: Id)
    ensures x !in timeouts ==>
              Memberships(inserted, active, timeouts + {x}, exempt) ==
                Memberships(inserted, active, timeouts, exempt) + Weight(x, exempt)
    ensures x in timeouts ==>
              Memberships(inserted, active, timeouts - {x}, exempt) ==
                Memberships(inserted, active, timeouts, exempt) - Weight(x, exempt)
  {
    if x in timeouts { CountRemove(timeouts, exempt, x); } else { CountAdd(timeouts, exempt, x); }
  }

  ghost function Weight(x: Id, exempt: set<Id>): nat
  {
    if x in exempt then 0 else 1
  }

  /** The active queues: each event is once in the queue of its priority. */
  ghost predicate Sorted(queues: seq<seq<Id>>, pri: map<Id, nat>, all: set<Id>)
  {
    (forall q :: 0 <= q < |queues| ==> Distinct(queues[q])) &&
    (forall q, x :: 0 <= q < |queues| && x in queues[q] ==> x in all && x in pri && pri[x] == q) &&
    forall x :: x in all ==> x in pri && pri[x] < |queues| && x in queues[pri[x]]
  }

  lemma SortedRemove(queues: seq<seq<Id>>, pri: map<Id, nat>, all: set<Id>, x: Id)
    requires Sorted(queues, pri, all) && x in all
    ensures x in pri && pri[x] < |queues|
    ensures var queues' := queues[pri[x] := Remain(queues[pri[x]], {x})];
            Sorted(queues', pri, all - {x}) && Total(queues') == Total(queues) - 1
  {
    var q := pri[x];
    var left := Remain(queues[q], {x});
    RemainDistinct(queues[q], {x});
    RemainOne(queues[q], x);
    TotalChange(queues, q, left);
    forall y ensures y in left <==> y in queues[q] && y != x { RemainHas(queues[q], {x}, y); }
  }

  lemma SortedAdd(queues: seq<seq<Id>>, pri: map<Id, nat>, all: set<Id>, x: Id)
    requires Sorted(queues, pri, all) && x !in all && x in pri && pri[x] < |queues|
    ensures var queues' := queues[pri[x] := queues[pri[x]] + [x]];
            Sorted(queues', pri, all + {x}) && Total(queues') == Total(queues) + 1
  {
    var q := pri[x];
    TotalChange(queues, q, queues[q] + [x]);
  }

  /** The list holds each event of the set once. */
  ghost predicate Lists(s: seq<Id>, all: set<Id>)
  {
    Distinct(s) && forall x :: x in s <==> x in all
  }

  lemma ListAdd(s: seq<Id>, all: set<Id>, x: Id)
    requires Lists(s, all) && x !in all
    ensures Lists(s + [x], all + {x})
  {
    assert x !in s;
  }

  lemma ListRemove(s: seq<Id>, all: set<Id>, x: Id)
    requires Lists(s, all) && x in all
    ensures Lists(Remain(s, {x}), all - {x})
  {
    RemainDistinct(s, {x});
    forall y ensures y in Remain(s, {x}) <==> y in s && y != x { RemainHas(s, {x}, y); }
  }

  lemma NotListed(s: seq<Id>, all: set<Id>, x: Id)
    requires Lists(s, all)
    ensures x !in all ==> Remain(s, {x}) == s
  {
    if x !in all { RemainAll(s, {x}); }
  }

  lemma SortedPriority(queues: seq<seq<Id>>, pri: map<Id, nat>, all: set<Id>, x: Id, q: nat)
    requires Sorted(queues, pri, all) && x !in all
    ensures Sorted(queues, pri[x := q], all)
  {
  }

  lemma SortedNone(queues: seq<seq<Id>>)
    requires forall q :: 0 <= q < |queues| ==> queues[q] == []
    ensures Sorted(queues, map[], {}) && Total(queues) == 0
    decreases |queues|
  {
    if queues != [] { SortedNone(queues[1..]); }
  }

  /** Every queue has lost these events, and nothing else. */
  ghost predicate Left(queues: seq<seq<Id>>, was: seq<seq<Id>>, gone: set<Id>)
  {
    |queues| == |was| && forall q :: 0 <= q < |was| ==> queues[q] == Remain(was[q], gone)
  }

  lemma LeftOne(queues: seq<seq<Id>>, pri: map<Id, nat>, all: set<Id>, x: Id)
    requires Sorted(queues, pri, all)
    ensures x !in all ==> Left(queues, queues, {x})
    ensures x in all ==>
              x in pri && pri[x] < |queues| && Left(queues[pri[x] := Remain(queues[pri[x]], {x})], queues, {x})
  {
    forall q | 0 <= q < |queues| && (x in all ==> q != pri[x]) ensures Remain(queues[q], {x}) == queues[q] {
      RemainAll(queues[q], {x});
    }
  }

  /** If there are events in the queues, there is a first queue that is not empty. */
  lemma {:induction false} SomeQueue(queues: seq<seq<Id>>)
    requires Total(queues) > 0
    ensures exists q :: 0 <= q < |queues| && queues[q] != []
    decreases |queues|
  {
    if queues[0] == [] {
      SomeQueue(queues[1..]);
      var q :| 0 <= q < |queues[1..]| && queues[1..][q] != [];
      assert queues[q + 1] != [];
    }
  }

  lemma FirstActive(queues: seq<seq<Id>>, pri: map<Id, nat>, all: set<Id>, q: nat)
    requires Sorted(queues, pri, all) && q < |queues| && queues[q] != []
    ensures queues[q][0] in all && queues[q][0] in pri && pri[queues[q][0]] == q
  {
    assert queues[q][0] in queues[q];
  }

  /** When the first event of a queue leaves, the queue has lost its first place, and no other queue has changed. */
  lemma FirstGone(queues: seq<seq<Id>>, pri: map<Id, nat>, all: set<Id>, q: nat)
    requires Sorted(queues, pri, all) && q < |queues| && queues[q] != []
    ensures Remain(queues[q], {queues[q][0]}) == queues[q][1..]
    ensures forall after :: Left(after, queues, {queues[q][0]}) ==> after == queues[q := queues[q][1..]]
  {
    var x := queues[q][0];
    FirstActive(queues, pri, all, q);
    RemainAll(queues[q][1..], {x});
    forall i | 0 <= i < |queues| && i != q ensures Remain(queues[i], {x}) == queues[i] {
      assert x !in queues[i];
      RemainAll(queues[i], {x});
    }
  }

  /** Every queue has lost the events of `order` and then got them back at its end, in that order. */
  ghost predicate Requeued(queues: seq<seq<Id>>, was: seq<seq<Id>>, pri: map<Id, nat>, order: seq<Id>)
  {
    |queues| == |was| &&
    forall q :: 0 <= q < |was| ==> queues[q] == Remain(was[q], Elems(order)) + OfPriority(order, pri, q)
  }

  lemma RequeuedNone(queues: seq<seq<Id>>, pri: map<Id, nat>)
    ensures Requeued(queues, queues, pri, [])
  {
    forall q | 0 <= q < |queues| ensures Remain(queues[q], Elems([])) == queues[q] {
      RemainAll(queues[q], Elems([]));
    }
  }

  /** One more event leaves its places and goes to the end of its queue. */
  lemma RequeuedOne(queues: seq<seq<Id>>, was: seq<seq<Id>>, pri: map<Id, nat>, order: seq<Id>, x: Id,
                    without: seq<seq<Id>>)
    requires Requeued(queues, was, pri, order) && x !in order && x in pri && pri[x] < |queues| &&
             Left(without, queues, {x})
    ensures Requeued(without[pri[x] := without[pri[x]] + [x]], was, pri, order + [x])
  {
    var done := Elems(order);
    assert Elems(order + [x]) == done + {x};
    forall q | 0 <= q < |was| ensures without[q] == Remain(was[q], done + {x}) + OfPriority(order, pri, q) {
      RemainAppend(Remain(was[q], done), OfPriority(order, pri, q), {x});
      RemainTwice(was[q], done, {x});
      OfPriorityIn(order, pri, q, x);
      RemainAll(OfPriority(order, pri, q), {x});
    }
    var longer := order + [x];
    assert longer[..|longer| - 1] == order && longer[|longer| - 1] == x;
    forall q | 0 <= q < |was|
      ensures OfPriority(longer, pri, q) == OfPriority(order, pri, q) + (if q == pri[x] then [x] else [])
    {
    }
    var queues' := without[pri[x] := without[pri[x]] + [x]];
    forall q | 0 <= q < |was| ensures queues'[q] == Remain(was[q], done + {x}) + OfPriority(longer, pri, q) {
    }
  }

  lemma {:induction false} NoneActive(queues: seq<seq<Id>>)
    requires Total(queues) <= 0
    ensures forall i :: 0 <= i < |queues| ==> queues[i] == []
    decreases |queues|
  {
    if queues != [] { NoneActive(queues[1..]); }
  }
}
