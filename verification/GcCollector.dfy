/** The collector as lgc.c writes it: methods that update one shared state, with loops over the lists. */
module GcCollector {
  import opened Seqs
  import opened LuaHeap
  import opened GcMark
  import opened GcTraverse
  import opened GcAtomic
  import opened GcClear
  import opened GcPhases
  import opened GcInvariant
  import opened GcAtomicInv
  import opened GcSweep
  import opened GcMutatorInv
  import opened GcRun
  import opened GcReach
  import opened GcContents
  import opened GcFull

  /** How many objects one sweep step visits. */
  const GCSWEEPMAX: nat := 40

  /** Marking looks at no table's entries: they may change under it. */
  lemma {:induction false} MarkObjectIgnoresTables(h: Graph, h': Graph, m: Marks, o: Id)
    requires h.Keys == h'.Keys && forall x :: x in h ==> h'[x] == h[x] || (h[x].Table? && h'[x].Table?)
    ensures MarkObject(h', m, o) == MarkObject(h, m, o)
    decreases Whites(m), 0
  {
    if o in m.color && m.color[o].White? && o in h {
      var m1 := m.(color := m.color[o := Gray]);
      assert o in Whites(m) && Whites(m1) <= Whites(m) && o !in Whites(m1);
      match h[o]
      case Udata(mt, env) =>
        var m2 := m.(color := m.color[o := Black]);
        assert Whites(m2) == Whites(m1);
        MarkValueIgnoresTables(h, h', m2, mt);
        MarkValueIgnoresTables(h, h', MarkValue(h, m2, mt), env);
      case OpenUpval(_, _) => MarkValueIgnoresTables(h, h', m1, UpvalValue(h, h[o]));
      case ClosedUpval(v) => MarkValueIgnoresTables(h, h', m1, v);
      case _ =>
    }
  }

  lemma MarkValueIgnoresTables(h: Graph, h': Graph, m: Marks, v: Value)
    requires h.Keys == h'.Keys && forall x :: x in h ==> h'[x] == h[x] || (h[x].Table? && h'[x].Table?)
    ensures MarkValue(h', m, v) == MarkValue(h, m, v)
    decreases Whites(m), 1
  {
    if v.Ref? { MarkObjectIgnoresTables(h, h', m, v.id); }
  }

  lemma {:induction false} MarkValuesIgnoresTables(h: Graph, h': Graph, m: Marks, vs: seq<Value>)
    requires h.Keys == h'.Keys && forall x :: x in h ==> h'[x] == h[x] || (h[x].Table? && h'[x].Table?)
    ensures MarkValues(h', m, vs) == MarkValues(h, m, vs)
    decreases |vs|
  {
    if vs != [] {
      MarkValueIgnoresTables(h, h', m, vs[0]);
      MarkValuesIgnoresTables(h, h', MarkValue(h, m, vs[0]), vs[1..]);
    }
  }

  lemma {:induction false} MarkValuesAppend(h: Graph, m: Marks, a: seq<Value>, b: seq<Value>)
    ensures MarkValues(h, m, a + b) == MarkValues(h, MarkValues(h, m, a), b)
    decreases |a|
  {
    if a == [] {
      assert a + b == b;
    } else {
      assert (a + b)[1..] == a[1..] + b;
      MarkValuesAppend(h, MarkValue(h, m, a[0]), a[1..], b);
    }
  }

  /** Marking the two references of an entry, as the entry loop of `traversetable` does it. */
  lemma MarkNodeRefs(h: Graph, m: Marks, n: Node, weakKey: bool, weakVal: bool)
    requires n.val != Nil
    ensures var m1 := if !weakKey && n.key.Live? then MarkValue(h, m, n.key.v) else m;
            MarkValues(h, m, NodeRefs(n, weakKey, weakVal)) == if !weakVal then MarkValue(h, m1, n.val) else m1
  {
    var a := if !weakKey && n.key.Live? then [n.key.v] else [];
    var b := if !weakVal then [n.val] else [];
    MarkValuesAppend(h, m, a, b);
    assert MarkValues(h, m, a) == if !weakKey && n.key.Live? then MarkValue(h, m, n.key.v) else m;
    var m1 := MarkValues(h, m, a);
    assert MarkValues(h, m1, b) == if !weakVal then MarkValue(h, m1, n.val) else m1;
  }

  /** The nodes when the entry loop has come down to index `i`. */
  function Partly(nodes: seq<Node>, i: nat): seq<Node>
    requires i <= |nodes|
  {
    nodes[..i] + RemoveEmpty(nodes)[i..]
  }

  /** The entries of a table with the empty ones from `i` on without their keys. */
  function SwabbedFrom(s: GState, o: Id, i: nat): Graph
    requires o in s.obj && s.obj[o].Table? && i <= |s.obj[o].nodes|
  {
    s.obj[o := s.obj[o].(nodes := Partly(s.obj[o].nodes, i))]
  }

  /** The state when the entries from `i` on have been marked: the rest of them gives what all of them would. */
  ghost predicate EntriesDone(s: GState, o: Id, wk: bool, wv: bool, i: nat, r: GState)
  {
    o in s.obj && s.obj[o].Table? && i <= |s.obj[o].nodes| &&
    r == WithMarks(s, MarksOf(r)).(obj := SwabbedFrom(s, o, i)) &&
    var h, nodes := SwabbedFrom(s, o, 0), s.obj[o].nodes;
    MarkValues(h, MarksOf(r), NodesRefs(nodes[..i], wk, wv)) == MarkValues(h, MarksOf(s), NodesRefs(nodes, wk, wv))
  }

  lemma EntriesStart(s: GState, o: Id, wk: bool, wv: bool)
    requires o in s.obj && s.obj[o].Table?
    ensures EntriesDone(s, o, wk, wv, |s.obj[o].nodes|, s)
  {
    var t := s.obj[o];
    assert Partly(t.nodes, |t.nodes|) == t.nodes && t.nodes[..|t.nodes|] == t.nodes && s.obj[o := t] == s.obj;
    hide MarkValues;
  }

  lemma EntriesNext(s: GState, o: Id, wk: bool, wv: bool, i: nat, g: GState)
    requires EntriesDone(s, o, wk, wv, i + 1, g)
    ensures o in g.obj && g.obj[o].Table? && i < |g.obj[o].nodes|
    ensures var n := g.obj[o].nodes[i];
            var h := g.obj[o := g.obj[o].(nodes := g.obj[o].nodes[i := RemoveEmpty([n])[0]])];
            EntriesDone(s, o, wk, wv, i, WithMarks(g, MarkValues(g.obj, MarksOf(g), NodeRefs(n, wk, wv))).(obj := h))
  {
    var nodes := s.obj[o].nodes;
    var n, h := nodes[i], SwabbedFrom(s, o, 0);
    PartlyNext(nodes, i);
    assert g.obj[o].nodes == Partly(nodes, i + 1);
    hide Partly, RemoveEmpty, NodeRefs, MarkValues;
    var refs, rest := NodeRefs(n, wk, wv), NodesRefs(nodes[..i], wk, wv);
    assert nodes[..i + 1][..i] == nodes[..i];
    assert NodesRefs(nodes[..i + 1], wk, wv) == refs + rest;
    hide NodesRefs;
    MarkValuesIgnoresTables(h, g.obj, MarksOf(g), refs);
    MarkValuesAppend(h, MarksOf(g), refs, rest);
    assert g.obj[o := g.obj[o].(nodes := Partly(nodes, i))] == SwabbedFrom(s, o, i);
  }

  lemma PartlyNext(nodes: seq<Node>, i: nat)
    requires i < |nodes|
    ensures |Partly(nodes, i + 1)| == |nodes| && Partly(nodes, i + 1)[i] == nodes[i]
    ensures Partly(nodes, i + 1)[i := RemoveEmpty([nodes[i]])[0]] == Partly(nodes, i)
  {
  }

  lemma EntriesEnd(s: GState, o: Id, wk: bool, wv: bool, r: GState)
    requires EntriesDone(s, o, wk, wv, 0, r)
    ensures var t := s.obj[o]; var h := s.obj[o := t.(nodes := RemoveEmpty(t.nodes))];
            r == WithMarks(s, MarkValues(h, MarksOf(s), NodesRefs(t.nodes, wk, wv))).(obj := h)
  {
    assert Partly(s.obj[o].nodes, 0) == RemoveEmpty(s.obj[o].nodes);
    hide RemoveEmpty;
  }

  /** The members of a list that belong to `keep`, in order. */
  function Select(list: seq<Id>, keep: set<Id>): seq<Id>
  {
    if list == [] then []
    else if list[0] in keep then [list[0]] + Select(list[1..], keep)
    else Select(list[1..], keep)
  }

  lemma {:induction false} SelectMembers(list: seq<Id>, keep: set<Id>)
    ensures forall x :: x in Select(list, keep) <==> x in list && x in keep
    ensures Distinct(list) ==> Distinct(Select(list, keep))
  {
    if list != [] {
      SelectMembers(list[1..], keep);
      assert forall x :: x in list <==> x == list[0] || x in list[1..];
      if Distinct(list) {
        assert Distinct(list[1..]) && list[0] !in list[1..];
      }
    }
  }

  lemma {:induction false} SelectAppend(a: seq<Id>, b: seq<Id>, keep: set<Id>)
    ensures Select(a + b, keep) == Select(a, keep) + Select(b, keep)
  {
    if a == [] {
      assert a + b == b;
    } else {
      assert (a + b)[1..] == a[1..] + b;
      SelectAppend(a[1..], b, keep);
    }
  }

  ghost function Finalizable(s: GState): set<Id>
  {
    set u | u in s.obj && NeedsFinalizer(s, u)
  }

  ghost function Seen(s: GState, list: seq<Id>): set<Id>
  {
    set u | u in list && Candidate(s, u)
  }

  lemma SeenAll(s: GState, list: seq<Id>)
    requires forall u :: Candidate(s, u) ==> u in list
    ensures Seen(s, list) == set u | u in s.obj && Candidate(s, u)
  {
  }

  /** One step of the walk over the list of objects. */
  lemma SeparateStep(s: GState, list: seq<Id>, k: nat, move: set<Id>, stay: set<Id>)
    requires Distinct(list) && k < |list| && list[k] in s.obj
    ensures Select(list[..k + 1], stay) == Select(list[..k], stay) + if list[k] in stay then [list[k]] else []
    ensures Select(list[..k + 1], move) == Select(list[..k], move) + if list[k] in move then [list[k]] else []
    ensures Seen(s, list[..k + 1]) == Seen(s, list[..k]) + if Candidate(s, list[k]) then {list[k]} else {}
    ensures list[k] !in Select(list[..k], move) && list[k] !in Seen(s, list[..k])
  {
    assert list[..k + 1] == list[..k] + [list[k]];
    SelectAppend(list[..k], [list[k]], stay);
    SelectAppend(list[..k], [list[k]], move);
    SelectMembers(list[..k], move);
    assert list[k] !in list[..k];
  }

  /** How far the walk over `list` has come: `k` objects seen, position `p` of what is left of the list. */
  ghost predicate Walked(s: GState, list: seq<Id>, k: nat, g: GState, rootgc: seq<Id>, p: nat, sep: seq<Id>)
  {
    k <= |list| && p <= |rootgc| && rootgc[..p] == Select(list[..k], s.obj.Keys - Finalizable(s)) &&
    rootgc[p..] == list[k..] &&
    sep == Select(list[..k], Finalizable(s)) &&
    g == s.(tmudata := s.tmudata + sep, finalized := s.finalized + Seen(s, list[..k]))
  }

  lemma WalkStart(s: GState, list: seq<Id>)
    ensures Walked(s, list, 0, s, list, 0, [])
  {
    assert s.finalized + Seen(s, list[..0]) == s.finalized && s.tmudata + [] == s.tmudata;
  }

  lemma WalkEnd(s: GState, list: seq<Id>, k: nat, g: GState, rootgc: seq<Id>, p: nat, sep: seq<Id>)
    requires Walked(s, list, k, g, rootgc, p, sep) && p >= |rootgc| && forall u :: Candidate(s, u) ==> u in list
    ensures g == Separate(s, sep) && sep == Select(list, Finalizable(s)) &&
            rootgc == Select(list, s.obj.Keys - Finalizable(s))
  {
    assert list[..k] == list && rootgc[..p] == rootgc;
    hide Select, Finalizable;
    SeenAll(s, list);
  }

  lemma WalkAt(s: GState, list: seq<Id>, k: nat, g: GState, rootgc: seq<Id>, p: nat, sep: seq<Id>)
    requires Distinct(list) && (forall x :: x in list ==> x in s.obj && x in s.color && x !in s.tmudata)
    requires Walked(s, list, k, g, rootgc, p, sep) && p < |rootgc|
    ensures k < |list| && rootgc[p] == list[k] && list[k] in g.obj && list[k] in g.color && list[k] !in g.tmudata
    ensures (Candidate(g, list[k]) <==> Candidate(s, list[k])) &&
            (NeedsFinalizer(g, list[k]) <==> list[k] in Finalizable(s))
  {
    var u := rootgc[p];
    assert u == rootgc[p..][0] == list[k];
    SeparateStep(s, list, k, Finalizable(s), s.obj.Keys - Finalizable(s));
  }

  lemma WalkNext(s: GState, list: seq<Id>, k: nat, g: GState, rootgc: seq<Id>, p: nat, sep: seq<Id>, g': GState)
    requires Distinct(list) && k < |list| && list[k] in s.obj && Walked(s, list, k, g, rootgc, p, sep) &&
             p < |rootgc| && rootgc[p] == list[k]
    requires g' == g.(finalized := if Candidate(s, list[k]) then g.finalized + {list[k]} else g.finalized,
                      tmudata := if list[k] in Finalizable(s) then g.tmudata + [list[k]] else g.tmudata)
    ensures var u := list[k];
            if u in Finalizable(s) then Walked(s, list, k + 1, g', rootgc[..p] + rootgc[p + 1..], p, sep + [u])
            else Walked(s, list, k + 1, g', rootgc, p + 1, sep)
  {
    var u := list[k];
    SeparateStep(s, list, k, Finalizable(s), s.obj.Keys - Finalizable(s));
    assert rootgc[p + 1..] == list[k + 1..] && rootgc[..p + 1] == rootgc[..p] + [u];
    assert (s.tmudata + sep) + [u] == s.tmudata + (sep + [u]);
    hide Select, Seen, Finalizable, Candidate;
  }

  // ----- clearing step by step -----

  function MarkStrings(s: GState, ids: set<Id>): map<Id, Color>
  {
    map x | x in s.color :: if x in ids && s.color[x].White? then Gray else s.color[x]
  }

  function StringIn(s: GState, v: Value): set<Id>
  {
    if v.Ref? && v.id in s.obj && s.obj[v.id].Str? then {v.id} else {}
  }

  function StringsIn(s: GState, vs: seq<Value>): set<Id>
  {
    set x | x in s.obj && s.obj[x].Str? && Ref(x) in vs
  }

  predicate NodeKeeps(s: GState, n: Node, x: Id)
  {
    n.val != Nil && (n.key == Live(Ref(x)) || (!ClearedKey(s, n.key) && n.val == Ref(x)))
  }

  function StringsKept(s: GState, nodes: seq<Node>): set<Id>
  {
    set x | x in s.obj && s.obj[x].Str? && exists n :: n in nodes && NodeKeeps(s, n, x)
  }

  /** The two states agree on what `iscleared` answers. */
  ghost predicate SameClearing(s: GState, r: GState)
  {
    r.obj.Keys == s.obj.Keys && r.color.Keys == s.color.Keys && r.finalized == s.finalized &&
    (forall x :: x in s.obj ==> (s.obj[x].Str? <==> r.obj[x].Str?) && (s.obj[x].Udata? <==> r.obj[x].Udata?)) &&
    (forall x :: x in s.color && x in s.obj && !s.obj[x].Str? ==> r.color[x] == s.color[x])
  }

  lemma ClearingAgrees(s: GState, r: GState, v: Value)
    requires SameClearing(s, r)
    ensures ClearedValue(r, v) == ClearedValue(s, v) && ClearedKey(r, Live(v)) == ClearedKey(s, Live(v))
    ensures StringIn(r, v) == StringIn(s, v)
  {
  }

  lemma MarkStringsTwice(s: GState, r: GState, a: set<Id>, b: set<Id>)
    requires r.color == MarkStrings(s, a)
    ensures MarkStrings(r, b) == MarkStrings(s, a + b)
  {
  }

  lemma ClearingAgreesMarked(s: GState, r: GState, ids: set<Id>, v: Value)
    requires r == s.(color := MarkStrings(s, ids)) && forall x :: x in ids ==> x in s.obj && s.obj[x].Str?
    ensures ClearedValue(r, v) == ClearedValue(s, v) && StringIn(r, v) == StringIn(s, v)
  {
    ClearingAgrees(s, r, v);
  }

  /** `cleartable` on one array slot. */
  function ClearSlot(s: GState, o: Id, i: nat): GState
    requires o in s.obj && s.obj[o].Table? && i < |s.obj[o].arr|
  {
    var v := s.obj[o].arr[i];
    s.(color := MarkStrings(s, StringIn(s, v)),
       obj := if ClearedValue(s, v) then s.obj[o := s.obj[o].(arr := s.obj[o].arr[i := Nil])] else s.obj)
  }

  /** The strings that `iscleared` marks in one entry. */
  function EntryStrings(s: GState, n: Node): set<Id>
  {
    if n.val == Nil then {}
    else (if n.key.Live? then StringIn(s, n.key.v) else {}) + (if ClearedKey(s, n.key) then {} else StringIn(s, n.val))
  }

  /** `cleartable` on one entry. */
  function ClearEntry(s: GState, o: Id, i: nat): GState
    requires o in s.obj && s.obj[o].Table? && i < |s.obj[o].nodes|
  {
    var n := s.obj[o].nodes[i];
    s.(color := MarkStrings(s, EntryStrings(s, n)),
       obj := if ClearNode(s, n) != n then s.obj[o := s.obj[o].(nodes := s.obj[o].nodes[i := ClearNode(s, n)])]
              else s.obj)
  }

  function ClearNodes(s: GState, nodes: seq<Node>): (r: seq<Node>)
    ensures |r| == |nodes|
  {
    seq(|nodes|, i requires 0 <= i < |nodes| => ClearNode(s, nodes[i]))
  }

  /** `s` when the clearing of `o` has come down to slot `i` and entry `j`. */
  function Part(s: GState, o: Id, i: nat, j: nat): GState
    requires o in s.obj && s.obj[o].Table? && i <= |s.obj[o].arr| && j <= |s.obj[o].nodes|
  {
    var t := s.obj[o];
    s.(obj := s.obj[o := t.(arr := t.arr[..i] + ClearArray(s, t.arr)[i..],
                            nodes := t.nodes[..j] + ClearNodes(s, t.nodes)[j..])],
       color := MarkStrings(s, StringsIn(s, t.arr[i..]) + StringsKept(s, t.nodes[j..])))
  }

  function ClearedOne(s: GState, o: Id): GState
    requires o in s.obj && s.obj[o].Table?
  {
    s.(obj := s.obj[o := ClearTable(s, s.obj[o], o in s.weakVal)],
       color := MarkStrings(s,
                            (if o in s.weakVal then StringsIn(s, s.obj[o].arr)
                             else {}) + StringsKept(s, s.obj[o].nodes)))
  }

  lemma PartStart(s: GState, o: Id)
    requires o in s.obj && s.obj[o].Table?
    ensures Part(s, o, |s.obj[o].arr|, |s.obj[o].nodes|) == s
  {
    var t := s.obj[o];
    var r := Part(s, o, |t.arr|, |t.nodes|);
    assert r.obj[o].arr == t.arr && r.obj[o].nodes == t.nodes;
    assert r.obj == s.obj && r.color == s.color;
  }

  lemma PartTable(s: GState, o: Id, i: nat, j: nat)
    requires o in s.obj && s.obj[o].Table? && i <= |s.obj[o].arr| && j <= |s.obj[o].nodes|
    ensures var r := Part(s, o, i, j);
            o in r.obj && r.obj[o].Table? && |r.obj[o].arr| == |s.obj[o].arr| && |r.obj[o].nodes| == |s.obj[o].nodes|
  {
  }

  lemma PartSameClearing(s: GState, o: Id, i: nat, j: nat, v: Value)
    requires o in s.obj && s.obj[o].Table? && i <= |s.obj[o].arr| && j <= |s.obj[o].nodes|
    ensures var r := Part(s, o, i, j);
            ClearedValue(r, v) == ClearedValue(s, v) && ClearedKey(r, Live(v)) == ClearedKey(s, Live(v)) &&
            StringIn(r, v) == StringIn(s, v)
  {
    ClearingAgrees(s, Part(s, o, i, j), v);
  }

  lemma StringsInStep(s: GState, vs: seq<Value>, i: nat)
    requires i < |vs|
    ensures StringsIn(s, vs[i..]) == StringsIn(s, vs[i + 1..]) + StringIn(s, vs[i])
  {
    assert vs[i..] == [vs[i]] + vs[i + 1..];
  }

  lemma PartSlot(s: GState, o: Id, i: nat)
    requires o in s.obj && s.obj[o].Table? && i < |s.obj[o].arr|
    ensures var k := |s.obj[o].nodes|;
            ClearSlot(Part(s, o, i + 1, k), o, i) == Part(s, o, i, k)
  {
    var t, k := s.obj[o], |s.obj[o].nodes|;
    var q, r := Part(s, o, i + 1, k), Part(s, o, i, k);
    assert q.obj[o].arr[i] == t.arr[i];
    PartSameClearing(s, o, i + 1, k, t.arr[i]);
    StringsInStep(s, t.arr, i);
    assert StringsKept(s, t.nodes[k..]) == {};
    MarkStringsTwice(s, q, StringsIn(s, t.arr[i + 1..]) + {}, StringIn(s, t.arr[i]));
    assert StringsIn(s, t.arr[i + 1..]) + {} + StringIn(s, t.arr[i]) == StringsIn(s, t.arr[i..]) + {};
    var u := ClearSlot(q, o, i);
    assert u.obj[o].arr == r.obj[o].arr && u.obj[o].nodes == r.obj[o].nodes;
    assert u.obj == r.obj;
  }

  lemma StringsKeptStep(s: GState, nodes: seq<Node>, j: nat)
    requires j < |nodes|
    ensures StringsKept(s, nodes[j..]) == StringsKept(s, nodes[j + 1..]) + EntryStrings(s, nodes[j])
  {
    var a, b, n := nodes[j..], nodes[j + 1..], nodes[j];
    assert a == [n] + b;
    forall x | x in s.obj && s.obj[x].Str?
      ensures x in StringsKept(s, a) <==> x in StringsKept(s, b) || x in EntryStrings(s, n)
    {
      assert NodeKeeps(s, n, x) <==> x in EntryStrings(s, n);
      assert (exists k :: k in a && NodeKeeps(s, k, x)) <==>
               NodeKeeps(s, n, x) || exists k :: k in b && NodeKeeps(s, k, x);
    }
  }

  lemma PartEntrySame(s: GState, o: Id, a: nat, j: nat)
    requires o in s.obj && s.obj[o].Table? && a <= |s.obj[o].arr| && j < |s.obj[o].nodes|
    ensures var q, n := Part(s, o, a, j + 1), s.obj[o].nodes[j];
            q.obj[o].nodes[j] == n && ClearNode(q, n) == ClearNode(s, n) && EntryStrings(q, n) == EntryStrings(s, n)
  {
    var n := s.obj[o].nodes[j];
    PartSameClearing(s, o, a, j + 1, n.val);
    if n.key.Live? { PartSameClearing(s, o, a, j + 1, n.key.v); }
    hide ClearedValue, ClearedKey, StringIn, MarkStrings, StringsKept, StringsIn;
  }

  lemma PartEntryColor(s: GState, o: Id, a: nat, j: nat)
    requires o in s.obj && s.obj[o].Table? && a <= |s.obj[o].arr| && j < |s.obj[o].nodes|
    ensures MarkStrings(Part(s, o, a, j + 1), EntryStrings(s, s.obj[o].nodes[j])) == Part(s, o, a, j).color
  {
    var t, q, n := s.obj[o], Part(s, o, a, j + 1), s.obj[o].nodes[j];
    var k := StringsIn(s, t.arr[a..]);
    StringsKeptStep(s, t.nodes, j);
    MarkStringsTwice(s, q, k + StringsKept(s, t.nodes[j + 1..]), EntryStrings(s, n));
    hide EntryStrings, StringsKept, StringsIn, MarkStrings;
    assert k + StringsKept(s, t.nodes[j + 1..]) + EntryStrings(s, n) == k + StringsKept(s, t.nodes[j..]);
  }

  lemma PartEntryNodes(s: GState, o: Id, a: nat, j: nat)
    requires o in s.obj && s.obj[o].Table? && a <= |s.obj[o].arr| && j < |s.obj[o].nodes|
    ensures var q, r := Part(s, o, a, j + 1).obj[o], Part(s, o, a, j).obj[o];
            q.(nodes := q.nodes[j := ClearNode(s, s.obj[o].nodes[j])]) == r
  {
    hide StringsKept, StringsIn, MarkStrings, ClearNode;
    var q, r := Part(s, o, a, j + 1).obj[o], Part(s, o, a, j).obj[o];
    assert q.nodes[j := ClearNode(s, s.obj[o].nodes[j])] == r.nodes;
  }

  lemma PartEntry(s: GState, o: Id, a: nat, j: nat)
    requires o in s.obj && s.obj[o].Table? && a <= |s.obj[o].arr| && j < |s.obj[o].nodes|
    ensures ClearEntry(Part(s, o, a, j + 1), o, j) == Part(s, o, a, j)
  {
    PartEntrySame(s, o, a, j);
    PartEntryColor(s, o, a, j);
    PartEntryNodes(s, o, a, j);
    PartOnly(s, o, a, j);
    PartOnly(s, o, a, j + 1);
    hide EntryStrings, MarkStrings, ClearNode, Part;
    var q, r, n := Part(s, o, a, j + 1), Part(s, o, a, j), s.obj[o].nodes[j];
    if ClearNode(s, n) == n { assert q.obj[o].nodes[j := n] == q.obj[o].nodes; }
    assert ClearEntry(q, o, j).obj == r.obj;
  }

  /** Only the one table and the colours differ. */
  lemma PartOnly(s: GState, o: Id, i: nat, j: nat)
    requires o in s.obj && s.obj[o].Table? && i <= |s.obj[o].arr| && j <= |s.obj[o].nodes|
    ensures var r := Part(s, o, i, j); r == s.(obj := s.obj[o := r.obj[o]], color := r.color) && r.obj[o].Table?
  {
    hide StringsKept, StringsIn, MarkStrings;
  }

  lemma PartEnd(s: GState, o: Id)
    requires o in s.obj && s.obj[o].Table?
    ensures Part(s, o, if o in s.weakVal then 0 else |s.obj[o].arr|, 0) == ClearedOne(s, o)
  {
    var t := s.obj[o];
    var a := if o in s.weakVal then 0 else |t.arr|;
    assert t.nodes[0..] == t.nodes && t.arr[0..] == t.arr;
    var t' := ClearTable(s, t, o in s.weakVal);
    assert t.nodes[..0] + ClearNodes(s, t.nodes)[0..] == t'.nodes;
    assert t.arr[..a] + ClearArray(s, t.arr)[a..] == t'.arr;
    assert o !in s.weakVal ==> StringsIn(s, t.arr[a..]) == {};
  }

  /** `s` when `cleartable` has gone through the first `k` weak tables. */
  function ClearedUpTo(s: GState, k: nat): GState
    requires k <= |s.weak|
  {
    ClearTables(s.(weak := s.weak[..k])).(weak := s.weak)
  }

  ghost predicate WeakTables(s: GState)
  {
    Distinct(s.weak) && s.color.Keys == s.obj.Keys && forall x :: x in s.weak ==> x in s.obj && s.obj[x].Table?
  }

  function TableStrings(s: GState, o: Id): set<Id>
    requires o in s.obj && s.obj[o].Table?
  {
    (if o in s.weakVal then StringsIn(s, s.obj[o].arr) else {}) + StringsKept(s, s.obj[o].nodes)
  }

  lemma TableStringsKept(s: GState, o: Id, x: Id)
    requires o in s.obj && s.obj[o].Table? && x in s.obj && s.obj[x].Str?
    ensures x in TableStrings(s, o) <==> KeepsString(s, s.obj[o], o in s.weakVal, x)
  {
    assert forall n :: NodeKeeps(s, n, x) <==>
             n.val != Nil && (n.key == Live(Ref(x)) || (!ClearedKey(s, n.key) && n.val == Ref(x)));
  }

  lemma UpToSameClearing(s: GState, k: nat)
    requires WeakTables(s) && k <= |s.weak|
    ensures SameClearing(s, ClearedUpTo(s, k))
  {
    var r := ClearedUpTo(s, k);
    forall x | x in s.color && !s.obj[x].Str? ensures r.color[x] == s.color[x] {}
  }

  lemma SameClearTable(s: GState, r: GState, t: Obj, weakVal: bool)
    requires SameClearing(s, r) && t.Table?
    ensures ClearTable(r, t, weakVal) == ClearTable(s, t, weakVal)
    ensures StringsIn(r, t.arr) == StringsIn(s, t.arr) && StringsKept(r, t.nodes) == StringsKept(s, t.nodes)
  {
    forall v ensures ClearedValue(r, v) == ClearedValue(s, v) && ClearedKey(r, Live(v)) == ClearedKey(s, Live(v)) {
      ClearingAgrees(s, r, v);
    }
    assert forall k :: ClearedKey(r, k) == ClearedKey(s, k);
    hide ClearedValue, ClearedKey;
    assert forall n :: ClearNode(r, n) == ClearNode(s, n);
    assert forall n, x :: NodeKeeps(r, n, x) == NodeKeeps(s, n, x);
    assert ClearArray(r, t.arr) == ClearArray(s, t.arr);
  }

  lemma KeptUpTo(s: GState, k: nat, x: Id)
    requires WeakTables(s) && k < |s.weak|
    ensures StringKept(s.(weak := s.weak[..k + 1]), x) <==>
            StringKept(s.(weak := s.weak[..k]), x) ||
            (x in s.obj && s.obj[x].Str? && KeepsString(s, s.obj[s.weak[k]], s.weak[k] in s.weakVal, x))
  {
    assert s.weak[..k + 1] == s.weak[..k] + [s.weak[k]];
    var a, b := s.(weak := s.weak[..k]), s.(weak := s.weak[..k + 1]);
    forall t | t in s.obj && s.obj[t].Table?
      ensures KeepsString(a, s.obj[t], t in s.weakVal, x) == KeepsString(s, s.obj[t], t in s.weakVal, x)
      ensures KeepsString(b, s.obj[t], t in s.weakVal, x) == KeepsString(s, s.obj[t], t in s.weakVal, x)
    {
      assert forall y :: ClearedKey(a, y) == ClearedKey(s, y) && ClearedKey(b, y) == ClearedKey(s, y);
    }
  }

  lemma UpToColorAt(s: GState, k: nat, x: Id)
    requires WeakTables(s) && k < |s.weak| && x in s.color && s.weak[k] in s.obj && s.obj[s.weak[k]].Table?
    ensures var c := MarkStrings(ClearedUpTo(s, k), TableStrings(s, s.weak[k]));
            x in c && x in ClearedUpTo(s, k + 1).color && c[x] == ClearedUpTo(s, k + 1).color[x]
  {
    hide KeepsString, StringKept, ClearedUpTo, TableStrings, WeakTables;
    ClearedColor(s, k);
    ClearedColor(s, k + 1);
    KeptUpTo(s, k, x);
    OnlyStrings(s, s.weak[k], x);
    if x in s.obj && s.obj[x].Str? { TableStringsKept(s, s.weak[k], x); }
  }

  lemma UpToColorKeys(s: GState, k: nat)
    requires k < |s.weak| && s.weak[k] in s.obj && s.obj[s.weak[k]].Table?
    ensures MarkStrings(ClearedUpTo(s, k), TableStrings(s, s.weak[k])).Keys == s.color.Keys ==
            ClearedUpTo(s, k + 1).color.Keys
  {
    ClearedColor(s, k);
    ClearedColor(s, k + 1);
    hide StringKept, ClearedUpTo, TableStrings;
  }

  lemma SameColors(c: map<Id, Color>, d: map<Id, Color>)
    requires c.Keys == d.Keys && forall x :: x in c ==> c[x] == d[x]
    ensures c == d
  {
  }

  lemma UpToColor(s: GState, k: nat)
    requires WeakTables(s) && k < |s.weak|
    ensures MarkStrings(ClearedUpTo(s, k), TableStrings(s, s.weak[k])) == ClearedUpTo(s, k + 1).color
  {
    assert s.weak[k] in s.weak;
    hide KeepsString, StringKept, ClearedUpTo, TableStrings, MarkStrings;
    UpToColorKeys(s, k);
    var c, d := MarkStrings(ClearedUpTo(s, k), TableStrings(s, s.weak[k])), ClearedUpTo(s, k + 1).color;
    hide WeakTables;
    forall x | x in c ensures c[x] == d[x] { UpToColorAt(s, k, x); }
    SameColors(c, d);
  }

  lemma ClearedColor(s: GState, k: nat)
    requires k <= |s.weak|
    ensures var q := ClearedUpTo(s, k);
            q.color.Keys == s.color.Keys &&
            forall x :: x in s.color ==>
              q.color[x] == if s.color[x].White? && StringKept(s.(weak := s.weak[..k]), x) then Gray else s.color[x]
  {
    hide StringKept, ClearTable;
  }

  lemma OnlyStrings(s: GState, o: Id, x: Id)
    requires o in s.obj && s.obj[o].Table?
    ensures x in TableStrings(s, o) ==> x in s.obj && s.obj[x].Str?
  {
  }

  lemma UpToStep(s: GState, k: nat)
    requires WeakTables(s) && k < |s.weak|
    ensures var o := s.weak[k]; var q := ClearedUpTo(s, k);
            o in q.obj && q.obj[o].Table? && ClearedOne(q, o) == ClearedUpTo(s, k + 1)
  {
    var q, r, o := ClearedUpTo(s, k), ClearedUpTo(s, k + 1), s.weak[k];
    assert o !in s.weak[..k] && s.weak[..k + 1] == s.weak[..k] + [o];
    assert q.obj[o] == s.obj[o];
    UpToSameClearing(s, k);
    SameClearTable(s, q, s.obj[o], o in s.weakVal);
    UpToColor(s, k);
    hide MarkStrings, StringsIn, StringsKept, StringKept, KeepsString;
    UpToGraph(s, k);
    assert ClearedOne(q, o).obj == r.obj;
  }

  lemma UpToGraph(s: GState, k: nat)
    requires WeakTables(s) && k < |s.weak|
    ensures var o := s.weak[k];
            ClearedUpTo(s, k + 1).obj == ClearedUpTo(s, k).obj[o := ClearTable(s, s.obj[o], o in s.weakVal)]
  {
    assert s.weak[..k + 1] == s.weak[..k] + [s.weak[k]];
    var a, b := s.(weak := s.weak[..k]), s.(weak := s.weak[..k + 1]);
    forall t: Obj, w: bool | t.Table?
      ensures ClearTable(a, t, w) == ClearTable(s, t, w) && ClearTable(b, t, w) == ClearTable(s, t, w)
    {
      SameClearTable(s, a, t, w);
      SameClearTable(s, b, t, w);
    }
    hide ClearTable, StringKept;
  }

  lemma UpToNone(s: GState)
    ensures ClearedUpTo(s, 0) == s
  {
    assert s.weak[..0] == [];
  }

  // ----- the lists that the sweep walks -----

  predicate InRootList(s: GState, x: Id)
  {
    x in s.obj && !s.obj[x].Str? && !s.obj[x].OpenUpval? && x !in s.tmudata
  }

  ghost predicate RootListOk(s: GState, rootgc: seq<Id>)
  {
    Distinct(rootgc) && forall x :: x in rootgc <==> InRootList(s, x)
  }

  ghost predicate UpvalListOk(s: GState, uvhead: seq<Id>)
  {
    Distinct(uvhead) && UpvalList(s, uvhead)
  }

  function ChainIds(chains: seq<seq<Id>>): set<Id>
  {
    set i, x | 0 <= i < |chains| && x in chains[i] :: x
  }

  /** Every string is in exactly one chain. */
  ghost predicate ChainsOk(s: GState, strt: seq<seq<Id>>)
  {
    0 < |strt| &&
    (forall i :: 0 <= i < |strt| ==> Distinct(strt[i])) &&
    (forall i, j, x :: 0 <= i < j < |strt| && x in strt[i] ==> x !in strt[j]) &&
    (forall x :: x in ChainIds(strt) <==> x in s.obj && s.obj[x].Str?)
  }

  /** What the sweep pointers have still to visit. */
  ghost predicate PointersOk(s: GState, rootgc: seq<Id>, sweepgc: nat, strt: seq<seq<Id>>, sweepstrgc: nat)
  {
    sweepgc <= |rootgc| && sweepstrgc <= |strt| &&
    (s.phase == SweepString ==>
       sweepgc == 0 && sweepstrgc < |strt| && s.unswept == Elems(rootgc) + ChainIds(strt[sweepstrgc..])) &&
    (s.phase == Sweep ==> s.unswept == Elems(rootgc[sweepgc..]))
  }

  lemma MarkValuesCons(h: Graph, m: Marks, v: Value, vs: seq<Value>)
    ensures MarkValues(h, m, [v] + vs) == MarkValues(h, MarkValue(h, m, v), vs)
  {
    assert ([v] + vs)[1..] == vs;
  }

  // ----- the lists across the atomic phase -----

  lemma AfterRootsFacts(s: GState, uvs: seq<Id>, rootgc: seq<Id>)
    requires Inv(s) && s.phase == Propagate && s.gray == [] && UpvalList(s, uvs) && RootListOk(s, rootgc)
    ensures var r := RootsMarked(s, uvs);
            (forall x :: x in rootgc ==> x in r.obj && x in r.color && x !in r.tmudata) &&
            (forall u :: Candidate(r, u) ==> u in rootgc) && RootListOk(r, rootgc)
  {
    hide MarkInv, Sound, ColorInv, HeldKeys, RootsMarked;
    RootsMarkedAdvanced(s, uvs);
    var r := RootsMarked(s, uvs);
    hide Shape, UpvalList;
    assert forall x :: InRootList(r, x) <==> InRootList(s, x);
  }

  lemma UpvalsListed(s: GState, uvs: seq<Id>)
    requires UpvalListOk(s, uvs)
    ensures UpvalList(s, uvs)
  {
  }

  lemma SeparatedList(s: GState, rootgc: seq<Id>, sep: seq<Id>)
    requires RootListOk(s, rootgc) && sep == Select(rootgc, Finalizable(s))
    requires forall u :: Candidate(s, u) ==> u in rootgc
    ensures SeparationList(s, sep)
    ensures RootListOk(Separate(s, sep), Select(rootgc, s.obj.Keys - Finalizable(s)))
  {
    SelectMembers(rootgc, Finalizable(s));
    SelectMembers(rootgc, s.obj.Keys - Finalizable(s));
  }

  lemma AtomicTricolor(s: GState, uvs: seq<Id>, sep: seq<Id>)
    requires Inv(s) && AtomicReady(s, uvs, sep)
    ensures Tricolor(TmuMarked(Separate(RootsMarked(s, uvs), sep)))
  {
    hide MarkInv, Shape, Sound, ColorInv, HeldKeys, Stage, LateOk, RootsMarked;
    ShapeTmu(s);
    RootsMarkedDone(s, uvs);
    var s7 := RootsMarked(s, uvs);
    AdvancedTmu(s, s7);
    SeparatedStage(s7, sep);
    SeparatedGray(s7, sep);
    TmuStage(Separate(s7, sep));
  }

  lemma AdvancedTmu(s: GState, r: GState)
    requires Advanced(s, r) && TmuOk(s)
    ensures TmuOk(r) && r.tmudata == s.tmudata
  {
  }

  lemma SeparatedGray(s: GState, sep: seq<Id>)
    ensures Separate(s, sep).gray == s.gray
  {
  }

  lemma WeakListOk(s: GState, uvs: seq<Id>, sep: seq<Id>)
    requires Inv(s) && AtomicReady(s, uvs, sep)
    ensures WeakTables(AllMarkedState(s, uvs, sep))
  {
    ShapeTmu(s);
    MarkingEnds(s, uvs, sep);
    hide AllMarkedState, RootsMarked, Stage, BitsOk, Shape, Sound, ColorInv;
  }

  ghost predicate SameKinds(s: GState, r: GState)
  {
    r.obj.Keys == s.obj.Keys &&
    forall x :: x in r.obj ==> (r.obj[x].Str? <==> s.obj[x].Str?) && (r.obj[x].OpenUpval? <==> s.obj[x].OpenUpval?)
  }

  lemma RootListCarries(s: GState, r: GState, rootgc: seq<Id>)
    requires SameKinds(s, r) && r.tmudata == s.tmudata && RootListOk(s, rootgc)
    ensures RootListOk(r, rootgc)
  {
    assert forall x :: InRootList(r, x) <==> InRootList(s, x);
  }

  lemma OtherListsCarry(s: GState, r: GState, uvs: seq<Id>, strt: seq<seq<Id>>)
    requires SameKinds(s, r) && UpvalListOk(s, uvs) && ChainsOk(s, strt)
    ensures UpvalListOk(r, uvs) && ChainsOk(r, strt)
  {
  }

  /** The atomic phase leaves the kinds of all objects alone. */
  lemma AtomicSameKinds(s: GState, uvs: seq<Id>, sep: seq<Id>)
    requires Inv(s) && AtomicReady(s, uvs, sep)
    ensures SameKinds(s, Atomic(s, uvs, sep)) && Atomic(s, uvs, sep).tmudata == s.tmudata + sep
  {
    hide MarkInv, Sound, ColorInv, AllMarkedState, RootsMarked, HeldKeys, StringKept, ClearedKey, ClearedValue;
    ShapeTmu(s);
    MarkingRelates(s, uvs, sep);
  }

  lemma RootsSameKinds(s: GState, uvs: seq<Id>)
    requires Inv(s) && s.phase == Propagate && s.gray == [] && UpvalList(s, uvs)
    ensures SameKinds(s, RootsMarked(s, uvs)) && RootsMarked(s, uvs).tmudata == s.tmudata
  {
    hide MarkInv, Sound, Shape, ColorInv, HeldKeys, RootsMarked;
    RootsMarkedAdvanced(s, uvs);
  }

  lemma KindsJoin(a: GState, b: GState, c: GState)
    requires SameKinds(a, b) && SameKinds(a, c)
    ensures SameKinds(b, c)
  {
  }

  lemma AllUnswept(r: GState, rootgc: seq<Id>, strt: seq<seq<Id>>)
    requires RootListOk(r, rootgc) && ChainsOk(r, strt) && r.phase == SweepString
    requires r.unswept == set x | x in r.obj && !r.obj[x].OpenUpval? && x !in r.tmudata
    requires forall u :: u in r.tmudata ==> u in r.obj && !r.obj[u].Str?
    ensures PointersOk(r, rootgc, 0, strt, 0)
  {
    assert rootgc[0..] == rootgc && strt[0..] == strt;
    forall x ensures x in r.unswept <==> x in Elems(rootgc) + ChainIds(strt) {
      assert InRootList(r, x) <==> x in rootgc;
    }
  }

  lemma AtomicLists(s: GState, uvs: seq<Id>, sep: seq<Id>, rootgc: seq<Id>, strt: seq<seq<Id>>)
    requires Inv(s) && AtomicReady(s, uvs, sep) && UpvalListOk(s, uvs) && ChainsOk(s, strt)
    requires RootListOk(Separate(RootsMarked(s, uvs), sep), rootgc)
    ensures var r := Atomic(s, uvs, sep);
            RootListOk(r, rootgc) && UpvalListOk(r, uvs) && ChainsOk(r, strt) && PointersOk(r, rootgc, 0, strt, 0)
  {
    hide Inv, SeparationList, UpvalList, AllMarkedState, RootsMarked, ClearTables, SameKinds, RootListOk, UpvalListOk,
         ChainsOk, PointersOk;
    var q, r := Separate(RootsMarked(s, uvs), sep), Atomic(s, uvs, sep);
    AtomicSameKinds(s, uvs, sep);
    RootsSameKinds(s, uvs);
    AtomicKeepsInv(s, uvs, sep);
    TmuKinds(r);
    assert SameKinds(s, q) by { SeparateSameKinds(s, RootsMarked(s, uvs), sep); }
    KindsJoin(s, q, r);
    RootListCarries(q, r, rootgc);
    OtherListsCarry(s, r, uvs, strt);
    AllUnswept(r, rootgc, strt);
  }

  lemma SeparateSameKinds(s: GState, s7: GState, sep: seq<Id>)
    requires SameKinds(s, s7)
    ensures SameKinds(s, Separate(s7, sep))
  {
  }

  lemma TmuKinds(s: GState)
    requires Inv(s)
    ensures forall u :: u in s.tmudata ==> u in s.obj && !s.obj[u].Str?
  {
  }

  // ----- the lists across a sweep step -----

  function OpenUpvals(s: GState): set<Id>
  {
    set u | u in s.obj && s.obj[u].OpenUpval?
  }

  /** The upvalues of the thread `x` that its end closes. */
  function ClosedWith(s: GState, x: Id): set<Id>
  {
    if Erased(s, x) then set u | u in s.obj && OwnUpval(s, x, u) && !Erased(s, u) else {}
  }

  function ListAfter(rootgc: seq<Id>, p: nat, gone: bool, closed: seq<Id>): seq<Id>
    requires p < |rootgc|
  {
    if gone then closed + rootgc[..p] + rootgc[p + 1..] else rootgc
  }

  lemma SweptUpvalList(s: GState, x: Id, requeue: bool, uvs: seq<Id>)
    requires Shape(s) && x in s.unswept && UpvalListOk(s, uvs)
    ensures var r := SweepOne(s, x, requeue); UpvalListOk(r, Select(uvs, OpenUpvals(r)))
  {
    var r := SweepOne(s, x, requeue);
    SelectMembers(uvs, OpenUpvals(r));
    assert forall u :: u in OpenUpvals(r) ==> u in s.obj && s.obj[u].OpenUpval?;
  }

  lemma SweptMembers(s: GState, x: Id, requeue: bool, y: Id)
    requires Shape(s) && x in s.unswept && InRootList(s, x)
    ensures InRootList(SweepOne(s, x, requeue), y) <==>
            (InRootList(s, y) && !(y == x && Erased(s, x))) || y in ClosedWith(s, x)
  {
  }

  lemma DistinctSplit(a: seq<Id>, p: nat)
    requires Distinct(a) && p < |a|
    ensures Distinct(a[..p] + a[p + 1..])
    ensures forall y :: y in a[..p] + a[p + 1..] <==> y in a && y != a[p]
  {
    var b := a[..p] + a[p + 1..];
    forall y | y in a && y != a[p] ensures y in b {
      var i :| 0 <= i < |a| && a[i] == y;
      assert b[if i < p then i else i - 1] == y;
    }
    forall y | y in b ensures y in a && y != a[p] {
      var i :| 0 <= i < |b| && b[i] == y;
      assert y == a[if i < p then i else i + 1];
    }
  }

  lemma SweptRootList(s: GState, rootgc: seq<Id>, p: nat, requeue: bool, uvs: seq<Id>)
    requires Shape(s) && p < |rootgc| && rootgc[p] in s.unswept && RootListOk(s, rootgc) && UpvalListOk(s, uvs)
    ensures var x := rootgc[p];
            RootListOk(SweepOne(s, x, requeue), ListAfter(rootgc, p, Erased(s, x), Select(uvs, ClosedWith(s, x))))
  {
    var x := rootgc[p];
    var r, closed := SweepOne(s, x, requeue), Select(uvs, ClosedWith(s, x));
    assert InRootList(s, x);
    SelectMembers(uvs, ClosedWith(s, x));
    DistinctSplit(rootgc, p);
    var rest := rootgc[..p] + rootgc[p + 1..];
    var list := ListAfter(rootgc, p, Erased(s, x), closed);
    forall y ensures y in list <==> InRootList(r, y) {
      SweptMembers(s, x, requeue, y);
      assert Erased(s, x) ==> list == closed + rest;
    }
    if Erased(s, x) {
      assert list == closed + rest;
      forall y | y in rest ensures y !in closed { assert InRootList(s, y); }
      DistinctConcat(closed, rest);
    }
  }

  lemma SweptChains(s: GState, x: Id, requeue: bool, strt: seq<seq<Id>>)
    requires Shape(s) && x in s.unswept && InRootList(s, x) && ChainsOk(s, strt)
    ensures ChainsOk(SweepOne(s, x, requeue), strt)
  {
    var r := SweepOne(s, x, requeue);
    assert forall y :: (y in r.obj && r.obj[y].Str?) <==> (y in s.obj && s.obj[y].Str?);
  }

  function PointerAfter(p: nat, gone: bool, closed: seq<Id>): nat
  {
    if !gone then p + 1 else if p == 0 then 0 else p + |closed|
  }

  lemma ListTail(rootgc: seq<Id>, p: nat, gone: bool, closed: seq<Id>)
    requires p < |rootgc| && Distinct(rootgc)
    ensures var list, q := ListAfter(rootgc, p, gone, closed), PointerAfter(p, gone, closed);
            q <= |list| && |list| - q == |rootgc| - p - 1 + (if gone && p == 0 then |closed| else 0) &&
            Elems(list[q..]) == (Elems(rootgc[p..]) - {rootgc[p]}) + if gone && p == 0 then Elems(closed) else {}
  {
    var x, list, q := rootgc[p], ListAfter(rootgc, p, gone, closed), PointerAfter(p, gone, closed);
    assert rootgc[p..] == [x] + rootgc[p + 1..];
    assert x !in rootgc[p + 1..];
    if gone && p == 0 {
      assert list[q..] == closed + rootgc[p + 1..];
    } else {
      assert list[q..] == rootgc[p + 1..];
    }
  }

  lemma SweptPointers(s: GState, rootgc: seq<Id>, p: nat, uvs: seq<Id>, strt: seq<seq<Id>>, k: nat)
    requires Shape(s) && p < |rootgc| && s.phase == Sweep && RootListOk(s, rootgc) && UpvalListOk(s, uvs)
    requires PointersOk(s, rootgc, p, strt, k)
    ensures var x := rootgc[p]; var closed := Select(uvs, ClosedWith(s, x));
            x in s.unswept &&
            PointersOk(SweepOne(s, x, p == 0), ListAfter(rootgc, p, Erased(s, x), closed),
                       PointerAfter(p, Erased(s, x), closed), strt, k)
  {
    var x := rootgc[p];
    var closed := Select(uvs, ClosedWith(s, x));
    assert x == rootgc[p..][0];
    ListTail(rootgc, p, Erased(s, x), closed);
    SelectMembers(uvs, ClosedWith(s, x));
    assert Elems(closed) == ClosedWith(s, x) by { ClosedListed(s, x, uvs); }
    SweptUnswept(s, x, p == 0);
    hide Shape, RootListOk, UpvalListOk, Select, ClosedWith, ListAfter, Distinct;
  }

  lemma ClosedListed(s: GState, x: Id, uvs: seq<Id>)
    requires UpvalListOk(s, uvs)
    ensures forall u :: u in ClosedWith(s, x) ==> u in uvs
  {
  }

  lemma SweptUnswept(s: GState, x: Id, requeue: bool)
    requires Shape(s) && x in s.unswept
    ensures SweepOne(s, x, requeue).unswept == (s.unswept - {x}) + if Erased(s, x) &&
            requeue then ClosedWith(s, x) else {}
    ensures SweepOne(s, x, requeue).phase == s.phase
  {
  }

  /** A sweep step with its lists. */
  lemma SweptAll(s: GState, rootgc: seq<Id>, p: nat, uvs: seq<Id>, strt: seq<seq<Id>>, k: nat)
    requires Inv(s) && p < |rootgc| && s.phase == Sweep && RootListOk(s, rootgc) && UpvalListOk(s, uvs)
    requires ChainsOk(s, strt) && PointersOk(s, rootgc, p, strt, k)
    ensures var x := rootgc[p]; var closed := Select(uvs, ClosedWith(s, x));
            x in s.obj && s.color.Keys == s.obj.Keys && SweepReady(s, x) &&
            var r := SweepOne(s, x, p == 0);
            Inv(r) && r.phase == Sweep &&
            RootListOk(r, ListAfter(rootgc, p, Erased(s, x), closed)) && UpvalListOk(r, Select(uvs, OpenUpvals(r))) &&
            ChainsOk(r, strt) &&
            PointersOk(r, ListAfter(rootgc, p, Erased(s, x), closed), PointerAfter(p, Erased(s, x), closed), strt, k) &&
            |Select(uvs, OpenUpvals(r))| + |closed| <= |uvs|
  {
    var x := rootgc[p];
    ShapeKeys(s);
    RootListed(s, rootgc, p);
    hide Shape, Sound, ColorInv, MarkPhase, RootListOk, UpvalListOk, ChainsOk, PointersOk, Select, ClosedWith, SweepOne;
    SweptPointers(s, rootgc, p, uvs, strt, k);
    SweptRootList(s, rootgc, p, p == 0, uvs);
    SweptUpvalList(s, x, p == 0, uvs);
    SweptChains(s, x, p == 0, strt);
    SweepKeepsInv(s, x, p == 0);
    SweptLengths(s, x, p == 0, uvs);
    SweptUnswept(s, x, p == 0);
  }

  lemma RootListed(s: GState, rootgc: seq<Id>, p: nat)
    requires RootListOk(s, rootgc) && p < |rootgc|
    ensures InRootList(s, rootgc[p]) && Distinct(rootgc)
  {
    assert rootgc[p] in rootgc;
  }

  lemma {:induction false} SelectLength(list: seq<Id>, a: set<Id>, b: set<Id>)
    requires a !! b
    ensures |Select(list, a)| + |Select(list, b)| <= |list|
  {
    if list != [] { SelectLength(list[1..], a, b); }
  }

  lemma SweptLengths(s: GState, x: Id, requeue: bool, uvs: seq<Id>)
    requires Shape(s) && x in s.unswept
    ensures |Select(uvs, OpenUpvals(SweepOne(s, x, requeue)))| + |Select(uvs, ClosedWith(s, x))| <= |uvs|
  {
    SelectLength(uvs, OpenUpvals(SweepOne(s, x, requeue)), ClosedWith(s, x));
  }

  // ----- the string table across a sweep step -----

  lemma SweepStringSimple(s: GState, x: Id)
    requires Shape(s) && x in s.unswept && x in s.obj && s.obj[x].Str?
    ensures var r := SweepOne(s, x, false);
            r.obj == (if Erased(s, x) then s.obj - {x} else s.obj) && r.unswept == s.unswept - {x} &&
            r.phase == s.phase && r.tmudata == s.tmudata
  {
    assert forall y :: !OwnUpval(s, x, y);
  }

  lemma StringStepLists(s: GState, x: Id, rootgc: seq<Id>, uvs: seq<Id>)
    requires Shape(s) && x in s.unswept && x in s.obj && s.obj[x].Str? && RootListOk(s, rootgc) && UpvalListOk(s, uvs)
    ensures RootListOk(SweepOne(s, x, false), rootgc) && UpvalListOk(SweepOne(s, x, false), uvs)
  {
    SweepStringSimple(s, x);
    var r := SweepOne(s, x, false);
    hide SweepOne, Shape;
    assert forall y :: InRootList(r, y) <==> InRootList(s, y);
  }

  lemma StringStepChains(s: GState, x: Id, strt: seq<seq<Id>>, k: nat, kept: seq<Id>, rest: seq<Id>)
    requires Shape(s) && x in s.unswept && x in s.obj && s.obj[x].Str? && k < |strt|
    requires ChainsOk(s, strt) && strt[k] == kept + [x] + rest
    ensures ChainsOk(SweepOne(s, x, false), strt[k := kept + (if Erased(s, x) then [] else [x]) + rest])
  {
    SweepStringSimple(s, x);
    var r := SweepOne(s, x, false);
    hide SweepOne, Shape;
    if Erased(s, x) {
      var p := |kept|;
      assert strt[k][p] == x && strt[k][..p] == kept && strt[k][p + 1..] == rest;
      DistinctSplit(strt[k], p);
      var strt' := strt[k := kept + rest];
      assert kept + [] + rest == kept + rest;
      forall y ensures y in ChainIds(strt') <==> y in r.obj && r.obj[y].Str? {
        ChainWithout(strt, k, kept + rest, x, y);
      }
    } else {
      assert strt[k := strt[k]] == strt;
    }
  }

  /** Sweeping one string, with its lists. */
  lemma StringStepAll(s: GState, x: Id, rootgc: seq<Id>, uvs: seq<Id>, strt: seq<seq<Id>>, k: nat,
                      kept: seq<Id>, rest: seq<Id>)
    requires Inv(s) && RootListOk(s, rootgc) && UpvalListOk(s, uvs) && ChainsOk(s, strt)
    requires s.phase == SweepString && k < |strt| && strt[k] == kept + [x] + rest && x in s.unswept
    ensures x in s.obj && s.color.Keys == s.obj.Keys && SweepReady(s, x)
    ensures var r := SweepOne(s, x, false);
            Inv(r) && RootListOk(r, rootgc) && UpvalListOk(r, uvs) &&
            ChainsOk(r, strt[k := kept + (if Erased(s, x) then [] else [x]) + rest]) &&
            r.phase == SweepString && r.unswept == s.unswept - {x}
  {
    hide Shape, Sound, ColorInv, MarkPhase, RootListOk, UpvalListOk, ChainsOk, SweepOne;
    StringListed(s, strt, k, x);
    ShapeKeys(s);
    StringStepLists(s, x, rootgc, uvs);
    StringStepChains(s, x, strt, k, kept, rest);
    SweepStringSimple(s, x);
    SweepKeepsInv(s, x, false);
  }

  lemma ChainDistinct(s: GState, strt: seq<seq<Id>>, k: nat, kept: seq<Id>, x: Id, rest: seq<Id>)
    requires ChainsOk(s, strt) && k < |strt| && strt[k] == kept + [x] + rest
    ensures x !in rest
  {
    assert strt[k][|kept|] == x;
    assert forall i :: 0 <= i < |rest| ==> rest[i] == strt[k][|kept| + 1 + i];
  }

  lemma StringsSwept(s: GState, rootgc: seq<Id>)
    requires RootListOk(s, rootgc) && s.unswept == Elems(rootgc)
    ensures forall x :: x in s.unswept ==> x in s.obj && !s.obj[x].Str?
  {
    forall x | x in s.unswept ensures x in s.obj && !s.obj[x].Str? { assert InRootList(s, x); }
  }

  lemma EndStringAction(s: GState)
    requires s.phase == SweepString && forall x :: x in s.unswept ==> x in s.obj && !s.obj[x].Str?
    ensures Enabled(s, EndSweepString) && Apply(s, EndSweepString) == s.(phase := Sweep)
  {
  }

  lemma PhaseLists(s: GState, r: GState, rootgc: seq<Id>, uvs: seq<Id>, strt: seq<seq<Id>>)
    requires RootListOk(s, rootgc) && UpvalListOk(s, uvs) && ChainsOk(s, strt)
    requires r.obj == s.obj && r.tmudata == s.tmudata
    ensures RootListOk(r, rootgc) && UpvalListOk(r, uvs) && ChainsOk(r, strt)
  {
    assert forall x :: InRootList(r, x) <==> InRootList(s, x);
  }

  lemma NoElems()
    ensures Elems([]) == {}
  {
  }

  lemma NoChains(strt: seq<seq<Id>>, k: nat)
    requires k == |strt|
    ensures ChainIds(strt[k..]) == {}
  {
  }

  lemma UnsweptWithout(s: GState, strt: seq<seq<Id>>, k: nat, rootgc: seq<Id>, kept: seq<Id>, x: Id, rest: seq<Id>)
    requires ChainsOk(s, strt) && RootListOk(s, rootgc) && k < |strt| && strt[k] == kept + [x] + rest
    ensures x in Elems([x] + rest)
    ensures Elems(rootgc) + Elems([x] + rest) + ChainIds(strt[k + 1..]) - {x} ==
            Elems(rootgc) + Elems(rest) + ChainIds(strt[k + 1..])
  {
    assert x in strt[k];
    ChainApart(s, strt, k, rootgc, x);
    ChainDistinct(s, strt, k, kept, x, rest);
  }

  lemma NoActs(s: GState)
    ensures Runs(s, [], s)
  {
  }

  lemma ChainStepUnswept(s: GState, strt0: seq<seq<Id>>, k: nat, rootgc: seq<Id>, kept: seq<Id>, x: Id, rest: seq<Id>,
                         strt: seq<seq<Id>>)
    requires k < |strt0| && strt == strt0[k := kept + [x] + rest] && ChainsOk(s, strt) && RootListOk(s, rootgc)
    requires s.unswept == Elems(rootgc) + Elems([x] + rest) + ChainIds(strt0[k + 1..])
    ensures x in s.unswept && s.unswept - {x} == Elems(rootgc) + Elems(rest) + ChainIds(strt0[k + 1..])
  {
    assert strt[k + 1..] == strt0[k + 1..];
    UnsweptWithout(s, strt, k, rootgc, kept, x, rest);
  }

  lemma EndSweepAction(s: GState)
    requires s.phase == Sweep && s.unswept == {}
    ensures Enabled(s, EndSweep) && Apply(s, EndSweep) == s.(phase := Finalize)
  {
  }

  lemma StartEnabled(s: GState)
    requires Shape(s) && s.phase in {Pause, Finalize}
    ensures Enabled(s, StartCycle) && Apply(s, StartCycle) == MarkRoot(s)
    ensures MarkRoot(s).obj == s.obj && MarkRoot(s).tmudata == s.tmudata && MarkRoot(s).phase == Propagate
  {
  }

  lemma PropagateSameKinds(s: GState)
    requires Tricolor(s) && s.gray != []
    ensures s.gray[0] in s.obj && Listed(s.obj[s.gray[0]])
    ensures SameKinds(s, PropagateMark(s)) && PropagateMark(s).tmudata == s.tmudata && PropagateMark(s).phase == s.phase
  {
    hide MarkInv;
    PropagateProgress(s);
  }

  lemma PropagateAction(s: GState)
    requires s.phase == Propagate && s.gray != [] && s.gray[0] in s.obj && Listed(s.obj[s.gray[0]])
    ensures Enabled(s, Action.PropagateOne) && Apply(s, Action.PropagateOne) == PropagateMark(s)
  {
  }

  lemma AtomicAction(s: GState, uvs: seq<Id>, sep: seq<Id>)
    requires AtomicReady(s, uvs, sep)
    ensures Enabled(s, AtomicStep(uvs, sep)) && Apply(s, AtomicStep(uvs, sep)) == Atomic(s, uvs, sep)
    ensures Atomic(s, uvs, sep).phase == SweepString
  {
  }

  lemma {:induction false} RunsJoin(s: GState, a: seq<Action>, q: GState, b: seq<Action>, r: GState)
    requires Runs(s, a, q) && Runs(q, b, r)
    ensures Runs(s, a + b, r)
    decreases |a|
  {
    hide Enabled, Apply;
    if a == [] {
      assert a + b == b;
    } else {
      assert (a + b)[1..] == a[1..] + b;
      RunsJoin(Apply(s, a[0]), a[1..], q, b, r);
    }
  }

  lemma RestartReach(s: GState)
    ensures SameReach(s, Restart(s)) && Remnant(s, Restart(s)) && (NoFinalizers(s) ==> NoFinalizers(Restart(s)))
  {
    assert forall x :: IsRoot(Restart(s), x) <==> IsRoot(s, x);
    SameGraphReach(s, Restart(s));
    SameRemnant(s, Restart(s));
  }

  lemma SameSurvivors(s: GState, q: GState, r: GState)
    requires Survives(s, q) && r.obj == q.obj
    ensures Survives(s, r)
  {
    hide Kept;
  }

  lemma ReachSelf(s: GState)
    ensures SameReach(s, s) && Remnant(s, s)
  {
    SameRemnant(s, s);
  }

  lemma SweepOnlyCollects(acts: seq<Action>)
    requires forall a :: a in acts ==> SweepOnly(a)
    ensures forall a :: a in acts ==> CollectorOnly(a)
  {
  }

  lemma ReachInGraph(s: GState)
    requires Inv(s)
    ensures forall x :: StronglyReachable(s, x) ==> x in s.obj
  {
    forall x | StronglyReachable(s, x) ensures x in s.obj {
      var p :| StrongRootPath(s, p) && p[|p| - 1] == x;
      StrongPathAlive(s, p, |p| - 1);
    }
  }

  lemma SameDangling(s: GState, r: GState)
    requires NoDangling(s) && r.obj == s.obj
    ensures NoDangling(r)
  {
  }

  lemma ChainWithout(strt: seq<seq<Id>>, k: nat, chain: seq<Id>, x: Id, y: Id)
    requires k < |strt| && x in strt[k]
    requires forall z :: z in chain <==> z in strt[k] && z != x
    requires forall i, j, z :: 0 <= i < j < |strt| && z in strt[i] ==> z !in strt[j]
    ensures y in ChainIds(strt[k := chain]) <==> y in ChainIds(strt) && y != x
  {
    var strt' := strt[k := chain];
    if y in ChainIds(strt) && y != x {
      var i :| 0 <= i < |strt| && y in strt[i];
      assert y in strt'[i];
    }
    if y in ChainIds(strt') {
      var i :| 0 <= i < |strt'| && y in strt'[i];
      assert y in strt[i];
    }
  }

  lemma StringListed(s: GState, strt: seq<seq<Id>>, k: nat, x: Id)
    requires ChainsOk(s, strt) && k < |strt| && x in strt[k]
    ensures x in s.obj && s.obj[x].Str?
  {
    assert x in ChainIds(strt);
  }

  lemma ChainTail(strt: seq<seq<Id>>, k: nat)
    requires k < |strt|
    ensures ChainIds(strt[k..]) == Elems(strt[k]) + ChainIds(strt[k + 1..])
  {
    var a, b := strt[k..], strt[k + 1..];
    assert a == [strt[k]] + b;
    forall x ensures x in ChainIds(a) <==> x in Elems(strt[k]) + ChainIds(b) {
      if x in ChainIds(a) {
        var i :| 0 <= i < |a| && x in a[i];
        if i > 0 { assert x in b[i - 1]; }
      }
      if x in strt[k] { assert x in a[0]; }
      if x in ChainIds(b) {
        var i :| 0 <= i < |b| && x in b[i];
        assert x in a[i + 1];
      }
    }
  }

  /** No string of the chain under the pointer is in a later chain or in the list of all objects. */
  lemma ChainApart(s: GState, strt: seq<seq<Id>>, k: nat, rootgc: seq<Id>, x: Id)
    requires ChainsOk(s, strt) && RootListOk(s, rootgc) && k < |strt| && x in strt[k]
    ensures x !in ChainIds(strt[k + 1..]) && x !in rootgc
  {
    StringListed(s, strt, k, x);
    var later := strt[k + 1..];
    assert forall i :: 0 <= i < |later| ==> later[i] == strt[k + 1 + i];
    assert !InRootList(s, x);
  }

  class Collector {
    /** The fields of `global_State`. */
    var g: GState
    /** All objects except strings, open upvalues and waiting userdata, with the sweep position. */
    var rootgc: seq<Id>
    var sweepgc: nat
    /** The string table's chains, with the number of chains already swept. */
    var strt: seq<seq<Id>>
    var sweepstrgc: nat
    /** All open upvalues. */
    var uvhead: seq<Id>

    // ----- marking -----

    /** `reallymarkobject`, guarded by `markobject`'s test. */
    method MarkObj(o: Id)
      modifies this`g
      ensures g == WithMarks(old(g), MarkObject(old(g).obj, MarksOf(old(g)), o))
      decreases Whites(MarksOf(g)), 0
    {
      if o in g.color && g.color[o].White? && o in g.obj {
        ghost var m := MarksOf(g);
        ghost var m1 := m.(color := m.color[o := Gray]);
        assert o in Whites(m) && Whites(m1) <= Whites(m) && o !in Whites(m1);
        g := g.(color := g.color[o := Gray]);
        match g.obj[o] {
          case Str(_) =>
          case Udata(mt, env) =>
            g := g.(color := g.color[o := Black]);
            assert g.color == m.color[o := Black];
            assert Whites(MarksOf(g)) == Whites(m1);
            MarkVal(mt);
            MarkVal(env);
          case OpenUpval(_, _) =>
            MarkVal(UpvalValue(g.obj, g.obj[o]));
          case ClosedUpval(v) =>
            MarkVal(v);
            g := g.(color := g.color[o := Black]);
          case _ =>
            g := g.(gray := [o] + g.gray);
        }
      }
    }

    /** `markvalue`. */
    method MarkVal(v: Value)
      modifies this`g
      ensures g == WithMarks(old(g), MarkValue(old(g).obj, MarksOf(old(g)), v))
      decreases Whites(MarksOf(g)), 1
    {
      if v.Ref? { MarkObj(v.id); }
    }

    method MarkAll(vs: seq<Value>)
      modifies this`g
      ensures g == WithMarks(old(g), MarkValues(old(g).obj, MarksOf(old(g)), vs))
    {
      for i := 0 to |vs|
        invariant g == WithMarks(old(g), MarksOf(g))
        invariant MarkValues(g.obj, MarksOf(g), vs[i..]) == MarkValues(old(g).obj, MarksOf(old(g)), vs)
      {
        assert vs[i..][1..] == vs[i + 1..];
        MarkVal(vs[i]);
      }
    }

    // ----- traversal -----

    method MarkArray(o: Id)
      requires o in g.obj && g.obj[o].Table?
      modifies this`g
      ensures g == WithMarks(old(g), MarkValues(old(g).obj, MarksOf(old(g)), Reverse(old(g).obj[o].arr)))
    {
      ghost var h, m0 := g.obj, MarksOf(g);
      var arr := g.obj[o].arr;
      var i := |arr|;
      assert arr[..i] == arr;
      while i > 0
        invariant 0 <= i <= |arr|
        invariant g == WithMarks(old(g), MarksOf(g))
        invariant MarkValues(h, MarksOf(g), Reverse(arr[..i])) == MarkValues(h, m0, Reverse(arr))
      {
        i := i - 1;
        assert arr[..i + 1][..i] == arr[..i];
        assert Reverse(arr[..i + 1])[1..] == Reverse(arr[..i]);
        MarkVal(arr[i]);
      }
    }

    /** One round of the entry loop: `removeentry` on an empty entry, marking on any other. */
    method MarkEntry(o: Id, i: nat, wk: bool, wv: bool)
      requires o in g.obj && g.obj[o].Table? && i < |g.obj[o].nodes|
      modifies this`g
      ensures var s := old(g); var n := s.obj[o].nodes[i];
              g == WithMarks(s, MarkValues(s.obj, MarksOf(s), NodeRefs(n, wk, wv)))
                     .(obj := s.obj[o := s.obj[o].(nodes := s.obj[o].nodes[i := RemoveEmpty([n])[0]])])
    {
      ghost var s := g;
      var n := g.obj[o].nodes[i];
      if n.val == Nil {
        if n.key.Live? && n.key.v.Ref? {
          g := g.(obj := g.obj[o := g.obj[o].(nodes := g.obj[o].nodes[i := Node(Dead, Nil)])]);
        } else {
          assert s.obj[o].nodes[i := n] == s.obj[o].nodes && s.obj[o := s.obj[o]] == s.obj;
        }
      } else {
        MarkNodeRefs(s.obj, MarksOf(s), n, wk, wv);
        if !wk && n.key.Live? { MarkVal(n.key.v); }
        if !wv { MarkVal(n.val); }
        assert s.obj[o].nodes[i := n] == s.obj[o].nodes && s.obj[o := s.obj[o]] == s.obj;
      }
    }

    /** The entry loop: empty entries lose their key, the others are marked as far as they are strong. */
    method MarkEntries(o: Id, wk: bool, wv: bool)
      requires o in g.obj && g.obj[o].Table?
      modifies this`g
      ensures var s := old(g); var t := s.obj[o];
              var h := s.obj[o := t.(nodes := RemoveEmpty(t.nodes))];
              g == WithMarks(s, MarkValues(h, MarksOf(s), NodesRefs(t.nodes, wk, wv))).(obj := h)
    {
      hide EntriesDone, MarkValues, RemoveEmpty, NodeRefs, NodesRefs, Partly;
      ghost var s := g;
      EntriesStart(s, o, wk, wv);
      var i := |g.obj[o].nodes|;
      while i > 0
        invariant 0 <= i <= |s.obj[o].nodes| && EntriesDone(s, o, wk, wv, i, g)
      {
        i := i - 1;
        EntriesNext(s, o, wk, wv, i, g);
        MarkEntry(o, i, wk, wv);
      }
      EntriesEnd(s, o, wk, wv, g);
    }

    /** `traversetable`; the result says whether the table is weak. */
    method TraverseTable(o: Id) returns (isWeak: bool)
      requires o in g.obj && g.obj[o].Table?
      modifies this`g
      ensures var s := old(g); var wk, wv := IsWeak(s, o, 'k'), IsWeak(s, o, 'v');
              isWeak == (wk || wv) &&
              g == WithMarks(s, MarkValues(Swabbed(s, o), MarksOf(s), GrayRefs(s, o)))
                     .(obj := Swabbed(s, o),
                       weak := if isWeak then [o] + s.weak else s.weak,
                       weakKey := if !isWeak then s.weakKey else if wk then s.weakKey + {o} else s.weakKey - {o},
                       weakVal := if !isWeak then s.weakVal else if wv then s.weakVal + {o} else s.weakVal - {o})
    {
      ghost var s, t, h := g, g.obj[o], Swabbed(g, o);
      MarkVal(g.obj[o].metatable);
      MarkValueIgnoresTables(s.obj, h, MarksOf(s), t.metatable);
      ghost var m1 := MarksOf(g);
      var wk := HasMode(g.obj, g.modeKey, g.obj[o].metatable, 'k');
      var wv := HasMode(g.obj, g.modeKey, g.obj[o].metatable, 'v');
      isWeak := wk || wv;
      if wk || wv {
        g := g.(weakKey := if wk then g.weakKey + {o} else g.weakKey - {o},
                weakVal := if wv then g.weakVal + {o} else g.weakVal - {o},
                weak := [o] + g.weak);
      }
      ghost var refs := GrayRefs(s, o);
      assert refs[0] == t.metatable;
      assert MarkValues(h, MarksOf(s), refs) == MarkValues(h, m1, refs[1..]);
      if wk && wv { return; }
      ghost var arrRefs := if wv then [] else Reverse(t.arr);
      assert refs[1..] == arrRefs + NodesRefs(t.nodes, wk, wv);
      MarkValuesAppend(h, m1, arrRefs, NodesRefs(t.nodes, wk, wv));
      if !wv {
        MarkValuesIgnoresTables(s.obj, h, m1, arrRefs);
        MarkArray(o);
      }
      MarkEntries(o, wk, wv);
    }

    /** `propagatemark`. */
    method PropagateOne()
      requires g.gray != [] && g.gray[0] in g.obj && Listed(g.obj[g.gray[0]])
      modifies this`g
      ensures g == PropagateMark(old(g))
    {
      ghost var s := g;
      var o := g.gray[0];
      g := g.(color := g.color[o := Black], gray := g.gray[1..]);
      match g.obj[o] {
        case Table(_, _, _) =>
          assert Swabbed(g, o) == Swabbed(s, o) && GrayRefs(g, o) == GrayRefs(s, o) && MarksOf(g) == Popped(s);
          var isWeak := TraverseTable(o);
          if isWeak { g := g.(color := g.color[o := Gray]); }
        case Closure(refs) => MarkAll(refs);
        case Thread(globals, stack) =>
          g := g.(grayagain := [o] + g.grayagain, color := g.color[o := Gray]);
          assert g.color == Popped(s).color;
          MarkAll([globals] + stack);
        case Proto(refs) => MarkAll(refs);
      }
    }

    /** `propagateall`. */
    method PropagateGray()
      requires Tricolor(g)
      modifies this`g
      ensures g == PropagateAll(old(g))
    {
      while g.gray != []
        invariant Tricolor(g) && PropagateAll(g) == PropagateAll(old(g))
        decreases Whites(MarksOf(g)), Elems(g.gray)
      {
        PropagateShrinks(g);
        PropagateKeepsTricolor(g);
        hide MarkInv, PropagateMark;
        PropagateOne();
      }
    }

    // ----- the atomic phase -----

    /** `remarkupvals`. */
    method RemarkOpenUpvals()
      modifies this`g
      ensures g == Remarked(old(g), uvhead)
    {
      ghost var s := g;
      for i := 0 to |uvhead|
        invariant g == WithMarks(s, MarksOf(g))
        invariant RemarkUpvals(s.obj, MarksOf(g), uvhead[i..]) == RemarkUpvals(s.obj, MarksOf(s), uvhead)
      {
        assert uvhead[i..][1..] == uvhead[i + 1..];
        var u := uvhead[i];
        if u in g.obj && u in g.color && g.obj[u].OpenUpval? && g.color[u] == Gray {
          MarkVal(UpvalValue(g.obj, g.obj[u]));
        }
      }
    }

    /** `marktmu`. */
    method MarkWaiting()
      modifies this`g
      ensures g == TmuMarked(old(g))
    {
      ghost var s := g;
      var us := g.tmudata;
      for i := 0 to |us|
        invariant g == WithMarks(s, MarksOf(g))
        invariant MarkTmu(s.obj, MarksOf(g), s.cur, us[i..]) == MarkTmu(s.obj, MarksOf(s), s.cur, us)
      {
        assert us[i..][1..] == us[i + 1..];
        g := g.(color := g.color[us[i] := White(g.cur)]);
        MarkObj(us[i]);
      }
    }

    /** The loop body of `luaC_separateudata` at position `p` of the list; `next` is the position after. */
    method SeparateAt(p: nat) returns (next: nat)
      requires p < |rootgc| && rootgc[p] in g.obj && rootgc[p] in g.color && rootgc[p] !in g.tmudata
      modifies this`g, this`rootgc
      ensures var s, u := old(g), old(rootgc[p]);
              g == s.(finalized := if Candidate(s, u) then s.finalized + {u} else s.finalized,
                      tmudata := if NeedsFinalizer(s, u) then s.tmudata + [u] else s.tmudata) &&
              rootgc == (if NeedsFinalizer(s, u) then old(rootgc)[..p] + old(rootgc)[p + 1..] else old(rootgc)) &&
              next == if NeedsFinalizer(s, u) then p else p + 1
    {
      var curr := rootgc[p];
      if !g.obj[curr].Udata? || !g.color[curr].White? || curr in g.finalized {
        next := p + 1;
      } else if !HasGcMethod(g.obj, g.gcKey, g.obj[curr].metatable) {
        g := g.(finalized := g.finalized + {curr});
        next := p + 1;
      } else {
        g := g.(finalized := g.finalized + {curr}, tmudata := g.tmudata + [curr]);
        rootgc := rootgc[..p] + rootgc[p + 1..];
        next := p;
      }
    }

    /** `luaC_separateudata`: walk the list of all objects and move finalizable userdata out of it. */
    method SeparateUdata() returns (ghost sep: seq<Id>)
      requires Distinct(rootgc) && forall x :: x in rootgc ==> x in g.obj && x in g.color && x !in g.tmudata
      requires forall u :: Candidate(g, u) ==> u in rootgc
      modifies this`g, this`rootgc
      ensures g == Separate(old(g), sep)
      ensures sep == Select(old(rootgc), Finalizable(old(g)))
      ensures rootgc == Select(old(rootgc), old(g).obj.Keys - Finalizable(old(g)))
    {
      ghost var s, list := g, rootgc;
      ghost var k: nat := 0;
      var p: nat := 0;
      sep := [];
      WalkStart(s, list);
      while p < |rootgc|
        invariant k <= |list| && Walked(s, list, k, g, rootgc, p, sep)
        decreases |list| - k
      {
        hide Walked, Finalizable, Candidate, NeedsFinalizer, Distinct;
        WalkAt(s, list, k, g, rootgc, p, sep);
        ghost var was, root, at := g, rootgc, p;
        p := SeparateAt(p);
        WalkNext(s, list, k, was, root, at, sep, g);
        if list[k] in Finalizable(s) { sep := sep + [list[k]]; }
        k := k + 1;
      }
      WalkEnd(s, list, k, g, rootgc, p, sep);
    }

    // ----- cleartable -----

    /** `iscleared`: strings are marked and kept. */
    method IsCleared(v: Value, isKey: bool) returns (c: bool)
      modifies this`g
      ensures c == if isKey then ClearedKey(old(g), Live(v)) else ClearedValue(old(g), v)
      ensures g == old(g).(color := MarkStrings(old(g), StringIn(old(g), v)))
    {
      ghost var s := g;
      if !v.Ref? || v.id !in g.obj || v.id !in g.color {
        assert MarkStrings(s, StringIn(s, v)) == s.color;
        return false;
      }
      if g.obj[v.id].Str? {
        if g.color[v.id].White? { g := g.(color := g.color[v.id := Gray]); }
        assert MarkStrings(s, StringIn(s, v)) == g.color;
        return false;
      }
      assert MarkStrings(s, StringIn(s, v)) == s.color;
      return g.color[v.id].White? || (g.obj[v.id].Udata? && !isKey && v.id in g.finalized);
    }

    method ClearSlotAt(o: Id, i: nat)
      requires o in g.obj && g.obj[o].Table? && i < |g.obj[o].arr|
      modifies this`g
      ensures g == ClearSlot(old(g), o, i)
    {
      var v := g.obj[o].arr[i];
      var c := IsCleared(v, false);
      if c { g := g.(obj := g.obj[o := g.obj[o].(arr := g.obj[o].arr[i := Nil])]); }
    }

    method ClearNodeAt(o: Id, i: nat)
      requires o in g.obj && g.obj[o].Table? && i < |g.obj[o].nodes|
      modifies this`g
      ensures g == ClearEntry(old(g), o, i)
    {
      ghost var s := g;
      var n := g.obj[o].nodes[i];
      if n.val == Nil {
        assert MarkStrings(s, {}) == s.color;
      } else {
        var c := false;
        if n.key.Live? { c := IsCleared(n.key.v, true); } else { assert MarkStrings(s, {}) == s.color; }
        if !c {
          ghost var r, ks := g, if n.key.Live? then StringIn(s, n.key.v) else {};
          ClearingAgreesMarked(s, r, ks, n.val);
          MarkStringsTwice(s, r, ks, StringIn(s, n.val));
          c := IsCleared(n.val, false);
        } else {
          assert StringIn(s, n.key.v) + {} == StringIn(s, n.key.v);
        }
        if c {
          g := g.(obj := g.obj[o := g.obj[o].(nodes := g.obj[o].nodes[i :=
                 Node(if n.key.Live? && n.key.v.Ref? then Dead else n.key, Nil)])]);
        }
      }
    }

    /** The array part of a table with weak values, from the end. */
    method ClearSlots(o: Id, ghost s: GState)
      requires o in s.obj && s.obj[o].Table? && g == Part(s, o, |s.obj[o].arr|, |s.obj[o].nodes|)
      modifies this`g
      ensures g == Part(s, o, 0, |s.obj[o].nodes|)
    {
      hide Part, ClearSlot;
      PartTable(s, o, |s.obj[o].arr|, |s.obj[o].nodes|);
      var i := |g.obj[o].arr|;
      while i > 0
        invariant 0 <= i <= |s.obj[o].arr| && g == Part(s, o, i, |s.obj[o].nodes|)
      {
        PartTable(s, o, i, |s.obj[o].nodes|);
        i := i - 1;
        PartSlot(s, o, i);
        ClearSlotAt(o, i);
      }
    }

    /** The entries of a weak table, from the end. */
    method ClearEntries(o: Id, ghost s: GState, ghost a: nat)
      requires o in s.obj && s.obj[o].Table? && a <= |s.obj[o].arr| && g == Part(s, o, a, |s.obj[o].nodes|)
      modifies this`g
      ensures g == Part(s, o, a, 0)
    {
      hide Part, ClearEntry;
      PartTable(s, o, a, |s.obj[o].nodes|);
      var j := |g.obj[o].nodes|;
      while j > 0
        invariant 0 <= j <= |s.obj[o].nodes| && g == Part(s, o, a, j)
      {
        PartTable(s, o, a, j);
        j := j - 1;
        PartEntry(s, o, a, j);
        ClearNodeAt(o, j);
      }
    }

    /** The loop body of `cleartable`. */
    method ClearWeakTable(o: Id)
      requires o in g.obj && g.obj[o].Table?
      modifies this`g
      ensures g == ClearedOne(old(g), o)
    {
      hide Part, ClearedOne;
      ghost var s := g;
      PartStart(s, o);
      if o in g.weakVal { ClearSlots(o, s); }
      ClearEntries(o, s, if o in s.weakVal then 0 else |s.obj[o].arr|);
      PartEnd(s, o);
    }

    /** `cleartable(g->weak)`. */
    method ClearWeakTables()
      requires WeakTables(g)
      modifies this`g
      ensures g == ClearTables(old(g))
    {
      ghost var s := g;
      UpToNone(s);
      for i := 0 to |g.weak|
        invariant g == ClearedUpTo(s, i)
      {
        UpToStep(s, i);
        ClearWeakTable(g.weak[i]);
      }
      assert s.weak[..|s.weak|] == s.weak;
    }

    // ----- the steps of a cycle -----

    ghost predicate Valid()
      reads this
    {
      Inv(g) && RootListOk(g, rootgc) && UpvalListOk(g, uvhead) && ChainsOk(g, strt) &&
      PointersOk(g, rootgc, sweepgc, strt, sweepstrgc)
    }

    /** `markroot`. */
    method MarkRoots()
      requires g.mainthread in g.obj && g.obj[g.mainthread].Thread?
      modifies this`g
      ensures g == MarkRoot(old(g))
    {
      ghost var s := g;
      g := g.(gray := [], grayagain := [], weak := []);
      ghost var m, h, t := MarksOf(g), g.obj, g.obj[g.mainthread].globals;
      assert RootValues(s) == [Ref(s.mainthread)] + ([t] + ([Ref(s.registry)] + s.mt));
      MarkValuesCons(h, m, Ref(s.mainthread), [t] + ([Ref(s.registry)] + s.mt));
      ghost var m1 := MarkValue(h, m, Ref(s.mainthread));
      MarkValuesCons(h, m1, t, [Ref(s.registry)] + s.mt);
      MarkValuesCons(h, MarkValue(h, m1, t), Ref(s.registry), s.mt);
      hide MarkValues, MarkObject;
      MarkVal(Ref(g.mainthread));
      MarkVal(g.obj[g.mainthread].globals);
      MarkVal(Ref(g.registry));
      MarkAll(g.mt);
      g := g.(phase := Propagate);
    }

    /** The part of `atomic` that marks everything reachable from the roots. */
    method MarkFromRoots()
      requires Tricolor(g) && g.gray == [] && UpvalList(g, uvhead)
      modifies this`g
      ensures g == RootsMarked(old(g), uvhead)
    {
      ghost var s := g;
      RemarkOpenUpvals();
      assert Tricolor(g) by { RemarkedStage(s, uvhead); }
      PropagateGray();
      ghost var s2 := g;
      FirstStage(s, uvhead);
      hide MarkInv, Stage, Progress, MarkValues, RemarkUpvals;
      WeakAgainTricolor(s2);
      g := g.(gray := g.weak, weak := []);
      ghost var q := g;
      assert MarkValues(q.obj, MarksOf(q), [Ref(q.running)] + q.mt) ==
             MarkValues(q.obj, MarkValue(q.obj, MarksOf(q), Ref(q.running)), q.mt) by {
               MarkValuesCons(q.obj, MarksOf(q), Ref(q.running), q.mt);
             }
      MarkVal(Ref(g.running));
      MarkAll(g.mt);
      PropagateGray();
      GrayAgainTricolor(g);
      g := g.(gray := g.grayagain, grayagain := []);
      PropagateGray();
    }

    /** `atomic` up to the point where everything that stays alive is marked. */
    method MarkEverything() returns (ghost sep: seq<Id>)
      requires Inv(g) && RootListOk(g, rootgc) && UpvalList(g, uvhead) && g.phase == Propagate && g.gray == []
      modifies this`g, this`rootgc
      ensures AtomicReady(old(g), uvhead, sep) && g == AllMarkedState(old(g), uvhead, sep)
      ensures RootListOk(Separate(RootsMarked(old(g), uvhead), sep), rootgc)
    {
      ghost var s, list := g, rootgc;
      hide MarkInv, Shape, Sound, ColorInv, HeldKeys, Separate, UpvalList;
      MarkFromRoots();
      ghost var s7 := g;
      AfterRootsFacts(s, uvhead, rootgc);
      sep := SeparateUdata();
      SeparatedList(s7, list, sep);
      hide RootListOk, RootsMarked, Distinct, SeparationList;
      AtomicTricolor(s, uvhead, sep);
      MarkWaiting();
      PropagateGray();
    }

    /** `atomic`. */
    method AtomicPhase() returns (ghost sep: seq<Id>)
      requires Valid() && g.phase == Propagate && g.gray == []
      modifies this
      ensures AtomicReady(old(g), uvhead, sep) && g == Atomic(old(g), uvhead, sep)
      ensures Valid() && uvhead == old(uvhead)
    {
      ghost var s := g;
      hide Inv, RootListOk, UpvalListOk, ChainsOk, AllMarkedState, RootsMarked, ClearTables, AtomicReady, WeakTables,
           Separate;
      UpvalsListed(g, uvhead);
      hide UpvalList;
      sep := MarkEverything();
      WeakListOk(s, uvhead, sep);
      ClearWeakTables();
      g := g.(cur := !g.cur, phase := SweepString,
              unswept := set x | x in g.obj && !g.obj[x].OpenUpval? && x !in g.tmudata);
      sweepstrgc, sweepgc := 0, 0;
      hide PointersOk;
      AtomicKeepsInv(s, uvhead, sep);
      AtomicLists(s, uvhead, sep, rootgc, strt);
    }

    // ----- the sweep -----

    /** One round of the loop in `sweeplist` over the list of all objects. */
    method SweepOneRoot() returns (ghost a: Action)
      requires Valid() && g.phase == Sweep && sweepgc < |rootgc|
      modifies this
      ensures Valid() && g.phase == Sweep && a.SweepObject? && Enabled(old(g), a) && g == Apply(old(g), a)
      ensures |uvhead| < old(|uvhead|) ||
              (|uvhead| == old(|uvhead|) && |rootgc| - sweepgc < old(|rootgc| - sweepgc))
    {
      hide Inv, RootListOk, UpvalListOk, ChainsOk, PointersOk, Select, ClosedWith, OpenUpvals;
      assert sweepgc < |rootgc|;
      var p := sweepgc;
      var x := rootgc[p];
      SweptAll(g, rootgc, p, uvhead, strt, sweepstrgc);
      RootListed(g, rootgc, p);
      ListTail(rootgc, p, Erased(g, x), Select(uvhead, ClosedWith(g, x)));
      a := SweepObject(x, p == 0);
      var closed := Select(uvhead, ClosedWith(g, x));
      if IsDead(g, x) && x !in g.fixed {
        rootgc := closed + rootgc[..p] + rootgc[p + 1..];
        sweepgc := if p == 0 then 0 else p + |closed|;
      } else {
        sweepgc := p + 1;
      }
      hide SweepReady;
      g := SweepOne(g, x, p == 0);
      uvhead := Select(uvhead, OpenUpvals(g));
    }
  
    ghost predicate ListsOk()
      reads this
    {
      Inv(g) && RootListOk(g, rootgc) && UpvalListOk(g, uvhead) && ChainsOk(g, strt)
    }

    /** One string of the chain under the pointer: `kept` are those already swept, `rest` those to come. */
    method SweepOneString(kept: seq<Id>, x: Id, rest: seq<Id>, ghost g0: GState, ghost acts0: seq<Action>)
      returns (kept': seq<Id>, ghost acts: seq<Action>)
      requires ListsOk() && g.phase == SweepString && sweepstrgc < |strt| && strt[sweepstrgc] == kept + [x] + rest
      requires x in g.unswept && Runs(g0, acts0, g) && forall a :: a in acts0 ==> SweepOnly(a)
      modifies this`g, this`strt
      ensures ListsOk() && strt == old(strt)[sweepstrgc := kept' + rest]
      ensures g.phase == SweepString && g.unswept == old(g).unswept - {x}
      ensures Runs(g0, acts, g) && forall a :: a in acts ==> SweepOnly(a)
    {
      hide Inv, RootListOk, UpvalListOk, ChainsOk, Runs;
      StringStepAll(g, x, rootgc, uvhead, strt, sweepstrgc, kept, rest);
      ghost var s, a := g, SweepObject(x, false);
      kept' := if IsDead(g, x) && x !in g.fixed then kept else kept + [x];
      assert kept + [] == kept;
      g := SweepOne(g, x, false);
      strt := strt[sweepstrgc := kept' + rest];
      RunsExtend(g0, acts0, s, a, g);
      acts := acts0 + [a];
    }

    /** `sweepwholelist` on the chain under the pointer. */
    method SweepChain() returns (ghost acts: seq<Action>)
      requires ListsOk() && g.phase == SweepString && sweepstrgc < |strt|
      requires g.unswept == Elems(rootgc) + ChainIds(strt[sweepstrgc..])
      modifies this`g, this`strt
      ensures ListsOk() && |strt| == old(|strt|) && g.phase == SweepString && sweepstrgc < |strt|
      ensures g.unswept == Elems(rootgc) + ChainIds(strt[sweepstrgc + 1..])
      ensures Runs(old(g), acts, g) && forall a :: a in acts ==> SweepOnly(a)
    {
      hide Inv, RootListOk, UpvalListOk, ChainsOk, Apply, Enabled, ChainIds, Elems, Runs;
      var chain, kept := strt[sweepstrgc], [];
      acts := [];
      ghost var strt0, k := strt, sweepstrgc;
      ghost var later, root := ChainIds(strt0[k + 1..]), Elems(rootgc);
      ChainTail(strt, sweepstrgc);
      assert chain[0..] == chain && [] + chain == chain && strt0[k := chain] == strt0;
      NoActs(g);
      for i := 0 to |chain|
        invariant strt == strt0[k := kept + chain[i..]]
        invariant ListsOk() && g.phase == SweepString && g.unswept == root + Elems(chain[i..]) + later
        invariant Runs(old(g), acts, g) && forall a :: a in acts ==> SweepOnly(a)
      {
        var x, rest := chain[i], chain[i + 1..];
        ghost var kept0 := kept;
        assert chain[i..] == [x] + rest && kept + chain[i..] == kept + [x] + rest;
        ChainStepUnswept(g, strt0, k, rootgc, kept, x, rest, strt);
        kept, acts := SweepOneString(kept, x, rest, old(g), acts);
        assert strt0[k := kept0 + [x] + rest][k := kept + rest] == strt0[k := kept + rest];
      }
      NoElems();
      assert chain[|chain|..] == [] && strt[k + 1..] == strt0[k + 1..];
    }

    /** The sweep-string step of `singlestep`; after the last chain the list of objects is next. */
    method SweepStringChain() returns (ghost acts: seq<Action>)
      requires Valid() && g.phase == SweepString
      modifies this
      ensures Valid() && Runs(old(g), acts, g) && forall a :: a in acts ==> SweepOnly(a)
      ensures g.phase == Sweep || (g.phase == SweepString && |strt| - sweepstrgc < old(|strt| - sweepstrgc))
    {
      hide Inv, RootListOk, UpvalListOk, ChainsOk, Apply, Enabled, ChainIds, Elems;
      acts := SweepChain();
      sweepstrgc := sweepstrgc + 1;
      if sweepstrgc >= |strt| {
        ghost var s := g;
        NoChains(strt, sweepstrgc);
        StringsSwept(g, rootgc);
        g := g.(phase := Sweep);
        EndSweepStringKeepsInv(s);
        EndStringAction(s);
        RunsExtend(old(g), acts, s, EndSweepString, g);
        acts := acts + [EndSweepString];
        PhaseLists(s, g, rootgc, uvhead, strt);
        assert rootgc[0..] == rootgc;
      }
    }

    /** `sweeplist` on the list of all objects, for at most `count` of them. */
    method SweepList(count: nat) returns (ghost acts: seq<Action>)
      requires Valid() && g.phase == Sweep
      modifies this
      ensures Valid() && g.phase == Sweep && Runs(old(g), acts, g) && forall a :: a in acts ==> a.SweepObject?
      ensures |acts| <= count && (|acts| == count || sweepgc == |rootgc|)
      ensures sweepgc == |rootgc| || count == 0 || |uvhead| < old(|uvhead|) ||
              (|uvhead| == old(|uvhead|) && |rootgc| - sweepgc < old(|rootgc| - sweepgc))
    {
      hide Inv, RootListOk, UpvalListOk, ChainsOk, Apply, Enabled, Runs;
      acts := [];
      NoActs(g);
      var left: nat := count;
      while sweepgc < |rootgc| && left > 0
        invariant Valid() && g.phase == Sweep && Runs(old(g), acts, g) && forall a :: a in acts ==> a.SweepObject?
        invariant left + |acts| == count
        invariant (|uvhead| == old(|uvhead|) && |rootgc| - sweepgc == old(|rootgc| - sweepgc) && left == count) ||
                  |uvhead| < old(|uvhead|) ||
                  (|uvhead| == old(|uvhead|) && |rootgc| - sweepgc < old(|rootgc| - sweepgc))
        decreases left
      {
        ghost var s := g;
        ghost var a := SweepOneRoot();
        RunsExtend(old(g), acts, s, a, g);
        acts := acts + [a];
        left := left - 1;
      }
    }

    /** The sweep step of `singlestep`. */
    method SweepRoots() returns (ghost acts: seq<Action>)
      requires Valid() && g.phase == Sweep
      modifies this
      ensures Valid() && Runs(old(g), acts, g) && forall a :: a in acts ==> SweepOnly(a)
      ensures if g.phase == Sweep then |acts| == 40 else |acts| <= 41
      ensures g.phase == Finalize ||
              (g.phase == Sweep && (|uvhead| < old(|uvhead|) ||
                                    (|uvhead| == old(|uvhead|) && |rootgc| - sweepgc < old(|rootgc| - sweepgc))))
    {
      hide Inv, RootListOk, UpvalListOk, ChainsOk, Apply, Enabled, Runs, Elems;
      acts := SweepList(GCSWEEPMAX);
      if sweepgc == |rootgc| {
        ghost var s := g;
        NoElems();
        assert rootgc[sweepgc..] == [];
        g := g.(phase := Finalize);
        EndSweepKeepsInv(s);
        EndSweepAction(s);
        RunsExtend(old(g), acts, s, EndSweep, g);
        acts := acts + [EndSweep];
        PhaseLists(s, g, rootgc, uvhead, strt);
      }
    }

    // ----- singlestep and luaC_fullgc -----

    /** The pause step, and the start of the second half of `luaC_fullgc`. */
    method StartMarking() returns (ghost acts: seq<Action>)
      requires Valid() && g.phase in {Pause, Finalize}
      modifies this`g
      ensures Valid() && g.phase == Propagate && g == MarkRoot(old(g)) && acts == [StartCycle] && Runs(old(g), acts, g)
    {
      ghost var s := g;
      hide RootListOk, UpvalListOk, ChainsOk, Sound, ColorInv, MarkPhase;
      StartEnabled(g);
      MarkRootKeepsInv(g);
      MarkRoots();
      hide Inv, MarkValues;
      acts := [StartCycle];
      PhaseLists(s, g, rootgc, uvhead, strt);
      NoActs(s);
      RunsExtend(s, [], s, StartCycle, g);
      assert [] + [StartCycle] == acts;
    }

    /** The propagate step while there are gray objects. */
    method MarkStep() returns (ghost acts: seq<Action>)
      requires Valid() && g.phase == Propagate && g.gray != []
      modifies this`g
      ensures Valid() && g.phase == Propagate && acts == [Action.PropagateOne] && Runs(old(g), acts, g)
      ensures Whites(MarksOf(g)) <= Whites(MarksOf(old(g)))
      ensures Whites(MarksOf(g)) == Whites(MarksOf(old(g))) ==> Elems(g.gray) < Elems(old(g).gray)
    {
      ghost var s := g;
      hide RootListOk, UpvalListOk, ChainsOk, Sound, ColorInv, Shape, HeldKeys, MarkInv, Whites, Elems;
      PropagateShrinks(g);
      PropagateKeepsInv(g);
      PropagateSameKinds(g);
      PropagateAction(g);
      PropagateOne();
      hide Inv, PropagateMark;
      acts := [Action.PropagateOne];
      RootListCarries(s, g, rootgc);
      OtherListsCarry(s, g, uvhead, strt);
      NoActs(s);
      RunsExtend(s, [], s, Action.PropagateOne, g);
      assert [] + acts == acts;
    }

    /** The propagate step when nothing is gray any more. */
    method FinishMarking() returns (ghost acts: seq<Action>)
      requires Valid() && g.phase == Propagate && g.gray == []
      modifies this
      ensures Valid() && g.phase == SweepString && Runs(old(g), acts, g)
      ensures |acts| == 1 && acts[0].AtomicStep?
    {
      ghost var s := g;
      hide Inv, RootListOk, UpvalListOk, ChainsOk, PointersOk, AtomicReady;
      ghost var sep := AtomicPhase();
      AtomicAction(s, uvhead, sep);
      acts := [AtomicStep(uvhead, sep)];
      hide Atomic, Apply, Enabled;
      NoActs(s);
      RunsExtend(s, [], s, acts[0], g);
      assert [] + acts == acts;
    }

    /** The last step of a cycle without finalizers. */
    method FinishCycle()
      requires Valid() && g.phase == Finalize
      modifies this`g
      ensures Valid() && g == old(g).(phase := Pause)
    {
      ghost var s := g;
      hide Inv, RootListOk, UpvalListOk, ChainsOk;
      g := g.(phase := Pause);
      EndCycleKeepsInv(s);
      PhaseLists(s, g, rootgc, uvhead, strt);
    }

    /** `luaC_fullgc` gives up a pause or mark phase: everything is swept back to white. */
    method AbandonMarking()
      requires Valid() && g.phase in {Pause, Propagate}
      modifies this
      ensures Valid() && g == Restart(old(g)) && |strt| == old(|strt|)
    {
      hide Inv, RootListOk, UpvalListOk, ChainsOk, PointersOk;
      ghost var s := g;
      TmuKinds(g);
      RestartKeepsInv(g);
      sweepstrgc, sweepgc := 0, 0;
      g := g.(gray := [], grayagain := [], weak := [], phase := SweepString,
              unswept := set x | x in g.obj && !g.obj[x].OpenUpval? && x !in g.tmudata);
      PhaseLists(s, g, rootgc, uvhead, strt);
      AllUnswept(g, rootgc, strt);
    }

    /** Finish the sweep that is under way. */
    method FinishSweep() returns (ghost acts: seq<Action>)
      requires Valid() && g.phase in {SweepString, Sweep, Finalize}
      modifies this
      ensures Valid() && g.phase == Finalize && Runs(old(g), acts, g) && forall a :: a in acts ==> SweepOnly(a)
    {
      hide Inv, RootListOk, UpvalListOk, ChainsOk, Apply, Enabled, Runs;
      acts := [];
      NoActs(g);
      while g.phase != Finalize
        invariant Valid() && g.phase in {SweepString, Sweep, Finalize}
        invariant Runs(old(g), acts, g) && forall a :: a in acts ==> SweepOnly(a)
        decreases if g.phase == SweepString then 2 else if g.phase == Sweep then 1 else 0,
                  if g.phase == SweepString then |strt| - sweepstrgc else |uvhead|, |rootgc| - sweepgc
      {
        ghost var more, s := [], g;
        if g.phase == SweepString { more := SweepStringChain(); } else { more := SweepRoots(); }
        RunsJoin(old(g), acts, s, more, g);
        acts := acts + more;
      }
    }

    /** The mark phase from the roots to the flip. */
    method FinishMarkPhase(ghost s0: GState)
      requires Valid() && g.phase == Propagate && AllInGraph(s0) && NoFinalizers(s0) && CycleInv(s0, g)
      modifies this
      ensures Valid() && g.phase == SweepString && CycleInv(s0, g)
    {
      hide Inv, RootListOk, UpvalListOk, ChainsOk, PointersOk, Apply, Enabled, Runs, CycleInv, AllInGraph, NoFinalizers;
      while g.gray != []
        invariant Valid() && g.phase == Propagate && CycleInv(s0, g)
        decreases Whites(MarksOf(g)), Elems(g.gray)
      {
        ghost var s := g;
        ghost var acts := MarkStep();
        RunsKeepCycle(s0, s, acts, g);
      }
      ghost var s := g;
      ghost var acts := FinishMarking();
      RunsKeepCycle(s0, s, acts, g);
    }

    /** The sweep that `luaC_fullgc` finishes first changes nothing that is reachable. */
    method FirstSweep()
      requires Valid() && NoFinalizers(g)
      modifies this
      ensures Valid() && g.phase == Finalize && NoFinalizers(g) && SameReach(old(g), g) && Remnant(old(g), g)
    {
      hide Inv, RootListOk, UpvalListOk, ChainsOk, PointersOk, Apply, Enabled, Runs, NoFinalizers, StronglyReachable,
           Remnant;
      if g.phase in {Pause, Propagate} {
        RestartReach(g);
        AbandonMarking();
        assert g.phase == SweepString;
      } else {
        assert g.phase == SweepString || g.phase == Sweep || g.phase == Finalize;
        ReachSelf(g);
      }
      ghost var mid := g;
      ghost var acts := FinishSweep();
      RunsKeepReach(mid, acts, g);
      RunsRemnant(mid, acts, g);
      InvShape(mid);
      RemnantTwice(old(g), mid, g);
    }

    /** `luaC_fullgc`, when no userdata has a finalizer: whatever the collector was doing, it finishes or
        abandons that, runs one whole cycle and stops.  Every object that was strongly reachable is still
        there; every other object is gone, except strings that were fixed or that a strongly reachable
        table held; no object is new, and no reference dangles.  What is left has its contents, and weak tables have
        lost exactly the entries that they must. */
    method FullGC()
      requires Valid() && NoFinalizers(g)
      modifies this
      ensures Valid() && g.phase == Pause && NoDangling(g) && g.obj.Keys <= old(g).obj.Keys && Survives(old(g), g)
      ensures forall x :: StronglyReachable(old(g), x) ==> x in g.obj
      ensures forall x :: x in g.obj ==>
                StronglyReachable(old(g), x) || HeldString(old(g), x) || FixedString(old(g), x)
    {
      hide Inv, RootListOk, UpvalListOk, ChainsOk, PointersOk, Apply, Enabled, Runs, CycleInv, AllInGraph, NoFinalizers,
           StronglyReachable, HeldString, FixedString, NoDangling, Remnant, SameReach, Survives;
      FirstSweep();
      ghost var s0 := g;
      CycleStart(g);
      ghost var acts := StartMarking();
      FinishMarkPhase(s0);
      ghost var q := g;
      acts := FinishSweep();
      SweepOnlyCollects(acts);
      RunsKeepCycle(s0, q, acts, g);
      ghost var r := g;
      CycleEnd(s0, r);
      ReachInGraph(s0);
      FinishCycle();
      SameDangling(r, g);
      SameSurvivors(s0, r, g);
      WholeCollection(old(g), s0, g);
      InvShape(s0);
      RemnantSurvives(old(g), s0, g);
    }
  }

  /** What the cycle did to the remnant of the first sweep, it did to the state before that. */
  lemma WholeCollection(s: GState, s0: GState, r: GState)
    requires Remnant(s, s0) && SameReach(s, s0)
    requires forall x :: StronglyReachable(s0, x) ==> x in r.obj
    requires forall x :: x in r.obj ==>
               x in s0.obj && (StronglyReachable(s0, x) || HeldString(s0, x) || FixedString(s0, x))
    ensures r.obj.Keys <= s.obj.Keys
    ensures forall x :: StronglyReachable(s, x) ==> x in r.obj
    ensures forall x :: x in r.obj ==> StronglyReachable(s, x) || HeldString(s, x) || FixedString(s, x)
  {
    hide StronglyReachable, HeldString, FixedString;
    forall x | x in r.obj ensures StronglyReachable(s, x) || HeldString(s, x) || FixedString(s, x) {
      RemnantStrings(s, s0, x);
    }
  }
}
