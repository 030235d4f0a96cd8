/** The atomic phase: remark, propagate to the end, separate finalizable userdata, clear weak tables
    and flip the white. */
module GcAtomic {
  import opened Seqs
  import opened LuaHeap
  import opened GcMark
  import opened GcTraverse

  // ----- what traversal does to table contents -----

  predicate NodeCompacted(n: Node, n': Node)
  {
    n' == n || (n.val == Nil && n' == Node(Dead, Nil))
  }

  predicate TableCompacted(t: Obj, t': Obj)
  {
    t.Table? && t'.Table? && t'.metatable == t.metatable && t'.arr == t.arr && |t'.nodes| == |t.nodes| &&
    forall i :: 0 <= i < |t.nodes| ==> NodeCompacted(t.nodes[i], t'.nodes[i])
  }

  /** `h'` is `h` with some empty entries' keys made dead. */
  predicate Compacted(h: Graph, h': Graph)
  {
    h'.Keys == h.Keys && forall x :: x in h ==> h'[x] == h[x] || TableCompacted(h[x], h'[x])
  }

  lemma CompactedTransitive(a: Graph, b: Graph, c: Graph)
    requires Compacted(a, b) && Compacted(b, c)
    ensures Compacted(a, c)
  {
    forall x | x in a
      ensures c[x] == a[x] || TableCompacted(a[x], c[x])
    {
      if b[x] != a[x] && c[x] != b[x] {
        forall i | 0 <= i < |a[x].nodes|
          ensures NodeCompacted(a[x].nodes[i], c[x].nodes[i])
        {
          assert NodeCompacted(a[x].nodes[i], b[x].nodes[i]) && NodeCompacted(b[x].nodes[i], c[x].nodes[i]);
        }
      }
    }
  }

  lemma CompactedNode(t: Obj, t': Obj, n: Node)
    requires TableCompacted(t, t') && n.val != Nil
    ensures n in t.nodes <==> n in t'.nodes
  {
    if n in t.nodes {
      var i :| 0 <= i < |t.nodes| && t.nodes[i] == n;
      assert NodeCompacted(t.nodes[i], t'.nodes[i]);
    }
    if n in t'.nodes {
      var i :| 0 <= i < |t'.nodes| && t'.nodes[i] == n;
      assert NodeCompacted(t.nodes[i], t'.nodes[i]);
    }
  }

  lemma CompactedMode(h: Graph, h': Graph, key: Id, mt: Value, mode: char)
    requires Compacted(h, h')
    ensures HasMode(h', key, mt, mode) == HasMode(h, key, mt, mode)
  {
    if mt.Ref? && mt.id in h && h[mt.id].Table? {
      forall n | HasEntry(n, key)
        ensures n in h[mt.id].nodes <==> n in h'[mt.id].nodes
        ensures ModeEntry(h, key, n, mode) <==> ModeEntry(h', key, n, mode)
      {
        if h'[mt.id] != h[mt.id] { CompactedNode(h[mt.id], h'[mt.id], n); }
      }
    }
  }

  lemma CompactedEdges(h: Graph, h': Graph, modeKey: Id, x: Id, c: Id)
    requires Compacted(h, h') && x in h
    ensures Points(h', h'[x], c) == Points(h, h[x], c)
    ensures StrongPoints(h', modeKey, h'[x], c) == StrongPoints(h, modeKey, h[x], c)
  {
    if h[x].Table? {
      CompactedMode(h, h', modeKey, h[x].metatable, 'k');
      CompactedMode(h, h', modeKey, h[x].metatable, 'v');
      forall n: Node | n.val != Nil
        ensures n in h[x].nodes <==> n in h'[x].nodes
      {
        if h'[x] != h[x] { CompactedNode(h[x], h'[x], n); }
      }
    }
  }

  // ----- what a sequence of traversals keeps -----

  /** Only marking happens: white objects may turn non-white, empty entries may lose their key, and the
      lists and weak bits move along.  No reference changes. */
  ghost predicate Progress(s: GState, r: GState)
  {
    r == s.(obj := r.obj, color := r.color, gray := r.gray, grayagain := r.grayagain, weak := r.weak,
            weakKey := r.weakKey, weakVal := r.weakVal) &&
    Compacted(s.obj, r.obj) && s.color.Keys == r.color.Keys == s.obj.Keys &&
    (forall x :: x in s.color && !s.color[x].White? ==> !r.color[x].White?) &&
    (forall x :: x in s.color && r.color[x].White? ==> r.color[x] == s.color[x]) &&
    (forall x :: x in s.grayagain ==> x in r.grayagain) && (forall x :: x in s.weak ==> x in r.weak)
  }

  lemma ProgressTransitive(a: GState, b: GState, c: GState)
    requires Progress(a, b) && Progress(b, c)
    ensures Progress(a, c)
  {
    CompactedTransitive(a.obj, b.obj, c.obj);
  }

  lemma SwabbedCompacted(s: GState, o: Id)
    requires o in s.obj && Listed(s.obj[o])
    ensures Compacted(s.obj, Swabbed(s, o))
  {
    if s.obj[o].Table? {
      assert TableCompacted(s.obj[o], s.obj[o].(nodes := RemoveEmpty(s.obj[o].nodes)));
    }
  }

  lemma PropagateColors(s: GState)
    requires s.color.Keys == s.obj.Keys
    requires s.gray != [] && s.gray[0] in s.obj && Listed(s.obj[s.gray[0]]) && s.color[s.gray[0]] == Gray
    ensures var r := PropagateMark(s);
            r.color.Keys == s.color.Keys &&
            (forall x :: x in s.color && !s.color[x].White? ==> !r.color[x].White?) &&
            (forall x :: x in s.color && r.color[x].White? ==> r.color[x] == s.color[x]) &&
            (forall x :: x in r.gray && x !in s.gray[1..] ==>
               x in s.color && s.color[x].White? && !r.color[x].White?)
  {
    MarkValuesGrows(Swabbed(s, s.gray[0]), Popped(s), GrayRefs(s, s.gray[0]));
  }

  lemma PropagateProgress(s: GState)
    requires Tricolor(s) && s.gray != []
    ensures s.gray[0] in s.obj && Listed(s.obj[s.gray[0]])
    ensures Progress(s, PropagateMark(s))
  {
    PropagateColors(s);
    SwabbedCompacted(s, s.gray[0]);
  }

  lemma PropagateShrinks(s: GState)
    requires Tricolor(s) && s.gray != []
    ensures s.gray[0] in s.obj && Listed(s.obj[s.gray[0]])
    ensures var r := PropagateMark(s);
            Whites(MarksOf(r)) <= Whites(MarksOf(s)) &&
            (Whites(MarksOf(r)) == Whites(MarksOf(s)) ==> Elems(r.gray) < Elems(s.gray))
  {
    var o, r := s.gray[0], PropagateMark(s);
    PropagateColors(s);
    assert o in Elems(s.gray) && o !in s.gray[1..];
    assert forall x :: x in s.gray[1..] ==> x in s.gray;
    if Whites(MarksOf(r)) == Whites(MarksOf(s)) {
      forall x | x in r.gray ensures x in s.gray[1..] {
        assert x !in s.gray[1..] ==> x in Whites(MarksOf(s)) && x !in Whites(MarksOf(r));
      }
      assert o !in Elems(r.gray);
    }
  }

  /** `propagateall`: traverse gray objects until none is left. */
  ghost function PropagateAll(s: GState): GState
    decreases Whites(MarksOf(s)), Elems(s.gray)
  {
    if s.gray == [] || !Tricolor(s) then s
    else
      PropagateShrinks(s);
      PropagateKeepsTricolor(s);
      PropagateAll(PropagateMark(s))
  }

  // ----- what is left to do before every marked object has only marked successors -----

  ghost predicate Settled(s: GState, x: Id)
    requires x in s.obj
  {
    forall c :: StrongPoints(s.obj, s.modeKey, s.obj[x], c) ==> Marked(MarksOf(s), Ref(c))
  }

  /** Every marked object outside the gray list and `pending` has only marked strong successors. */
  ghost predicate Stage(s: GState, pending: set<Id>)
  {
    s.color.Keys == s.obj.Keys &&
    forall x :: x in s.obj && !s.color[x].White? && x !in s.gray && x !in pending ==> Settled(s, x)
  }

  lemma RefsCoverStrong(s: GState, o: Id, c: Id)
    requires o in s.obj && Listed(s.obj[o]) && StrongPoints(s.obj, s.modeKey, s.obj[o], c)
    ensures Ref(c) in GrayRefs(s, o)
  {
    if s.obj[o].Table? { TableRefsAreStrong(s.obj, s.modeKey, s.obj[o], c); }
  }

  lemma SettledKept(s: GState, r: GState, x: Id)
    requires Progress(s, r) && x in s.obj && Settled(s, x)
    ensures Settled(r, x)
  {
    forall c | StrongPoints(r.obj, r.modeKey, r.obj[x], c)
      ensures Marked(MarksOf(r), Ref(c))
    {
      CompactedEdges(s.obj, r.obj, s.modeKey, x, c);
    }
  }

  lemma JustMarkedSettled(s: GState, x: Id)
    requires x in s.color && JustMarked(s.obj, MarksOf(s), x)
    ensures x in s.gray || Settled(s, x)
  {
  }

  lemma PropagateSettles(s: GState)
    requires Tricolor(s) && s.gray != []
    ensures s.gray[0] in s.obj && Listed(s.obj[s.gray[0]]) && s.gray[0] in PropagateMark(s).obj
    ensures Settled(PropagateMark(s), s.gray[0])
  {
    hide MarkInv;
    PropagateProgress(s);
    var o, r := s.gray[0], PropagateMark(s);
    forall c | StrongPoints(r.obj, r.modeKey, r.obj[o], c)
      ensures Marked(MarksOf(r), Ref(c))
    {
      CompactedEdges(s.obj, r.obj, s.modeKey, o, c);
      RefsCoverStrong(s, o, c);
      MarkValuesExtends(Swabbed(s, o), Popped(s), GrayRefs(s, o));
    }
  }

  lemma RecolorJustMarked(h: Graph, m: Marks, x: Id, o: Id)
    requires x in m.color && JustMarked(h, m, x) && x != o
    ensures JustMarked(h, m.(color := m.color[o := Gray]), x)
  {
  }

  lemma PropagateNew(s: GState, x: Id)
    requires Tricolor(s) && s.gray != [] && x in s.color && s.color[x].White?
    ensures s.gray[0] in s.obj && Listed(s.obj[s.gray[0]])
    ensures var r := PropagateMark(s);
            x in r.color && x in r.obj && (r.color[x].White? || x in r.gray || Settled(r, x))
  {
    PropagateProgress(s);
    var o, r := s.gray[0], PropagateMark(s);
    PropagateColors(s);
    assert Popped(s).color.Keys <= r.obj.Keys;
    hide MarkInv;
    if !r.color[x].White? {
      var m := MarkValues(Swabbed(s, o), Popped(s), GrayRefs(s, o));
      assert JustMarked(r.obj, m, x) by { MarkValuesExtends(r.obj, Popped(s), GrayRefs(s, o)); }
      RecolorJustMarked(r.obj, m, x, o);
      JustMarkedSettled(r, x);
    }
  }

  lemma PropagateStage(s: GState, pending: set<Id>)
    requires Tricolor(s) && s.gray != [] && Stage(s, pending)
    ensures s.gray[0] in s.obj && Listed(s.obj[s.gray[0]])
    ensures Stage(PropagateMark(s), pending)
  {
    var o, r := s.gray[0], PropagateMark(s);
    PropagateProgress(s);
    forall x | x in r.obj && !r.color[x].White? && x !in r.gray && x !in pending
      ensures Settled(r, x)
    {
      if x == o {
        PropagateSettles(s);
      } else if s.color[x].White? {
        PropagateNew(s, x);
      } else {
        MarkValuesExtends(Swabbed(s, o), Popped(s), GrayRefs(s, o));
        SettledKept(s, r, x);
      }
    }
  }

  lemma {:induction false} PropagateAllKeeps(s: GState, pending: set<Id>)
    requires Tricolor(s) && Stage(s, pending)
    ensures var r := PropagateAll(s);
            Tricolor(r) && Progress(s, r) && r.gray == [] && Stage(r, pending)
    decreases Whites(MarksOf(s)), Elems(s.gray)
  {
    if s.gray != [] {
      PropagateShrinks(s);
      PropagateKeepsTricolor(s);
      PropagateProgress(s);
      PropagateStage(s, pending);
      PropagateAllKeeps(PropagateMark(s), pending);
      ProgressTransitive(s, PropagateMark(s), PropagateAll(s));
    }
  }
}
