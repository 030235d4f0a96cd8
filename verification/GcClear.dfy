/** The rest of the atomic phase: open upvalues, finalizable userdata, weak tables, the white flip. */
module GcClear {
  import opened Seqs
  import opened LuaHeap
  import opened GcMark
  import opened GcTraverse
  import opened GcAtomic

  // ----- remarkupvals -----

  /** Mark the values of the gray upvalues in the `uvhead` list. */
  function RemarkUpvals(h: Graph, m: Marks, uvs: seq<Id>): Marks
    decreases |uvs|
  {
    if uvs == [] then m
    else
      var u := uvs[0];
      var m1 := if u in h && u in m.color && h[u].OpenUpval? && m.color[u] == Gray
                then MarkValue(h, m, UpvalValue(h, h[u])) else m;
      RemarkUpvals(h, m1, uvs[1..])
  }

  lemma {:induction false} RemarkUpvalsExtends(h: Graph, m: Marks, uvs: seq<Id>)
    requires m.color.Keys <= h.Keys && ListOk(m)
    ensures var r := RemarkUpvals(h, m, uvs);
            Extends(h, m, r) && ListOk(r) &&
            forall u :: u in uvs && u in h && u in m.color && h[u].OpenUpval? && m.color[u] == Gray ==>
              Marked(r, UpvalValue(h, h[u]))
    decreases |uvs|
  {
    if uvs != [] {
      var u := uvs[0];
      var m1 := m;
      if u in h && u in m.color && h[u].OpenUpval? && m.color[u] == Gray {
        m1 := MarkValue(h, m, UpvalValue(h, h[u]));
        MarkValueExtends(h, m, UpvalValue(h, h[u]));
        MarkValueListOk(h, m, UpvalValue(h, h[u]));
      }
      RemarkUpvalsExtends(h, m1, uvs[1..]);
      ExtendsTransitive(h, m, m1, RemarkUpvals(h, m1, uvs[1..]));
    }
  }

  // ----- luaC_separateudata and marktmu -----

  /** Userdata that the current cycle found unreachable and that have not been looked at before. */
  predicate Candidate(s: GState, u: Id)
  {
    u in s.obj && s.obj[u].Udata? && u !in s.tmudata && u in s.color && s.color[u].White? && u !in s.finalized
  }

  predicate NeedsFinalizer(s: GState, u: Id)
  {
    Candidate(s, u) && HasGcMethod(s.obj, s.gcKey, s.obj[u].metatable)
  }

  /** Move the candidates with a finalizer, in the order `sep` of the userdata list, to `tmudata`. */
  function Separate(s: GState, sep: seq<Id>): GState
  {
    s.(tmudata := s.tmudata + sep, finalized := s.finalized + set u | u in s.obj && Candidate(s, u))
  }

  function MarkTmu(h: Graph, m: Marks, cur: bool, us: seq<Id>): Marks
    decreases |us|
  {
    if us == [] then m
    else MarkTmu(h, MarkObject(h, m.(color := m.color[us[0] := White(cur)]), us[0]), cur, us[1..])
  }

  /** Marking a waiting userdata anew leaves it finished and keeps what was marked. */
  lemma RemarkUdata(h: Graph, m: Marks, cur: bool, u: Id, grayagain: seq<Id>, weak: seq<Id>, exempt: set<Id>)
    requires MarkInv(h, m, grayagain, weak, exempt + {u}) && ListOk(m) && u in h && h[u].Udata?
    ensures var r := MarkObject(h, m.(color := m.color[u := White(cur)]), u);
            MarkInv(h, r, grayagain, weak, exempt) && ListOk(r) &&
            (forall x :: x in m.color && !m.color[x].White? ==> !r.color[x].White?) &&
            (forall x :: x in m.color && m.color[x].White? && !r.color[x].White? ==> JustMarked(h, r, x)) &&
            (forall x :: x in m.color && r.color[x].White? ==> r.color[x] == m.color[x]) &&
            JustMarked(h, r, u) && (forall x :: x in m.gray ==> x in r.gray)
  {
    var m1 := m.(color := m.color[u := White(cur)]);
    var r := MarkObject(h, m1, u);
    MarkObjectExtends(h, m1, u);
    MarkObjectListOk(h, m1, u);
    forall x | x in h && x !in exempt && r.color[x] == Black
      ensures BlackOk(r, h[x])
    {
      if x == u || m.color[x] != Black {
        assert JustMarked(h, r, x);
      } else {
        RemarkedBlackOk(h, m, m1, r, u, h[x]);
      }
    }
    forall x | x in h && x !in exempt && r.color[x] == Gray
      ensures h[x].Str? || h[x].OpenUpval? || x in r.gray || x in grayagain || x in weak
    {
      if x == u || m.color[x] != Gray {
        assert JustMarked(h, r, x);
      }
    }
  }

  lemma RemarkedBlackOk(h: Graph, m: Marks, m1: Marks, r: Marks, u: Id, o: Obj)
    requires u in m1.color && m1.color == m.color[u := m1.color[u]] && Extends(h, m1, r) && Marked(r, Ref(u))
    requires BlackOk(m, o)
    ensures BlackOk(r, o)
  {
    assert forall v :: Marked(m, v) ==> Marked(r, v);
  }

  /** How marking with a moving white, as `marktmu` does it, relates to what was marked before. */
  ghost predicate Grown(h: Graph, m: Marks, r: Marks)
  {
    r.color.Keys == m.color.Keys == h.Keys &&
    (forall x :: x in m.color && !m.color[x].White? ==> !r.color[x].White?) &&
    (forall x :: x in m.color && r.color[x].White? ==> r.color[x] == m.color[x]) &&
    (forall x :: x in m.gray ==> x in r.gray) &&
    (forall x :: x in h && h[x].OpenUpval? && m.color[x].White? && !r.color[x].White? ==>
       Marked(r, UpvalValue(h, h[x])))
  }

  lemma {:induction false} MarkTmuKeeps(h: Graph, m: Marks, cur: bool, us: seq<Id>,
                                        grayagain: seq<Id>, weak: seq<Id>)
    requires MarkInv(h, m, grayagain, weak, Elems(us)) && ListOk(m)
    requires forall u :: u in us ==> u in h && h[u].Udata?
    ensures var r := MarkTmu(h, m, cur, us);
            MarkInv(h, r, grayagain, weak, {}) && ListOk(r) && Grown(h, m, r) &&
            forall u :: u in us ==> Marked(r, Ref(u))
    decreases |us|
  {
    if us == [] {
      assert Elems(us) == {};
    } else {
      assert Elems(us) <= Elems(us[1..]) + {us[0]};
      assert MarkInv(h, m, grayagain, weak, Elems(us[1..]) + {us[0]});
      RemarkUdata(h, m, cur, us[0], grayagain, weak, Elems(us[1..]));
      var m1 := MarkObject(h, m.(color := m.color[us[0] := White(cur)]), us[0]);
      assert Grown(h, m, m1);
      MarkTmuKeeps(h, m1, cur, us[1..], grayagain, weak);
      GrownTransitive(h, m, m1, MarkTmu(h, m1, cur, us[1..]));
    }
  }

  lemma GrownTransitive(h: Graph, a: Marks, b: Marks, c: Marks)
    requires Grown(h, a, b) && Grown(h, b, c)
    ensures Grown(h, a, c)
  {
    forall x | x in h && h[x].OpenUpval? && a.color[x].White? && !c.color[x].White?
      ensures Marked(c, UpvalValue(h, h[x]))
    {
      if !b.color[x].White? {
        assert Marked(b, UpvalValue(h, h[x]));
      }
    }
  }

  // ----- cleartable -----

  /** `iscleared` for a value: a dead object, or a userdata being finalized.  Strings are never cleared. */
  predicate ClearedValue(s: GState, v: Value)
  {
    v.Ref? && v.id in s.obj && v.id in s.color && !s.obj[v.id].Str? &&
    (s.color[v.id].White? || (s.obj[v.id].Udata? && v.id in s.finalized))
  }

  /** `iscleared` for a key: userdata being finalized are kept. */
  predicate ClearedKey(s: GState, k: Key)
  {
    k.Live? && k.v.Ref? && k.v.id in s.obj && k.v.id in s.color && !s.obj[k.v.id].Str? && s.color[k.v.id].White?
  }

  function ClearArray(s: GState, arr: seq<Value>): (r: seq<Value>)
    ensures |r| == |arr|
  {
    seq(|arr|, i requires 0 <= i < |arr| => if ClearedValue(s, arr[i]) then Nil else arr[i])
  }

  function ClearNode(s: GState, n: Node): Node
  {
    if n.val != Nil && (ClearedKey(s, n.key) || ClearedValue(s, n.val)) then
      Node(if n.key.Live? && n.key.v.Ref? then Dead else n.key, Nil)
    else n
  }

  function ClearTable(s: GState, t: Obj, weakVal: bool): Obj
    requires t.Table?
  {
    t.(arr := if weakVal then ClearArray(s, t.arr) else t.arr,
       nodes := seq(|t.nodes|, i requires 0 <= i < |t.nodes| => ClearNode(s, t.nodes[i])))
  }

  /** The strings that `iscleared` marks while it looks through the table `t`. */
  predicate KeepsString(s: GState, t: Obj, weakVal: bool, x: Id)
    requires t.Table?
  {
    (weakVal && Ref(x) in t.arr) ||
    exists n :: n in t.nodes && n.val != Nil &&
                (n.key == Live(Ref(x)) || (!ClearedKey(s, n.key) && n.val == Ref(x)))
  }

  predicate StringKept(s: GState, x: Id)
  {
    x in s.obj && s.obj[x].Str? &&
    exists t :: t in s.weak && t in s.obj && s.obj[t].Table? && KeepsString(s, s.obj[t], t in s.weakVal, x)
  }

  /** `cleartable(g->weak)`. */
  function ClearTables(s: GState): GState
  {
    s.(obj := map x | x in s.obj ::
                if x in s.weak && s.obj[x].Table? then ClearTable(s, s.obj[x], x in s.weakVal) else s.obj[x],
       color := map x | x in s.color ::
                if s.color[x].White? && StringKept(s, x) then Gray else s.color[x])
  }

  /** The weak bits of the listed tables say what their metatables say. */
  predicate BitsOk(s: GState)
  {
    forall x :: x in s.weak ==>
      x in s.obj && s.obj[x].Table? &&
      (x in s.weakKey <==> IsWeak(s, x, 'k')) && (x in s.weakVal <==> IsWeak(s, x, 'v'))
  }

  /** Marking is over: nothing is pending, and gray objects are strings, open upvalues, threads and the
      tables in the weak list. */
  ghost predicate MarkingDone(s: GState)
  {
    Tricolor(s) && s.gray == [] && Stage(s, {}) && BitsOk(s) &&
    (forall x :: x in s.grayagain ==> x in s.obj && s.obj[x].Thread?) &&
    (forall x :: x in s.tmudata ==> x in s.obj && s.obj[x].Udata?)
  }

  /** Every reference names an existing object. */
  ghost predicate NoDangling(s: GState)
  {
    forall x, c :: x in s.obj && Points(s.obj, s.obj[x], c) ==> c in s.obj
  }

  lemma ColorAfterClear(s: GState, c: Id)
    requires c in s.color && (!s.color[c].White? || StringKept(s, c))
    ensures !ClearTables(s).color[c].White?
  {
  }

  lemma ClearedArrayEdge(s: GState, x: Id, c: Id)
    requires c in s.obj && c in s.color && x in s.obj && x in s.weak && s.obj[x].Table? && x in s.weakVal
    requires Ref(c) in ClearArray(s, s.obj[x].arr)
    ensures Ref(c) in s.obj[x].arr && (!s.color[c].White? || StringKept(s, c))
  {
    var arr := ClearArray(s, s.obj[x].arr);
    var i :| 0 <= i < |arr| && arr[i] == Ref(c);
    assert s.obj[x].arr[i] == Ref(c) && !ClearedValue(s, Ref(c));
    if s.obj[c].Str? { assert KeepsString(s, s.obj[x], true, c); }
  }

  lemma ClearedNodeEdge(s: GState, x: Id, n: Node, c: Id)
    requires c in s.obj && c in s.color && x in s.obj && x in s.weak && s.obj[x].Table? && n in s.obj[x].nodes
    requires NodePoints(ClearNode(s, n), c)
    ensures NodePoints(n, c) && (!s.color[c].White? || StringKept(s, c))
  {
    assert ClearNode(s, n) == n;
    if s.obj[c].Str? {
      assert KeepsString(s, s.obj[x], x in s.weakVal, c);
      assert StringKept(s, c);
    }
  }

  /** Clearing a table only takes edges away. */
  lemma ClearTableShrinks(s: GState, t: Obj, weakVal: bool, c: Id)
    requires t.Table? && Points(map[], ClearTable(s, t, weakVal), c)
    ensures Points(map[], t, c)
    ensures t.metatable == Ref(c) || Ref(c) in ClearTable(s, t, weakVal).arr ||
            exists n :: n in t.nodes && NodePoints(ClearNode(s, n), c)
  {
    var t' := ClearTable(s, t, weakVal);
    if t'.metatable == Ref(c) {
    } else if Ref(c) in t'.arr {
      var i :| 0 <= i < |t'.arr| && t'.arr[i] == Ref(c);
      assert t.arr[i] == Ref(c);
    } else {
      var n' :| n' in t'.nodes && NodePoints(n', c);
      var i :| 0 <= i < |t'.nodes| && t'.nodes[i] == n';
      assert n' == ClearNode(s, t.nodes[i]) && t.nodes[i] in t.nodes && NodePoints(t.nodes[i], c);
    }
  }

  lemma ClearedTableEdge(s: GState, x: Id, c: Id)
    requires s.color.Keys == s.obj.Keys && NoDangling(s) && BitsOk(s)
    requires x in s.weak && x in s.obj && s.obj[x].Table? && Settled(s, x)
    requires Points(map[], ClearTable(s, s.obj[x], x in s.weakVal), c)
    ensures c in s.obj && (!s.color[c].White? || StringKept(s, c))
  {
    var t, wv := s.obj[x], x in s.weakVal;
    ClearTableShrinks(s, t, wv, c);
    assert Points(s.obj, t, c);
    if t.metatable == Ref(c) || (!wv && Ref(c) in t.arr) {
      assert StrongPoints(s.obj, s.modeKey, t, c);
      assert Marked(MarksOf(s), Ref(c));
    } else if Ref(c) in ClearTable(s, t, wv).arr {
      ClearedArrayEdge(s, x, c);
    } else {
      var n :| n in t.nodes && NodePoints(ClearNode(s, n), c);
      ClearedNodeEdge(s, x, n, c);
    }
  }

  lemma UnclearedEdge(s: GState, x: Id, c: Id)
    requires MarkingDone(s) && x in s.obj && !(x in s.weak && s.obj[x].Table?)
    requires !s.color[x].White? && Points(s.obj, s.obj[x], c) && c in s.obj
    ensures !s.color[c].White?
  {
    if s.obj[x].Table? {
      assert s.color[x] == Black && BlackOk(MarksOf(s), s.obj[x]);
    } else {
      assert StrongPoints(s.obj, s.modeKey, s.obj[x], c);
      assert Settled(s, x) && Marked(MarksOf(s), Ref(c));
    }
  }

  lemma UpvalAfterClear(s: GState, u: Id)
    requires u in s.obj && s.obj[u].OpenUpval?
    ensures var r := ClearTables(s);
            u in r.obj && r.obj[u] == s.obj[u] && UpvalValue(r.obj, r.obj[u]) == UpvalValue(s.obj, s.obj[u])
  {
  }

  lemma PointsAfterClear(s: GState, x: Id, c: Id)
    requires x in s.obj
    ensures x in ClearTables(s).obj
    ensures Points(ClearTables(s).obj, ClearTables(s).obj[x], c) <==>
            if x in s.weak && s.obj[x].Table? then Points(map[], ClearTable(s, s.obj[x], x in s.weakVal), c)
            else Points(s.obj, s.obj[x], c)
  {
    if s.obj[x].OpenUpval? { UpvalAfterClear(s, x); }
  }

  /** After `cleartable`, no marked object refers to a white one by any edge, weak ones included. */
  lemma ClearedClosed(s: GState, x: Id, c: Id)
    requires MarkingDone(s) && NoDangling(s)
    requires var r := ClearTables(s);
             x in r.obj && x in r.color && !r.color[x].White? && Points(r.obj, r.obj[x], c)
    ensures c in s.obj && !ClearTables(s).color[c].White?
  {
    PointsAfterClear(s, x, c);
    if x in s.weak && s.obj[x].Table? {
      assert Settled(s, x);
      ClearedTableEdge(s, x, c);
    } else {
      UnclearedEdge(s, x, c);
    }
    ColorAfterClear(s, c);
  }
}
