/** Traversing gray objects: `traversetable`, `traverseproto`, `traverseclosure`, `traversestack` and
    `propagatemark`, and the tricolour invariant they keep. */
module GcTraverse {
  import opened Seqs
  import opened LuaHeap
  import opened GcMark

  function MarksOf(s: GState): Marks
  {
    Marks(s.color, s.gray)
  }

  function WithMarks(s: GState, m: Marks): GState
  {
    s.(color := m.color, gray := m.gray)
  }

  // ----- the references that a traversal follows, in its order -----

  function Reverse(vs: seq<Value>): seq<Value>
  {
    if vs == [] then [] else [vs[|vs| - 1]] + Reverse(vs[..|vs| - 1])
  }

  function NodeRefs(n: Node, weakKey: bool, weakVal: bool): seq<Value>
  {
    if n.val == Nil then []
    else (if !weakKey && n.key.Live? then [n.key.v] else []) + (if !weakVal then [n.val] else [])
  }

  function NodesRefs(nodes: seq<Node>, weakKey: bool, weakVal: bool): seq<Value>
  {
    if nodes == [] then []
    else NodeRefs(nodes[|nodes| - 1], weakKey, weakVal) + NodesRefs(nodes[..|nodes| - 1], weakKey, weakVal)
  }

  function TableRefs(t: Obj, weakKey: bool, weakVal: bool): seq<Value>
    requires t.Table?
  {
    [t.metatable] +
    if weakKey && weakVal then []
    else (if weakVal then [] else Reverse(t.arr)) + NodesRefs(t.nodes, weakKey, weakVal)
  }

  lemma {:induction false} ReverseMembers(vs: seq<Value>, v: Value)
    ensures v in Reverse(vs) <==> v in vs
  {
    if vs != [] {
      var k := |vs| - 1;
      assert vs == vs[..k] + [vs[k]];
      ReverseMembers(vs[..k], v);
    }
  }

  lemma {:induction false} NodesRefsMembers(nodes: seq<Node>, wk: bool, wv: bool, c: Id)
    ensures Ref(c) in NodesRefs(nodes, wk, wv) <==> exists n :: n in nodes && StrongNode(n, wk, wv, c)
  {
    if nodes != [] {
      var k := |nodes| - 1;
      assert nodes == nodes[..k] + [nodes[k]];
      NodesRefsMembers(nodes[..k], wk, wv, c);
      assert Ref(c) in NodeRefs(nodes[k], wk, wv) <==> StrongNode(nodes[k], wk, wv, c);
    }
  }

  /** A table traversal follows exactly the strong edges of the table. */
  lemma TableRefsAreStrong(h: Graph, modeKey: Id, t: Obj, c: Id)
    requires t.Table?
    ensures var wk, wv := HasMode(h, modeKey, t.metatable, 'k'), HasMode(h, modeKey, t.metatable, 'v');
            Ref(c) in TableRefs(t, wk, wv) <==> StrongPoints(h, modeKey, t, c)
  {
    var wk, wv := HasMode(h, modeKey, t.metatable, 'k'), HasMode(h, modeKey, t.metatable, 'v');
    NodesRefsMembers(t.nodes, wk, wv, c);
    ReverseMembers(t.arr, Ref(c));
    if wk && wv {
      assert forall n :: !StrongNode(n, wk, wv, c);
    }
  }

  /** `removeentry` on every empty entry: a collectable key becomes a dead key. */
  function RemoveEmpty(nodes: seq<Node>): (r: seq<Node>)
    ensures |r| == |nodes|
  {
    seq(|nodes|, i requires 0 <= i < |nodes| =>
      if nodes[i].val == Nil && nodes[i].key.Live? && nodes[i].key.v.Ref? then Node(Dead, Nil) else nodes[i])
  }

  // ----- propagatemark -----

  predicate IsWeak(s: GState, o: Id, mode: char)
    requires o in s.obj && s.obj[o].Table?
  {
    HasMode(s.obj, s.modeKey, s.obj[o].metatable, mode)
  }

  /** The references that the traversal of `o` marks. */
  function GrayRefs(s: GState, o: Id): seq<Value>
    requires o in s.obj && Listed(s.obj[o])
  {
    match s.obj[o]
    case Table(_, _, _) => TableRefs(s.obj[o], IsWeak(s, o, 'k'), IsWeak(s, o, 'v'))
    case Closure(refs) => refs
    case Proto(refs) => refs
    case Thread(globals, stack) => [globals] + stack
  }

  /** Unless both keys and values are weak, traversing a table removes its empty entries. */
  function Swabbed(s: GState, o: Id): Graph
    requires o in s.obj && Listed(s.obj[o])
  {
    if s.obj[o].Table? && !(IsWeak(s, o, 'k') && IsWeak(s, o, 'v')) then
      s.obj[o := s.obj[o].(nodes := RemoveEmpty(s.obj[o].nodes))]
    else s.obj
  }

  /** `gray2black` and the removal from the gray list; a thread is turned gray again at once. */
  function Popped(s: GState): Marks
    requires s.gray != [] && s.gray[0] in s.obj
  {
    Marks(s.color[s.gray[0] := if s.obj[s.gray[0]].Thread? then Gray else Black], s.gray[1..])
  }

  /** Traverse the first gray object, turning it black; a weak table and a thread stay gray. */
  function PropagateMark(s: GState): GState
    requires s.gray != [] && s.gray[0] in s.obj && Listed(s.obj[s.gray[0]])
  {
    var o := s.gray[0];
    var r := WithMarks(s, MarkValues(Swabbed(s, o), Popped(s), GrayRefs(s, o))).(obj := Swabbed(s, o));
    if s.obj[o].Thread? then r.(grayagain := [o] + s.grayagain)
    else if s.obj[o].Table? && (IsWeak(s, o, 'k') || IsWeak(s, o, 'v')) then
      r.(color := r.color[o := Gray],
         weak := [o] + s.weak,
         weakKey := if IsWeak(s, o, 'k') then s.weakKey + {o} else s.weakKey - {o},
         weakVal := if IsWeak(s, o, 'v') then s.weakVal + {o} else s.weakVal - {o})
    else r
  }

  // ----- the tricolour invariant -----

  predicate NodeMarked(m: Marks, n: Node)
  {
    Marked(m, n.val) && (n.key.Live? ==> Marked(m, n.key.v))
  }

  /** A black object is finished: nothing it refers to is white.  Strings, open upvalues and threads
      are never black. */
  predicate BlackOk(m: Marks, o: Obj)
  {
    match o
    case Udata(mt, env) => Marked(m, mt) && Marked(m, env)
    case ClosedUpval(v) => Marked(m, v)
    case Closure(refs) => AllMarked(m, refs)
    case Proto(refs) => AllMarked(m, refs)
    case Table(mt, arr, nodes) =>
      Marked(m, mt) && AllMarked(m, arr) && forall n :: n in nodes ==> NodeMarked(m, n)
    case _ => false
  }

  ghost predicate BlackInv(h: Graph, m: Marks, exempt: set<Id>)
  {
    m.color.Keys == h.Keys &&
    forall x :: x in h && x !in exempt && m.color[x] == Black ==> BlackOk(m, h[x])
  }

  /** A gray object is a marked string, an open upvalue, or waits in one of the lists. */
  ghost predicate GrayInv(h: Graph, m: Marks, grayagain: seq<Id>, weak: seq<Id>, exempt: set<Id>)
  {
    m.color.Keys == h.Keys &&
    forall x :: x in h && x !in exempt && m.color[x] == Gray ==>
      h[x].Str? || h[x].OpenUpval? || x in m.gray || x in grayagain || x in weak
  }

  /** The three lists hold distinct gray objects of the right kinds. */
  ghost predicate ListInv(h: Graph, m: Marks, grayagain: seq<Id>, weak: seq<Id>)
  {
    m.color.Keys == h.Keys && Distinct(m.gray) && Distinct(grayagain) && Distinct(weak) &&
    (forall x :: x in m.gray ==> x in h && Listed(h[x]) && m.color[x] == Gray && x !in grayagain && x !in weak) &&
    (forall x :: x in grayagain ==> x in h && (h[x].Thread? || h[x].Table?) && m.color[x] == Gray && x !in weak) &&
    (forall x :: x in weak ==> x in h && h[x].Table? && m.color[x] == Gray)
  }

  ghost predicate MarkInv(h: Graph, m: Marks, grayagain: seq<Id>, weak: seq<Id>, exempt: set<Id>)
  {
    BlackInv(h, m, exempt) && GrayInv(h, m, grayagain, weak, exempt) && ListInv(h, m, grayagain, weak)
  }

  /** The tricolour invariant.  Userdata that wait for their finalizer are marked anew by every atomic
      phase, whatever their colour, and are exempt. */
  ghost predicate Tricolor(s: GState)
  {
    MarkInv(s.obj, MarksOf(s), s.grayagain, s.weak, Elems(s.tmudata))
  }

  lemma BlackOkMonotone(h: Graph, m: Marks, r: Marks, o: Obj)
    requires Extends(h, m, r) && BlackOk(m, o)
    ensures BlackOk(r, o)
  {
  }

  lemma ExtendsBlackInv(h: Graph, m: Marks, r: Marks, exempt: set<Id>)
    requires Extends(h, m, r) && BlackInv(h, m, exempt)
    ensures BlackInv(h, r, exempt)
  {
    forall x | x in h && x !in exempt && r.color[x] == Black
      ensures BlackOk(r, h[x])
    {
      if m.color[x] == Black {
        BlackOkMonotone(h, m, r, h[x]);
      } else {
        assert JustMarked(h, r, x);
      }
    }
  }

  lemma ExtendsGrayInv(h: Graph, m: Marks, r: Marks, grayagain: seq<Id>, weak: seq<Id>, exempt: set<Id>)
    requires Extends(h, m, r) && GrayInv(h, m, grayagain, weak, exempt)
    ensures GrayInv(h, r, grayagain, weak, exempt)
  {
    forall x | x in h && x !in exempt && r.color[x] == Gray
      ensures h[x].Str? || h[x].OpenUpval? || x in r.gray || x in grayagain || x in weak
    {
      if m.color[x] != Gray {
        assert JustMarked(h, r, x);
      }
    }
  }

  lemma ExtendsListInv(h: Graph, m: Marks, r: Marks, grayagain: seq<Id>, weak: seq<Id>)
    requires Extends(h, m, r) && ListInv(h, m, grayagain, weak) && ListOk(r)
    ensures ListInv(h, r, grayagain, weak)
  {
  }

  // ----- propagatemark keeps the invariant -----

  lemma PopGray(h: Graph, m: Marks, grayagain: seq<Id>, weak: seq<Id>, exempt: set<Id>, c: Color)
    requires MarkInv(h, m, grayagain, weak, exempt) && m.gray != [] && !c.White?
    ensures var o := m.gray[0]; var r := Marks(m.color[o := c], m.gray[1..]);
            MarkInv(h, r, grayagain, weak, exempt + {o}) && ListOk(r) && o in h && o !in r.gray
  {
    var o := m.gray[0];
    var r := Marks(m.color[o := c], m.gray[1..]);
    assert forall x :: x in r.gray ==> x in m.gray && x != o;
    assert forall x :: x in m.gray ==> x in r.gray || x == o;
    forall x | x in h && x !in exempt + {o} && r.color[x] == Black
      ensures BlackOk(r, h[x])
    {
      assert BlackOk(m, h[x]);
    }
  }

  lemma MarkValuesKeeps(h: Graph, m: Marks, vs: seq<Value>, grayagain: seq<Id>, weak: seq<Id>, exempt: set<Id>)
    requires MarkInv(h, m, grayagain, weak, exempt) && ListOk(m)
    ensures MarkInv(h, MarkValues(h, m, vs), grayagain, weak, exempt)
    ensures Extends(h, m, MarkValues(h, m, vs)) && AllMarked(MarkValues(h, m, vs), vs)
    ensures ListOk(MarkValues(h, m, vs))
  {
    MarkValuesExtends(h, m, vs);
    MarkValuesListOk(h, m, vs);
    var r := MarkValues(h, m, vs);
    ExtendsBlackInv(h, m, r, exempt);
    ExtendsGrayInv(h, m, r, grayagain, weak, exempt);
    ExtendsListInv(h, m, r, grayagain, weak);
  }

  /** Replacing a table's empty keys changes nothing that the invariant of the other objects sees. */
  lemma RewriteTable(h: Graph, h': Graph, m: Marks, grayagain: seq<Id>, weak: seq<Id>, exempt: set<Id>, o: Id, t: Obj)
    requires MarkInv(h, m, grayagain, weak, exempt) && o in h && h[o].Table? && o in exempt
    requires t.Table? && (h' == h || h' == h[o := t])
    ensures MarkInv(h', m, grayagain, weak, exempt)
  {
  }

  lemma AllTableRefsMarked(t: Obj, nodes: seq<Node>, m: Marks)
    requires t.Table? && nodes == RemoveEmpty(t.nodes) && AllMarked(m, TableRefs(t, false, false))
    ensures BlackOk(m, Table(t.metatable, t.arr, nodes))
  {
    var refs := TableRefs(t, false, false);
    assert refs == [t.metatable] + (Reverse(t.arr) + NodesRefs(t.nodes, false, false));
    assert t.metatable in refs;
    forall v | v in t.arr ensures Marked(m, v) {
      ReverseMembers(t.arr, v);
      assert v in refs;
    }
    forall n | n in nodes ensures NodeMarked(m, n) {
      var i :| 0 <= i < |nodes| && nodes[i] == n;
      var n0 := t.nodes[i];
      if n0.val.Ref? {
        NodesRefsMembers(t.nodes, false, false, n0.val.id);
        assert StrongNode(n0, false, false, n0.val.id);
        assert n0.val in refs;
      }
      if n0.val != Nil && n0.key.Live? && n0.key.v.Ref? {
        NodesRefsMembers(t.nodes, false, false, n0.key.v.id);
        assert StrongNode(n0, false, false, n0.key.v.id);
        assert n0.key.v in refs;
      }
    }
  }

  /** An object that has been traversed leaves the exempt set. */
  lemma Retire(h: Graph, m: Marks, grayagain: seq<Id>, weak: seq<Id>, exempt: set<Id>, o: Id)
    requires MarkInv(h, m, grayagain, weak, exempt + {o}) && o in h
    requires m.color[o] == Black && BlackOk(m, h[o])
    ensures MarkInv(h, m, grayagain, weak, exempt)
  {
  }

  lemma RetireWeak(h: Graph, m: Marks, grayagain: seq<Id>, weak: seq<Id>, exempt: set<Id>, o: Id)
    requires MarkInv(h, m, grayagain, weak, exempt + {o}) && o in h && h[o].Table? && m.color[o] == Black
    ensures MarkInv(h, m.(color := m.color[o := Gray]), grayagain, [o] + weak, exempt)
  {
    var r := m.(color := m.color[o := Gray]);
    forall x | x in h && x !in exempt && r.color[x] == Black
      ensures BlackOk(r, h[x])
    {
      assert BlackOk(m, h[x]);
    }
  }

  lemma RetireThread(h: Graph, m: Marks, grayagain: seq<Id>, weak: seq<Id>, exempt: set<Id>, o: Id)
    requires MarkInv(h, m, grayagain, weak, exempt + {o}) && o in h && h[o].Thread? && m.color[o] == Gray
    requires o !in m.gray && o !in grayagain && o !in weak
    ensures MarkInv(h, m, [o] + grayagain, weak, exempt)
  {
    forall x | x in h && x !in exempt && m.color[x] == Black
      ensures BlackOk(m, h[x])
    {
      assert BlackOk(m, h[x]);
    }
  }

  lemma PropagateKeepsTricolor(s: GState)
    requires Tricolor(s) && s.gray != []
    ensures s.gray[0] in s.obj && Listed(s.obj[s.gray[0]]) && s.color[s.gray[0]] == Gray
    ensures Tricolor(PropagateMark(s))
  {
    var E, o := Elems(s.tmudata), s.gray[0];
    var h, m := Swabbed(s, o), Popped(s);
    PopGray(s.obj, MarksOf(s), s.grayagain, s.weak, E, if s.obj[o].Thread? then Gray else Black);
    if s.obj[o].Table? {
      RewriteTable(s.obj, h, m, s.grayagain, s.weak, E + {o}, o, s.obj[o].(nodes := RemoveEmpty(s.obj[o].nodes)));
    }
    var refs := GrayRefs(s, o);
    MarkValuesKeeps(h, m, refs, s.grayagain, s.weak, E + {o});
    var m' := MarkValues(h, m, refs);
    if s.obj[o].Thread? {
      RetireThread(h, m', s.grayagain, s.weak, E, o);
    } else if s.obj[o].Table? && (IsWeak(s, o, 'k') || IsWeak(s, o, 'v')) {
      RetireWeak(h, m', s.grayagain, s.weak, E, o);
    } else {
      if s.obj[o].Table? { AllTableRefsMarked(s.obj[o], RemoveEmpty(s.obj[o].nodes), m'); }
      Retire(h, m', s.grayagain, s.weak, E, o);
    }
  }
}
