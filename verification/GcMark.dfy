/** Marking: `reallymarkobject` and the mark macros, on the colours and the gray list. */
module GcMark {
  import opened Seqs
  import opened LuaHeap

  /** What marking changes: the colours and the list of gray objects still to traverse. */
  datatype Marks = Marks(color: map<Id, Color>, gray: seq<Id>)

  function Whites(m: Marks): set<Id>
  {
    set x | x in m.color && m.color[x].White?
  }

  /** Objects that go through the gray list; the others are finished by `reallymarkobject` itself. */
  predicate Listed(o: Obj)
  {
    o.Closure? || o.Table? || o.Thread? || o.Proto?
  }

  function MarkObject(h: Graph, m: Marks, o: Id): (r: Marks)
    ensures Whites(r) <= Whites(m)
    decreases Whites(m), 0
  {
    if o in m.color && m.color[o].White? && o in h then
      var m1 := m.(color := m.color[o := Gray]);
      assert o in Whites(m) && Whites(m1) <= Whites(m) && o !in Whites(m1);
      match h[o]
      case Str(_) => m1
      case Udata(mt, env) =>
        var m2 := m.(color := m.color[o := Black]);
        assert Whites(m2) == Whites(m1);
        MarkValue(h, MarkValue(h, m2, mt), env)
      case OpenUpval(_, _) => MarkValue(h, m1, UpvalValue(h, h[o]))
      case ClosedUpval(v) =>
        var m2 := MarkValue(h, m1, v);
        m2.(color := m2.color[o := Black])
      case _ => m1.(gray := [o] + m1.gray)
    else m
  }

  function MarkValue(h: Graph, m: Marks, v: Value): (r: Marks)
    ensures Whites(r) <= Whites(m)
    decreases Whites(m), 1
  {
    if v.Ref? then MarkObject(h, m, v.id) else m
  }

  function MarkValues(h: Graph, m: Marks, vs: seq<Value>): Marks
    decreases |vs|
  {
    if vs == [] then m else MarkValues(h, MarkValue(h, m, vs[0]), vs[1..])
  }

  // ----- what marking does -----

  predicate Marked(m: Marks, v: Value)
  {
    v.Ref? && v.id in m.color ==> !m.color[v.id].White?
  }

  predicate AllMarked(m: Marks, vs: seq<Value>)
  {
    forall v :: v in vs ==> Marked(m, v)
  }

  /** How `reallymarkobject` leaves an object it has marked. */
  ghost predicate JustMarked(h: Graph, m: Marks, x: Id)
    requires x in m.color
  {
    x in h &&
    match h[x]
    case Str(_) => m.color[x] == Gray
    case Udata(mt, env) => m.color[x] == Black && Marked(m, mt) && Marked(m, env)
    case OpenUpval(_, _) => m.color[x] == Gray && Marked(m, UpvalValue(h, h[x]))
    case ClosedUpval(v) => m.color[x] == Black && Marked(m, v)
    case _ => m.color[x] == Gray && x in m.gray
  }

  /** Marking only turns white objects non-white, and accounts for each of them. */
  ghost predicate Extends(h: Graph, m: Marks, r: Marks)
  {
    r.color.Keys == m.color.Keys &&
    (forall x :: x in m.color && !m.color[x].White? ==> r.color[x] == m.color[x]) &&
    (forall x :: x in m.color && r.color[x].White? ==> r.color[x] == m.color[x]) &&
    (forall x :: x in m.color && m.color[x].White? && !r.color[x].White? ==> JustMarked(h, r, x)) &&
    (forall x :: x in m.gray ==> x in r.gray) &&
    (forall x :: x in r.gray && x !in m.gray ==>
       x in m.color && x in h && Listed(h[x]) && m.color[x].White? && r.color[x] == Gray)
  }

  /** The gray list has no duplicates and holds no white object. */
  predicate ListOk(m: Marks)
  {
    Distinct(m.gray) && forall x :: x in m.gray ==> x in m.color && !m.color[x].White?
  }

  lemma ExtendsTransitive(h: Graph, a: Marks, b: Marks, c: Marks)
    requires Extends(h, a, b) && Extends(h, b, c)
    ensures Extends(h, a, c)
  {
    forall x | x in a.color && a.color[x].White? && !c.color[x].White?
      ensures JustMarked(h, c, x)
    {
      if !b.color[x].White? {
        assert JustMarked(h, b, x);
      }
    }
  }

  /** Finishing a userdata or closed upvalue `o` after marking on from it. */
  lemma BlackenExtends(h: Graph, m: Marks, o: Id, m1: Marks, m2: Marks)
    requires o in m.color && o in h && m.color[o].White?
    requires m1 == m.(color := m.color[o := Gray]) || m1 == m.(color := m.color[o := Black])
    requires Extends(h, m1, m2)
    requires match h[o]
             case Udata(mt, env) => Marked(m2, mt) && Marked(m2, env)
             case ClosedUpval(v) => Marked(m2, v)
             case _ => false
    ensures Extends(h, m, m2.(color := m2.color[o := Black]))
  {
    var r := m2.(color := m2.color[o := Black]);
    forall x | x in m.color && m.color[x].White? && !r.color[x].White?
      ensures JustMarked(h, r, x)
    {
      if x != o {
        assert JustMarked(h, m2, x);
      }
    }
  }

  lemma GrayExtends(h: Graph, m: Marks, o: Id, m2: Marks)
    requires o in m.color && o in h && m.color[o].White? && h[o].OpenUpval?
    requires Extends(h, m.(color := m.color[o := Gray]), m2) && Marked(m2, UpvalValue(h, h[o]))
    ensures Extends(h, m, m2) && Marked(m2, Ref(o))
  {
    forall x | x in m.color && m.color[x].White? && !m2.color[x].White?
      ensures JustMarked(h, m2, x)
    {
    }
  }

  lemma StringExtends(h: Graph, m: Marks, o: Id)
    requires o in m.color && o in h && m.color[o].White? && h[o].Str?
    ensures Extends(h, m, m.(color := m.color[o := Gray]))
  {
  }

  lemma ListExtends(h: Graph, m: Marks, o: Id)
    requires o in m.color && o in h && m.color[o].White? && Listed(h[o])
    ensures Extends(h, m, Marks(m.color[o := Gray], [o] + m.gray))
  {
  }

  lemma UdataExtends(h: Graph, m: Marks, o: Id, m2: Marks, m3: Marks, m4: Marks)
    requires o in m.color && o in h && m.color[o].White? && h[o].Udata? && m2 == m.(color := m.color[o := Black])
    requires Extends(h, m2, m3) && Marked(m3, h[o].metatable) && Extends(h, m3, m4) && Marked(m4, h[o].env)
    ensures Extends(h, m, m4) && Marked(m4, Ref(o))
  {
    hide JustMarked;
    ExtendsTransitive(h, m2, m3, m4);
    BlackenExtends(h, m, o, m2, m4);
    assert m4.color == m4.color[o := Black];
  }

  lemma UnmarkedExtends(h: Graph, m: Marks, o: Id)
    requires !(o in m.color && m.color[o].White?)
    ensures Extends(h, m, m) && Marked(m, Ref(o))
  {
  }

  lemma {:induction false} MarkObjectExtends(h: Graph, m: Marks, o: Id)
    requires m.color.Keys <= h.Keys
    ensures Extends(h, m, MarkObject(h, m, o)) && Marked(MarkObject(h, m, o), Ref(o))
    decreases Whites(m), 0
  {
    hide Extends;
    if o in m.color && m.color[o].White? {
      var m1, m2 := m.(color := m.color[o := Gray]), m.(color := m.color[o := Black]);
      assert o in Whites(m) && Whites(m1) <= Whites(m) && o !in Whites(m1) && Whites(m2) == Whites(m1);
      match h[o]
      case Udata(mt, env) =>
        var m3 := MarkValue(h, m2, mt);
        MarkValueExtends(h, m2, mt);
        ExtendsKeys(h, m2, m3);
        MarkValueExtends(h, m3, env);
        UdataExtends(h, m, o, m2, m3, MarkValue(h, m3, env));
      case OpenUpval(_, _) =>
        MarkValueExtends(h, m1, UpvalValue(h, h[o]));
        GrayExtends(h, m, o, MarkValue(h, m1, UpvalValue(h, h[o])));
      case ClosedUpval(v) =>
        MarkValueExtends(h, m1, v);
        BlackenExtends(h, m, o, m1, MarkValue(h, m1, v));
      case Str(_) => StringExtends(h, m, o);
      case _ => ListExtends(h, m, o);
    } else {
      UnmarkedExtends(h, m, o);
    }
  }

  lemma ExtendsKeys(h: Graph, m: Marks, r: Marks)
    requires Extends(h, m, r)
    ensures r.color.Keys == m.color.Keys
  {
  }

  lemma {:induction false} MarkObjectListOk(h: Graph, m: Marks, o: Id)
    requires m.color.Keys <= h.Keys && ListOk(m)
    ensures ListOk(MarkObject(h, m, o))
    decreases Whites(m), 0
  {
    if o in m.color && m.color[o].White? {
      var m1 := m.(color := m.color[o := Gray]);
      assert o in Whites(m) && Whites(m1) <= Whites(m) && o !in Whites(m1);
      match h[o]
      case Udata(mt, env) =>
        var m2 := m.(color := m.color[o := Black]);
        assert Whites(m2) == Whites(m1);
        MarkValueListOk(h, m2, mt);
        MarkValueExtends(h, m2, mt);
        MarkValueListOk(h, MarkValue(h, m2, mt), env);
      case OpenUpval(_, _) =>
        MarkValueListOk(h, m1, UpvalValue(h, h[o]));
      case ClosedUpval(v) =>
        MarkValueListOk(h, m1, v);
      case _ =>
    }
  }

  lemma MarkValueListOk(h: Graph, m: Marks, v: Value)
    requires m.color.Keys <= h.Keys && ListOk(m)
    ensures ListOk(MarkValue(h, m, v))
    decreases Whites(m), 1
  {
    if v.Ref? { MarkObjectListOk(h, m, v.id); }
  }

  lemma {:induction false} MarkValuesListOk(h: Graph, m: Marks, vs: seq<Value>)
    requires m.color.Keys <= h.Keys && ListOk(m)
    ensures ListOk(MarkValues(h, m, vs))
    decreases |vs|
  {
    if vs != [] {
      MarkValueListOk(h, m, vs[0]);
      MarkValueExtends(h, m, vs[0]);
      MarkValuesListOk(h, MarkValue(h, m, vs[0]), vs[1..]);
    }
  }

  lemma MarkValueExtends(h: Graph, m: Marks, v: Value)
    requires m.color.Keys <= h.Keys
    ensures Extends(h, m, MarkValue(h, m, v)) && Marked(MarkValue(h, m, v), v)
    decreases Whites(m), 1
  {
    if v.Ref? { MarkObjectExtends(h, m, v.id); }
  }

  lemma {:induction false} MarkValuesExtends(h: Graph, m: Marks, vs: seq<Value>)
    requires m.color.Keys <= h.Keys
    ensures Extends(h, m, MarkValues(h, m, vs)) && AllMarked(MarkValues(h, m, vs), vs)
    decreases |vs|
  {
    if vs != [] {
      var m1 := MarkValue(h, m, vs[0]);
      MarkValueExtends(h, m, vs[0]);
      MarkValuesExtends(h, m1, vs[1..]);
      ExtendsTransitive(h, m, m1, MarkValues(h, m1, vs[1..]));
    }
  }

  /** The part of `Extends` that does not look at the objects. */
  ghost predicate Grows(m: Marks, r: Marks)
  {
    r.color.Keys == m.color.Keys &&
    (forall x :: x in m.color && !m.color[x].White? ==> r.color[x] == m.color[x]) &&
    (forall x :: x in m.color && r.color[x].White? ==> r.color[x] == m.color[x]) &&
    (forall x :: x in r.gray && x !in m.gray ==> x in m.color && m.color[x].White? && r.color[x] == Gray)
  }

  lemma MarkValuesGrows(h: Graph, m: Marks, vs: seq<Value>)
    requires m.color.Keys <= h.Keys
    ensures Grows(m, MarkValues(h, m, vs))
  {
    MarkValuesExtends(h, m, vs);
  }

  // ----- marking stays inside every closed set that contains its starting points -----

  /** `z` contains the strong successors of each of its members. */
  ghost predicate ClosedUnder(h: Graph, modeKey: Id, z: set<Id>)
  {
    forall x, c :: x in z && x in h && StrongPoints(h, modeKey, h[x], c) ==> c in z
  }

  ghost predicate Within(m: Marks, r: Marks, z: set<Id>)
  {
    forall x :: x in m.color && x in r.color && m.color[x].White? && !r.color[x].White? ==> x in z
  }

  lemma {:induction false} MarkObjectWithin(h: Graph, modeKey: Id, m: Marks, o: Id, z: set<Id>)
    requires m.color.Keys <= h.Keys && ClosedUnder(h, modeKey, z) && o in z
    ensures Within(m, MarkObject(h, m, o), z)
    decreases Whites(m), 0
  {
    MarkObjectExtends(h, m, o);
    if o in m.color && m.color[o].White? {
      var m1 := m.(color := m.color[o := Gray]);
      assert o in Whites(m) && Whites(m1) <= Whites(m) && o !in Whites(m1);
      match h[o]
      case Udata(mt, env) =>
        var m2 := m.(color := m.color[o := Black]);
        assert Whites(m2) == Whites(m1);
        var m3 := MarkValue(h, m2, mt);
        MarkValueExtends(h, m2, mt);
        MarkValueExtends(h, m3, env);
        assert mt.Ref? ==> StrongPoints(h, modeKey, h[o], mt.id);
        assert env.Ref? ==> StrongPoints(h, modeKey, h[o], env.id);
        MarkValueWithin(h, modeKey, m2, mt, z);
        MarkValueWithin(h, modeKey, m3, env, z);
      case OpenUpval(_, _) =>
        var v := UpvalValue(h, h[o]);
        assert v.Ref? ==> StrongPoints(h, modeKey, h[o], v.id);
        MarkValueExtends(h, m1, v);
        MarkValueWithin(h, modeKey, m1, v, z);
      case ClosedUpval(v) =>
        assert v.Ref? ==> StrongPoints(h, modeKey, h[o], v.id);
        MarkValueExtends(h, m1, v);
        MarkValueWithin(h, modeKey, m1, v, z);
      case _ =>
    }
  }

  lemma MarkValueWithin(h: Graph, modeKey: Id, m: Marks, v: Value, z: set<Id>)
    requires m.color.Keys <= h.Keys && ClosedUnder(h, modeKey, z) && (v.Ref? ==> v.id in z)
    ensures Within(m, MarkValue(h, m, v), z)
    decreases Whites(m), 1
  {
    if v.Ref? { MarkObjectWithin(h, modeKey, m, v.id, z); }
  }

  lemma {:induction false} MarkValuesWithin(h: Graph, modeKey: Id, m: Marks, vs: seq<Value>, z: set<Id>)
    requires m.color.Keys <= h.Keys && ClosedUnder(h, modeKey, z)
    requires forall v :: v in vs && v.Ref? ==> v.id in z
    ensures Within(m, MarkValues(h, m, vs), z)
    decreases |vs|
  {
    if vs != [] {
      var m1 := MarkValue(h, m, vs[0]);
      MarkValueExtends(h, m, vs[0]);
      MarkValueWithin(h, modeKey, m, vs[0], z);
      MarkValuesExtends(h, m1, vs[1..]);
      MarkValuesWithin(h, modeKey, m1, vs[1..], z);
    }
  }
}
