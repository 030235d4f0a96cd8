/**
 * Captured variables of a thread. An open upvalue points into the thread's stack; a closed one holds its value itself.
 * A pointer into the stack is an address: the address of the stack and the number of the slot together.
 */
module LuaUpvals {
  import opened Seqs

  type Id = nat

  type Value = int

  const EXTRA_STACK := 5

  datatype UpVal = Open(v: int) | Closed(value: Value)

  datatype CallInfo = CallInfo(func: int, base: int, top: int)

  /** What a program reads through an upvalue. */
  function Read(u: UpVal, stack: int, slots: seq<Value>): Value
  {
    match u
    case Closed(x) => x
    case Open(v) => if 0 <= v - stack < |slots| then slots[v - stack] else 0
  }

  // ----- the list of open upvalues -----

  ghost predicate OpenAt(upvals: map<Id, UpVal>, u: Id, stack: int, size: nat)
  {
    u in upvals && upvals[u].Open? && 0 <= upvals[u].v - stack < size
  }

  ghost predicate Above(upvals: map<Id, UpVal>, u: Id, w: Id)
  {
    u in upvals && w in upvals && upvals[u].Open? && upvals[w].Open? && upvals[u].v > upvals[w].v
  }

  /** The list goes down the stack strictly, so that no slot has two, and every open upvalue is in it. */
  ghost predicate Listed(list: seq<Id>, upvals: map<Id, UpVal>, stack: int, size: nat)
  {
    (forall i :: 0 <= i < |list| ==> OpenAt(upvals, list[i], stack, size)) &&
    (forall i, j :: 0 <= i < j < |list| ==> Above(upvals, list[i], list[j])) &&
    forall u :: u in upvals && upvals[u].Open? ==> u in list
  }

  /** A slot has one upvalue at most. */
  lemma OnePerSlot(list: seq<Id>, upvals: map<Id, UpVal>, stack: int, size: nat, u: Id, w: Id)
    requires Listed(list, upvals, stack, size) && u in upvals && w in upvals && upvals[u].Open? &&
             upvals[u] == upvals[w]
    ensures u == w
  {
    var i :| 0 <= i < |list| && list[i] == u;
    var j :| 0 <= j < |list| && list[j] == w;
    assert i < j ==> Above(upvals, list[i], list[j]);
    assert j < i ==> Above(upvals, list[j], list[i]);
  }

  lemma ListedAt(list: seq<Id>, upvals: map<Id, UpVal>, stack: int, size: nat, i: nat)
    requires Listed(list, upvals, stack, size) && i < |list|
    ensures OpenAt(upvals, list[i], stack, size)
  {
  }

  /** The upvalues before place `i` are all above the level, and the one there is below it: the level has none. */
  lemma NotThere(list: seq<Id>, upvals: map<Id, UpVal>, stack: int, size: nat, i: nat, level: int)
    requires Listed(list, upvals, stack, size) && i <= |list|
    requires forall k :: 0 <= k < i ==> list[k] in upvals && upvals[list[k]].Open? && upvals[list[k]].v > level
    requires i < |list| ==> list[i] in upvals && upvals[list[i]].Open? && upvals[list[i]].v < level
    ensures forall u :: u in upvals ==> upvals[u] != Open(level)
    ensures forall k :: i <= k < |list| ==> list[k] in upvals && upvals[list[k]].Open? && upvals[list[k]].v < level
  {
    forall k | i <= k < |list| ensures list[k] in upvals && upvals[list[k]].Open? && upvals[list[k]].v < level {
      if i < k { assert Above(upvals, list[i], list[k]); }
    }
    forall u | u in upvals && upvals[u].Open? ensures upvals[u].v != level {
      var k :| 0 <= k < |list| && list[k] == u;
      assert k < i || i <= k;
    }
  }

  /** A new upvalue in its place. */
  lemma ListedNew(list: seq<Id>, upvals: map<Id, UpVal>, stack: int, size: nat, i: nat, level: int, u: Id)
    requires Listed(list, upvals, stack, size) && i <= |list| && u !in upvals && 0 <= level - stack < size
    requires forall k :: 0 <= k < i ==> list[k] in upvals && upvals[list[k]].Open? && upvals[list[k]].v > level
    requires forall k :: i <= k < |list| ==> list[k] in upvals && upvals[list[k]].Open? && upvals[list[k]].v < level
    ensures Listed(list[..i] + [u] + list[i..], upvals[u := Open(level)], stack, size)
  {
    var longer, upvals' := list[..i] + [u] + list[i..], upvals[u := Open(level)];
    forall k | 0 <= k < |longer| ensures OpenAt(upvals', longer[k], stack, size) {
      if k < i { assert OpenAt(upvals, list[k], stack, size); }
      if k > i { assert OpenAt(upvals, list[k - 1], stack, size); }
    }
    forall a, b | 0 <= a < b < |longer| ensures Above(upvals', longer[a], longer[b]) {
      var a', b' := if a < i then a else a - 1, if b < i then b else b - 1;
      if a != i && b != i { assert Above(upvals, list[a'], list[b']); }
    }
    forall w | w in upvals' && upvals'[w].Open? ensures w in longer {
      if w != u {
        assert w in list;
        assert list == list[..i] + list[i..];
      } else {
        assert longer[i] == u;
      }
    }
  }

  // ----- closing -----

  predicate Closes(u: UpVal, level: int)
  {
    u.Open? && u.v >= level
  }

  /** The upvalues when those at or above the level are closed. Of these the dead ones are freed. */
  function Closing(upvals: map<Id, UpVal>, dead: set<Id>, stack: int, slots: seq<Value>, level: int): map<Id, UpVal>
  {
    map u | u in upvals && !(Closes(upvals[u], level) && u in dead) ::
      if Closes(upvals[u], level) then Closed(Read(upvals[u], stack, slots)) else upvals[u]
  }

  /** Closing changes no value that a program can read. */
  lemma ClosingKeepsReads(upvals: map<Id, UpVal>, dead: set<Id>, stack: int, slots: seq<Value>, level: int, u: Id)
    requires u in upvals && u !in dead
    ensures var after := Closing(upvals, dead, stack, slots, level);
            u in after && Read(after[u], stack, slots) == Read(upvals[u], stack, slots) &&
            (after[u].Open? <==> upvals[u].Open? && upvals[u].v < level)
  {
  }

  /** Of the upvalues in the list, the first is closed; those after it are as before. */
  lemma ListedRest(list: seq<Id>, upvals: map<Id, UpVal>, upvals': map<Id, UpVal>, stack: int, size: nat)
    requires Listed(list, upvals, stack, size) && list != [] && (list[0] in upvals' ==> upvals'[list[0]].Closed?)
    requires upvals'.Keys <= upvals.Keys &&
             forall u :: u in upvals && u != list[0] ==> u in upvals' && upvals'[u] == upvals[u]
    ensures Listed(list[1..], upvals', stack, size)
  {
    var rest := list[1..];
    forall i | 0 <= i < |rest| ensures OpenAt(upvals', rest[i], stack, size) {
      assert OpenAt(upvals, list[i + 1], stack, size) && Above(upvals, list[0], list[i + 1]);
    }
    forall i, j | 0 <= i < j < |rest| ensures Above(upvals', rest[i], rest[j]) {
      assert Above(upvals, list[i + 1], list[j + 1]) && Above(upvals, list[0], list[i + 1]) &&
             Above(upvals, list[0], list[j + 1]);
    }
    forall u | u in upvals' && upvals'[u].Open? ensures u in rest {
      assert u in list;
    }
  }

  /** When the first one left is below the level, everything at or above it is closed. */
  lemma AllBelow(list: seq<Id>, upvals: map<Id, UpVal>, stack: int, size: nat, level: int)
    requires Listed(list, upvals, stack, size) &&
             (list != [] ==> list[0] in upvals && upvals[list[0]].Open? && upvals[list[0]].v < level)
    ensures forall u :: u in upvals ==> !Closes(upvals[u], level)
  {
    forall u | u in upvals && upvals[u].Open? ensures upvals[u].v < level {
      var k :| 0 <= k < |list| && list[k] == u;
      if k > 0 { assert Above(upvals, list[0], list[k]); }
    }
  }

  // ----- moving the stack -----

  /** Every pointer into the stack, moved with it. */
  function Shifted(upvals: map<Id, UpVal>, off: int, these: set<Id>): map<Id, UpVal>
  {
    map u | u in upvals :: if u in these && upvals[u].Open? then Open(upvals[u].v + off) else upvals[u]
  }

  lemma ListedDistinct(list: seq<Id>, upvals: map<Id, UpVal>, stack: int, size: nat)
    requires Listed(list, upvals, stack, size)
    ensures Distinct(list)
  {
    forall i, j | 0 <= i < j < |list| ensures list[i] != list[j] { assert Above(upvals, list[i], list[j]); }
  }

  lemma ListedShifted(list: seq<Id>, upvals: map<Id, UpVal>, stack: int, size: nat, off: int, size': nat)
    requires Listed(list, upvals, stack, size) &&
             forall u :: u in upvals && upvals[u].Open? ==> upvals[u].v - stack < size'
    ensures Listed(list, Shifted(upvals, off, Elems(list)), stack + off, size')
  {
    var upvals' := Shifted(upvals, off, Elems(list));
    forall i | 0 <= i < |list| ensures OpenAt(upvals', list[i], stack + off, size') {
      assert OpenAt(upvals, list[i], stack, size);
    }
    forall i, j | 0 <= i < j < |list| ensures Above(upvals', list[i], list[j]) {
      assert Above(upvals, list[i], list[j]);
    }
  }

  /** Moving the stack changes no value that a program can read. */
  lemma ShiftedKeepsReads(list: seq<Id>, upvals: map<Id, UpVal>, stack: int, slots: seq<Value>, off: int,
                          slots': seq<Value>, u: Id)
    requires Listed(list, upvals, stack, |slots|) && u in upvals && (upvals[u].Open? ==> upvals[u].v - stack < |slots'|)
    requires forall k :: 0 <= k < |slots| && k < |slots'| ==> slots'[k] == slots[k]
    ensures var upvals' := Shifted(upvals, off, Elems(list));
            u in upvals' && (upvals'[u].Open? <==> upvals[u].Open?) &&
            Read(upvals'[u], stack + off, slots') == Read(upvals[u], stack, slots)
  {
    if upvals[u].Open? {
      var k :| 0 <= k < |list| && list[k] == u;
      assert OpenAt(upvals, list[k], stack, |slots|);
    }
  }

  lemma ShiftNone(upvals: map<Id, UpVal>, off: int)
    ensures Shifted(upvals, off, Elems([])) == upvals
  {
  }

  lemma ShiftOne(upvals: map<Id, UpVal>, off: int, list: seq<Id>, i: nat)
    requires Distinct(list) && i < |list| && list[i] in upvals && upvals[list[i]].Open?
    ensures var u, m := list[i], Shifted(upvals, off, Elems(list[..i]));
            u in m && m[u] == upvals[u] && m[u := Open(upvals[u].v + off)] == Shifted(upvals, off, Elems(list[..i + 1]))
  {
    var u, m := list[i], Shifted(upvals, off, Elems(list[..i]));
    assert list[..i + 1] == list[..i] + [u];
    assert Elems(list[..i + 1]) == Elems(list[..i]) + {u};
    assert u !in list[..i];
    assert m[u := Open(upvals[u].v + off)] == Shifted(upvals, off, Elems(list[..i + 1]));
  }

  /** What moving does to every upvalue. */
  lemma ShiftedFacts(list: seq<Id>, upvals: map<Id, UpVal>, stack: int, slots: seq<Value>, off: int, slots': seq<Value>)
    requires Listed(list, upvals, stack, |slots|) &&
             forall u :: u in upvals && upvals[u].Open? ==> upvals[u].v - stack < |slots'|
    requires forall k :: 0 <= k < |slots| && k < |slots'| ==> slots'[k] == slots[k]
    ensures var upvals' := Shifted(upvals, off, Elems(list));
            upvals'.Keys == upvals.Keys &&
            (forall u :: u in upvals' ==>
               (upvals'[u].Open? <==> upvals[u].Open?) &&
               Read(upvals'[u], stack + off, slots') == Read(upvals[u], stack, slots)) &&
            forall u :: u in upvals' && upvals'[u].Open? ==> upvals'[u].v == upvals[u].v + off
  {
    var upvals' := Shifted(upvals, off, Elems(list));
    forall u | u in upvals'
      ensures (upvals'[u].Open? <==> upvals[u].Open?) &&
              Read(upvals'[u], stack + off, slots') == Read(upvals[u], stack, slots)
      ensures upvals'[u].Open? ==> upvals'[u].v == upvals[u].v + off
    {
      ShiftedKeepsReads(list, upvals, stack, slots, off, slots', u);
      assert upvals[u].Open? ==> u in list;
    }
  }

  function Moved(c: CallInfo, off: int): CallInfo
  {
    CallInfo(c.func + off, c.base + off, c.top + off)
  }

  /** A call's pointers, as slot numbers. */
  function Relative(c: CallInfo, stack: int): CallInfo
  {
    Moved(c, -stack)
  }

  /** The first of the upvalues to close. */
  lemma ClosingOne(upvals: map<Id, UpVal>, dead: set<Id>, stack: int, slots: seq<Value>, level: int, u: Id)
    requires u in upvals && Closes(upvals[u], level) && 0 <= upvals[u].v - stack < |slots|
    ensures var upvals' := if u in dead then upvals - {u} else upvals[u := Closed(slots[upvals[u].v - stack])];
            Closing(upvals', dead, stack, slots, level) == Closing(upvals, dead, stack, slots, level)
  {
  }

  lemma ClosingNone(upvals: map<Id, UpVal>, dead: set<Id>, stack: int, slots: seq<Value>, level: int)
    requires forall u :: u in upvals ==> !Closes(upvals[u], level)
    ensures Closing(upvals, dead, stack, slots, level) == upvals
  {
  }

  /** The list of open upvalues of all threads has this thread's open ones, and none of its closed ones. */
  ghost predicate Linked(uvhead: seq<Id>, upvals: map<Id, UpVal>)
  {
    Distinct(uvhead) && forall u :: u in upvals ==> (u in uvhead <==> upvals[u].Open?)
  }

  lemma LinkedNew(uvhead: seq<Id>, upvals: map<Id, UpVal>, u: Id, level: int)
    requires Linked(uvhead, upvals) && u !in uvhead && u !in upvals
    ensures Linked([u] + uvhead, upvals[u := Open(level)])
  {
  }

  lemma LinkedGone(uvhead: seq<Id>, upvals: map<Id, UpVal>, u: Id)
    requires Linked(uvhead, upvals)
    ensures Linked(Remain(uvhead, {u}), upvals - {u}) && forall x :: Linked(Remain(uvhead, {u}), upvals[u := Closed(x)])
  {
    RemainDistinct(uvhead, {u});
    forall w ensures w in Remain(uvhead, {u}) <==> w in uvhead && w != u { RemainHas(uvhead, {u}, w); }
  }

  lemma LinkedShifted(uvhead: seq<Id>, upvals: map<Id, UpVal>, off: int, these: set<Id>)
    requires Linked(uvhead, upvals)
    ensures Linked(uvhead, Shifted(upvals, off, these))
  {
  }

  class LuaThread {
    var stack: int
    var slots: seq<Value>
    var top: int
    var base: int
    var ci: seq<CallInfo>
    var openupval: seq<Id>
    /** The list of all threads' open upvalues, from `uvhead` on. */
    var uvhead: seq<Id>
    var upvals: map<Id, UpVal>
    /** What the collector has found dead and not freed yet. */
    var dead: set<Id>

    ghost predicate Valid()
      reads this
    {
      Listed(openupval, upvals, stack, |slots|) && Linked(uvhead, upvals)
    }

    /** `luaF_findupval`: the one upvalue of a slot. It is the one there is; or, if there is none, a new one, which the
        memory allocator places at `unused`. */
    method FindUpval(level: int, unused: Id) returns (r: Id)
      requires Valid() && 0 <= level - stack < |slots| && unused !in upvals && unused !in uvhead
      modifies `openupval, `uvhead, `upvals, `dead
      ensures Valid() && r in upvals && upvals[r] == Open(level) && r !in dead
      ensures if exists u ::
                u in old(upvals) &&
                old(upvals)[u] == Open(level) then upvals == old(upvals) && openupval == old(openupval)
              else r == unused && upvals == old(upvals)[unused := Open(level)]
      ensures dead == old(dead) - {r}
    {
      hide Listed, Linked;
      var i := 0;
      while i < |openupval| && Pointer(openupval[i]) >= level
        invariant 0 <= i <= |openupval| && unchanged(`openupval, `uvhead, `upvals, `dead)
        invariant forall k :: 0 <= k < i ==>
                    openupval[k] in upvals && upvals[openupval[k]].Open? && upvals[openupval[k]].v > level
      {
        var p := openupval[i];
        ListedAt(openupval, upvals, stack, |slots|, i);
        if Pointer(p) == level {
          dead := dead - {p};
          return p;
        }
        i := i + 1;
      }
      if i < |openupval| { ListedAt(openupval, upvals, stack, |slots|, i); }
      NotThere(openupval, upvals, stack, |slots|, i, level);
      ListedNew(openupval, upvals, stack, |slots|, i, level, unused);
      LinkedNew(uvhead, upvals, unused, level);
      upvals := upvals[unused := Open(level)];
      dead := dead - {unused};
      openupval := openupval[..i] + [unused] + openupval[i..];
      uvhead := [unused] + uvhead;
      r := unused;
    }

    /** `unlinkupval`. */
    method Unlink(u: Id)
      modifies `uvhead
      ensures uvhead == Remain(old(uvhead), {u})
    {
      uvhead := Remain(uvhead, {u});
    }

    /** `luaF_close`: exactly the upvalues at or above the level are closed, each with the value its slot has. */
    method Close(level: int)
      requires Valid()
      modifies `openupval, `uvhead, `upvals
      ensures Valid() && upvals == Closing(old(upvals), dead, stack, slots, level)
      ensures forall u :: u in old(upvals) && u !in dead ==>
                u in upvals && Read(upvals[u], stack, slots) == Read(old(upvals)[u], stack, slots)
      ensures forall u :: u in upvals ==> !Closes(upvals[u], level)
    {
      hide Listed, Linked, Remain, Closing;
      while openupval != [] && Pointer(openupval[0]) >= level
        invariant Valid() &&
                  Closing(upvals, dead, stack, slots, level) == Closing(old(upvals), dead, stack, slots, level)
        decreases |openupval|
      {
        var uv := openupval[0];
        ListedAt(openupval, upvals, stack, |slots|, 0);
        ClosingOne(upvals, dead, stack, slots, level, uv);
        ghost var was, list := upvals, openupval;
        LinkedGone(uvhead, upvals, uv);
        openupval := openupval[1..];
        Unlink(uv);
        if uv in dead {
          upvals := upvals - {uv};
        } else {
          upvals := upvals[uv := Closed(slots[upvals[uv].v - stack])];
        }
        ListedRest(list, was, upvals, stack, |slots|);
      }
      if openupval != [] { ListedAt(openupval, upvals, stack, |slots|, 0); }
      AllBelow(openupval, upvals, stack, |slots|, level);
      ClosingNone(upvals, dead, stack, slots, level);
      forall u | u in old(upvals) && u !in dead
        ensures u in upvals && Read(upvals[u], stack, slots) == Read(old(upvals)[u], stack, slots)
      {
        ClosingKeepsReads(old(upvals), dead, stack, slots, level, u);
      }
    }

    /** Everything in use is within `size` slots. */
    ghost predicate UsesAtMost(size: nat)
      reads this
    {
      forall u :: u in upvals && upvals[u].Open? ==> upvals[u].v - stack < size
    }

    /** `luaD_reallocstack`: the stack moves to another address and gets another size, and every pointer into it goes
        with it. What is new in it is `fill`. */
    method ReallocStack(newsize: nat, address: int, fill: Value)
      requires Valid() && UsesAtMost(newsize + 1 + EXTRA_STACK)
      modifies `stack, `slots, `top, `base, `ci, `upvals
      ensures Valid() && stack == address && |slots| == newsize + 6
      ensures forall k :: 0 <= k < |slots| ==> slots[k] == if k < |old(slots)| then old(slots)[k] else fill
      ensures top - stack == old(top - stack) && base - stack == old(base - stack)
      ensures |ci| == |old(ci)| &&
              forall i :: 0 <= i < |ci| ==> Relative(ci[i], stack) == Relative(old(ci)[i], old(stack))
      ensures upvals.Keys == old(upvals).Keys
      ensures forall u :: u in upvals ==>
                (upvals[u].Open? <==> old(upvals)[u].Open?) &&
                Read(upvals[u], stack, slots) == Read(old(upvals)[u], old(stack), old(slots))
      ensures forall u :: u in upvals && upvals[u].Open? ==> upvals[u].v - stack == old(upvals)[u].v - old(stack)
    {
      hide Listed, Linked, Shifted;
      var oldstack := stack;
      var realsize := newsize + 1 + EXTRA_STACK;
      var cells := slots;
      slots := seq(realsize, k requires k >= 0 => if k < |cells| then cells[k] else fill);
      stack := address;
      CorrectStack(oldstack, |old(slots)|);
      ghost var was, off := old(upvals), address - oldstack;
      ListedShifted(openupval, was, oldstack, |old(slots)|, off, realsize);
      ShiftedFacts(openupval, was, oldstack, old(slots), off, slots);
      LinkedShifted(uvhead, was, off, Elems(openupval));
    }

    /** `correctstack`: every pointer into the old stack becomes one into the new. */
    method CorrectStack(oldstack: int, ghost size: nat)
      requires Listed(openupval, upvals, oldstack, size)
      modifies `top, `base, `ci, `upvals
      ensures upvals == Shifted(old(upvals), stack - oldstack, Elems(openupval))
      ensures top == old(top) - oldstack + stack && base == old(base) - oldstack + stack
      ensures |ci| == |old(ci)| && forall i :: 0 <= i < |ci| ==> ci[i] == Moved(old(ci)[i], stack - oldstack)
    {
      hide Shifted;
      ListedDistinct(openupval, upvals, oldstack, size);
      top := top - oldstack + stack;
      ghost var off := stack - oldstack;
      ShiftNone(upvals, off);
      for i := 0 to |openupval|
        modifies `upvals
        invariant upvals == Shifted(old(upvals), off, Elems(openupval[..i]))
      {
        ListedAt(openupval, old(upvals), oldstack, size, i);
        ShiftOne(old(upvals), off, openupval, i);
        var up := openupval[i];
        upvals := upvals[up := Open(Pointer(up) - oldstack + stack)];
      }
      assert openupval[..|openupval|] == openupval;
      for i := 0 to |ci|
        modifies `ci
        invariant |ci| == |old(ci)| &&
                  forall k :: 0 <= k < |ci| ==> ci[k] == if k < i then Moved(old(ci)[k], off) else old(ci)[k]
      {
        var c := ci[i];
        ci := ci[i := CallInfo(c.func - oldstack + stack, c.base - oldstack + stack, c.top - oldstack + stack)];
      }
      base := base - oldstack + stack;
    }

    function Pointer(u: Id): int
      reads `upvals
    {
      if u in upvals && upvals[u].Open? then upvals[u].v else 0
    }
  }
}
