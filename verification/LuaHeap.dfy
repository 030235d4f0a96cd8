/** The object graph that the Lua 5.1 collector works on: values, the seven kinds of collectable
    objects, the collector's global state, and the edges between objects.

    An object is named by an `Id` (its address).  A freed address may be handed out again. */
module LuaHeap {

  type Id = nat

  /** A tagged value: nil, a value that needs no collection, or a reference to an object. */
  datatype Value = Nil | Prim(n: int) | Ref(id: Id)

  /** A table key.  `Dead` is the tag LUA_TDEADKEY that `removeentry` leaves behind. */
  datatype Key = Live(v: Value) | Dead

  datatype Node = Node(key: Key, val: Value)

  /** The collectable objects.  The references of a closure are its environment, then (for a Lua
      closure) its prototype, then its upvalues; those of a prototype are its source name, constants,
      upvalue names, nested prototypes and local names.  `stack` is the live part of a thread's stack,
      below `top`.  An open upvalue names the stack slot its value lives in. */
  datatype Obj =
    | Str(chars: string)
    | Udata(metatable: Value, env: Value)
    | OpenUpval(thread: Id, slot: nat)
    | ClosedUpval(v: Value)
    | Closure(refs: seq<Value>)
    | Table(metatable: Value, arr: seq<Value>, nodes: seq<Node>)
    | Thread(globals: Value, stack: seq<Value>)
    | Proto(refs: seq<Value>)

  type Graph = map<Id, Obj>

  /** The colour bits of the `marked` byte: one of two whites, gray, or black. */
  datatype Color = White(w: bool) | Gray | Black

  datatype Phase = Pause | Propagate | SweepString | Sweep | Finalize

  /** The part of `global_State` that the collector uses.  `unswept` holds what the sweep pointers
      `sweepstrgc` and `sweepgc` have still to visit; `running` is the thread the step runs in. */
  datatype GState = GState(
    obj: Graph,
    color: map<Id, Color>,
    fixed: set<Id>,
    finalized: set<Id>,
    weakKey: set<Id>,
    weakVal: set<Id>,
    cur: bool,
    phase: Phase,
    gray: seq<Id>,
    grayagain: seq<Id>,
    weak: seq<Id>,
    unswept: set<Id>,
    tmudata: seq<Id>,
    mainthread: Id,
    running: Id,
    registry: Id,
    mt: seq<Value>,
    modeKey: Id,
    gcKey: Id)

  // ----- weak modes and finalizers, as looked up in a metatable -----

  /** The entry of a node list under the string object `key`. */
  predicate HasEntry(n: Node, key: Id)
  {
    n.key == Live(Ref(key)) && n.val != Nil
  }

  predicate ModeEntry(h: Graph, key: Id, n: Node, mode: char)
  {
    HasEntry(n, key) && n.val.Ref? && n.val.id in h && h[n.val.id].Str? && mode in h[n.val.id].chars
  }

  /** Does the metatable `mt` carry a `__mode` string that contains `mode`? */
  predicate HasMode(h: Graph, key: Id, mt: Value, mode: char)
  {
    mt.Ref? && mt.id in h && h[mt.id].Table? &&
    exists n :: n in h[mt.id].nodes && ModeEntry(h, key, n, mode)
  }

  predicate HasGcMethod(h: Graph, key: Id, mt: Value)
  {
    mt.Ref? && mt.id in h && h[mt.id].Table? &&
    exists n :: n in h[mt.id].nodes && HasEntry(n, key)
  }

  /** What the entry of a metatable under a key says, when there is one: a value that is not nil is a finalizer, and a
      string with a `k` or a `v` in it makes keys or values weak. */
  lemma MetatableEntry(h: Graph, key: Id, mt: Id, i: nat)
    requires mt in h && h[mt].Table? && i < |h[mt].nodes| && h[mt].nodes[i].key == Live(Ref(key))
    requires forall j :: 0 <= j < |h[mt].nodes| && j != i ==> h[mt].nodes[j].key != Live(Ref(key))
    ensures var v := h[mt].nodes[i].val;
            (HasGcMethod(h, key, Ref(mt)) <==> v != Nil) &&
            forall c :: HasMode(h, key, Ref(mt), c) <==> v.Ref? && v.id in h && h[v.id].Str? && c in h[v.id].chars
  {
    var n := h[mt].nodes[i];
    assert n in h[mt].nodes && (HasEntry(n, key) <==> n.val != Nil);
    forall c
      ensures HasMode(h, key, Ref(mt), c) <==> n.val.Ref? && n.val.id in h && h[n.val.id].Str? && c in h[n.val.id].chars
    {
      if n.val.Ref? && n.val.id in h && h[n.val.id].Str? && c in h[n.val.id].chars {
        assert ModeEntry(h, key, n, c);
      }
    }
  }

  /** Without a metatable, or without the entry, there is neither. */
  lemma NoEntry(h: Graph, key: Id, mt: Value, c: char)
    requires mt.Ref? && mt.id in h && h[mt.id].Table? ==>
               forall i :: 0 <= i < |h[mt.id].nodes| ==> h[mt.id].nodes[i].key != Live(Ref(key))
    ensures !HasGcMethod(h, key, mt) && !HasMode(h, key, mt, c)
  {
  }

  // ----- edges -----

  /** The value an upvalue currently stands for. */
  function UpvalValue(h: Graph, u: Obj): Value
    requires u.OpenUpval? || u.ClosedUpval?
  {
    match u
    case ClosedUpval(v) => v
    case OpenUpval(th, slot) =>
      if th in h && h[th].Thread? && slot < |h[th].stack| then h[th].stack[slot] else Nil
  }

  predicate NodePoints(n: Node, c: Id)
  {
    n.val != Nil && (n.val == Ref(c) || n.key == Live(Ref(c)))
  }

  /** An edge of any strength from `o` to `c`.  An entry whose value is nil is empty: it has no edge. */
  predicate Points(h: Graph, o: Obj, c: Id)
  {
    match o
    case Str(_) => false
    case Udata(m, e) => m == Ref(c) || e == Ref(c)
    case OpenUpval(_, _) => UpvalValue(h, o) == Ref(c)
    case ClosedUpval(v) => v == Ref(c)
    case Closure(refs) => Ref(c) in refs
    case Table(m, arr, nodes) =>
      m == Ref(c) || Ref(c) in arr || exists n :: n in nodes && NodePoints(n, c)
    case Thread(g, stack) => g == Ref(c) || Ref(c) in stack
    case Proto(refs) => Ref(c) in refs
  }

  /** A key that the table still stores, even in an empty entry. */
  predicate HoldsKey(o: Obj, c: Id)
  {
    o.Table? && exists n :: n in o.nodes && n.key == Live(Ref(c))
  }

  predicate StrongNode(n: Node, weakKey: bool, weakVal: bool, c: Id)
  {
    n.val != Nil && ((!weakVal && n.val == Ref(c)) || (!weakKey && n.key == Live(Ref(c))))
  }

  /** An edge that keeps its target alive: what `traversetable` and its siblings follow. */
  predicate StrongPoints(h: Graph, modeKey: Id, o: Obj, c: Id)
  {
    if o.Table? then
      var wk, wv := HasMode(h, modeKey, o.metatable, 'k'), HasMode(h, modeKey, o.metatable, 'v');
      o.metatable == Ref(c) || (!wv && Ref(c) in o.arr) ||
      exists n :: n in o.nodes && StrongNode(n, wk, wv, c)
    else
      Points(h, o, c)
  }

  predicate IsRoot(s: GState, x: Id)
  {
    x == s.mainthread || x == s.running || x == s.registry || Ref(x) in s.mt || x in s.tmudata
  }

  ghost predicate RootPath(s: GState, p: seq<Id>)
  {
    0 < |p| && IsRoot(s, p[0]) &&
    forall i :: 0 <= i < |p| - 1 ==> p[i] in s.obj && Points(s.obj, s.obj[p[i]], p[i + 1])
  }

  /** What a program can get hold of: a path of edges of any strength leads to it. */
  ghost predicate Accessible(s: GState, x: Id)
  {
    exists p :: RootPath(s, p) && p[|p| - 1] == x
  }

  ghost predicate StrongRootPath(s: GState, p: seq<Id>)
  {
    0 < |p| && IsRoot(s, p[0]) &&
    forall i :: 0 <= i < |p| - 1 ==> p[i] in s.obj && StrongPoints(s.obj, s.modeKey, s.obj[p[i]], p[i + 1])
  }

  /** What the collector must keep: a path of strong edges leads to it. */
  ghost predicate StronglyReachable(s: GState, x: Id)
  {
    exists p :: StrongRootPath(s, p) && p[|p| - 1] == x
  }

  predicate IsDead(s: GState, x: Id)
  {
    x in s.color && s.color[x] == White(!s.cur)
  }

  predicate Alive(s: GState, x: Id)
  {
    x in s.obj && !IsDead(s, x)
  }
}
