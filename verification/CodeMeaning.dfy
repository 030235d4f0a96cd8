/** What the code of an expression means, while its exits are still open. */
module CodeMeaning {
  import opened Seqs
  import opened LuaCode
  import opened CodeLists
  import opened CodeGen
  import opened CodeShape
  import opened CodeRuns

  /** How a run came to the code of an expression: with the registers `r0`, from which the expression has
      the value `v`; or not at all, because it had already stopped at a jump out of an expression around. */
  datatype Outcome = Gives(r0: seq<Value>, v: Value) | Left(stop: Stop)

  /** One run, from `start` with `regs`.  The jumps `o` belong to expressions around; registers below `lo`
      are in use and must be kept, except `hole`, where the value may go. */
  datatype Ctx = Ctx(m: Machine, start: nat, regs: seq<Value>, o: set<nat>, lo: nat, hole: int, out: Outcome)

  /** The instructions at the end of the code that wait for a destination of the value. */
  function Tail(k: Kind): nat
  {
    if k.KReloc? then 1 else if k.KJmp? then 2 else 0
  }

  function Body(s: Gen, k: Kind): seq<Instr>
  {
    if Tail(k) <= |s.code| then s.code[..|s.code| - Tail(k)] else s.code
  }

  function Open(s: Gen, e: Exp, o: set<nat>): set<nat>
  {
    Elems(s.jpc) + Elems(e.t) + Elems(e.f) + o
  }

  ghost predicate KindOk(m: Machine, s: Gen, e: Exp, o: set<nat>)
  {
    var n := |s.code|;
    match e.kind
    case KK(idx) => idx < |s.k|
    case KNum(x) => !m.isNan(x)
    case KLocal(r) => r < s.nactvar
    case KNonReloc(r) => r < MAXSTACK
    case KReloc(pc) =>
      n > 0 && pc == n - 1 && (s.code[pc].Arith? || s.code[pc].Not?) && s.jpc == [] && s.lasttarget < n &&
      (n >= 2 ==> !IsTest(s.code[n - 2]))
    case KJmp(pc) =>
      n >= 2 && pc == n - 1 && s.code[pc] == Jmp(NO_JUMP) && s.code[pc - 1].Compare? && s.jpc == [] &&
      s.lasttarget <= n - 2 && pc !in e.t && pc !in e.f && pc !in o
    case _ => true
  }

  ghost predicate Placed(m: Machine, s: Gen, e: Exp, o: set<nat>)
  {
    GenOk(s) && ListsOk(s, e.t, e.f, o) && KindOk(m, s, e, o)
  }

  ghost predicate Keeps(r0: seq<Value>, r: seq<Value>, lo: nat, hole: int)
  {
    |r0| == |r| == MAXSTACK && forall i :: 0 <= i < lo && i < MAXSTACK && i != hole ==> r[i] == r0[i]
  }

  /** The value is where the kind of the expression says. */
  ghost predicate Holds(m: Machine, s: Gen, k: Kind, regs: seq<Value>, v: Value)
  {
    match k
    case KNil => v == Nil
    case KTrue => v == Bool(true)
    case KFalse => v == Bool(false)
    case KK(idx) => idx < |m.k| && m.k[idx] == v && Truthy(v)
    case KNum(x) => v == Num(x)
    case KLocal(r) => Get(regs, r) == v
    case KNonReloc(r) => Get(regs, r) == v
    case KReloc(pc) => pc < |s.code| && (s.code[pc].Arith? || s.code[pc].Not?) && ResultOf(m, s.code[pc], regs) == v
    case KJmp(pc) => 1 <= pc <= |s.code| && s.code[pc - 1].Compare? && v == Bool(Passes(m, s.code[pc - 1], regs))
  }

  /** A run has left the expression by a jump of list `l`, with the truth that this list is for: the value is
      in the register that the `TESTSET` in control names, or else it is just that truth value. */
  ghost predicate Exits(code: seq<Instr>, l: seq<nat>, truth: bool, stop: Stop, v: Value)
  {
    var p := stop.pc;
    0 <= p < |code| && Truthy(v) == truth &&
    if code[p].TestSet? then p + 1 in l && Get(stop.regs, code[p].b) == v
    else p in l && !CarriesValue(code, p) && v == Bool(truth)
  }

  ghost predicate Leaves(c: Ctx, code: seq<Instr>, t: seq<nat>, f: seq<nat>, stop: Stop)
  {
    match c.out
    case Left(stopped) => stop == stopped && 0 <= stop.pc < |code| && JumpOf(code, stop.pc) in c.o
    case Gives(r0, v) => Keeps(r0, stop.regs, c.lo,
                               c.hole) && (Exits(code, t, true, stop, v) || Exits(code, f, false, stop, v))
  }

  function StopOf(c: Ctx, s: Gen, e: Exp): Stop
  {
    Run(c.m, Body(s, e.kind), Open(s, e, c.o), c.start, c.regs)
  }

  /** The code of the expression, run in this context, ends with its value where it should be, or has left by
      an exit that carries it; and a run that was not meant for it passes it by. */
  ghost predicate Denotes(c: Ctx, s: Gen, e: Exp)
  {
    var code, stop := Body(s, e.kind), StopOf(c, s, e);
    if c.out.Gives? && Falls(code, s.jpc, stop) then
      Keeps(c.out.r0, stop.regs, c.lo, c.hole) && Holds(c.m, s, e.kind, stop.regs, c.out.v)
    else Leaves(c, code, e.t, e.f, stop)
  }

  /** A run from the start of the function finds the registers above the locals nil. */
  ghost predicate EntryOk(c: Ctx, nactvar: nat)
  {
    c.start == 0 ==> forall i :: nactvar <= i < |c.regs| ==> c.regs[i] == Nil
  }

  /** A `LOADNIL` at the end of the code may be extended only if every run to the end goes through it. */
  ghost predicate NilsOk(c: Ctx, s: Gen, e: Exp)
  {
    var n := |s.code|;
    EntryOk(c, s.nactvar) &&
    (n > 0 && s.lasttarget < n && s.code[n - 1].LoadNil? ==>
       s.jpc == [] && c.start < n && Run(c.m, s.code[..n - 1], Open(s, e, c.o), c.start, c.regs).pc < n)
  }

  // ----- runs that have left are not affected by what follows -----

  lemma ExitsCarry(code: seq<Instr>, code': seq<Instr>, l: seq<nat>, truth: bool, stop: Stop, v: Value)
    requires Exits(code, l, truth, stop, v) && forall j :: j in l ==> SameJump(code, code', j)
    ensures Exits(code', l, truth, stop, v)
  {
    var p := stop.pc;
    if code[p].TestSet? {
      assert SameJump(code, code', p + 1) && CarriesValue(code, p + 1);
    } else {
      assert SameJump(code, code', p);
    }
  }

  lemma LeavesCarry(c: Ctx, code: seq<Instr>, code': seq<Instr>, t: seq<nat>, f: seq<nat>, stop: Stop)
    requires Leaves(c, code, t, f, stop) && Frame(code, code', Elems(t) + Elems(f) + c.o)
    requires forall j :: j in t || j in f || j in c.o ==> j < |code| && code[j].Jmp?
    ensures Leaves(c, code', t, f, stop)
  {
    forall j | j in t || j in f || j in c.o ensures SameJump(code, code', j) {
      assert j in Elems(t) + Elems(f) + c.o;
    }
    if c.out.Gives? {
      if Exits(code, t, true, stop, c.out.v) {
        ExitsCarry(code, code', t, true, stop, c.out.v);
      } else {
        ExitsCarry(code, code', f, false, stop, c.out.v);
      }
    } else {
      var p := stop.pc;
      if code[p].TestSet? {
        assert SameJump(code, code', p + 1) && CarriesValue(code, p + 1);
      } else {
        assert SameJump(code, code', p);
      }
    }
  }
}
