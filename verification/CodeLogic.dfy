/** Short-circuit operators, and the correctness of whole expressions. */
module CodeLogic {
  import opened Seqs
  import opened LuaCode
  import opened CodeLists
  import opened CodeGen
  import opened CodeShape
  import opened CodeRuns
  import opened CodeMeaning
  import opened CodeDischarge
  import opened CodeExits
  import opened CodeOperands
  import opened CodeConds
  import opened CodeExpr
  import opened CodeCompile
  import opened CodeCorrect

  /** The context of the right operand: a run that left by one of the exits `l` of the left operand passes by. */
  ghost function RightCtx(c: Ctx, s: Gen, l: seq<nat>, z: Expr): Ctx
  {
    var c0 := c.(o := c.o + Elems(l));
    var stop := StopAt(c0, s);
    c0.(out := if c.out.Gives? && Falls(s.code, s.jpc, stop) then Gives(stop.regs, Eval(c.m, z, stop.regs))
               else Left(stop))
  }

  lemma LeftOpen(s: Gen, t: seq<nat>, f: seq<nat>, o: set<nat>, cond: bool)
    requires if cond then f == [] else t == []
    ensures OpenOf(s, [], [], o + Elems(if cond then t else f)) == OpenOf(s, t, f, o)
  {
    ElemsIn(t);
    ElemsIn(f);
  }

  lemma RightStop(c: Ctx, s: Gen, t: seq<nat>, f: seq<nat>, cond: bool, z: Expr)
    requires if cond then f == [] else t == []
    ensures var c2 := RightCtx(c, s, if cond then t else f, z);
            StopAt(c2, s) == Run(c.m, s.code, OpenOf(s, t, f, c.o), c.start, c.regs) &&
            c2.out == (if c.out.Gives? && Falls(s.code, s.jpc, StopAt(c2, s))
              then Gives(StopAt(c2, s).regs, Eval(c.m, z, StopAt(c2, s).regs)) else Left(StopAt(c2, s)))
  {
    LeftOpen(s, t, f, c.o, cond);
    hide Run, OpenOf;
  }

  lemma RightReached(c: Ctx, s: Gen, t: seq<nat>, f: seq<nat>, cond: bool, v1: Value, z: Expr)
    requires c.hole == -1 && ListsOk(s, t, f, c.o) && (if cond then f == [] else t == []) && s.lasttarget == |s.code| &&
             EntryOk(c, s.nactvar)
    requires Decides(ForValue(c, v1), s, t, f, !cond)
    ensures Reached(RightCtx(c, s, if cond then t else f, z), s, z)
  {
    var l := if cond then t else f;
    var c2 := RightCtx(c, s, l, z);
    DecidesBound(ForValue(c, v1), s, t, f, !cond);
    RightStop(c, s, t, f, cond, z);
    hide Run, OpenOf, ListsOk, StopAt, Eval;
    if c2.out.Left? {
      RightLeft(c, s, t, f, l, v1, StopAt(c2, s));
    }
  }

  lemma RightLeft(c: Ctx, s: Gen, t: seq<nat>, f: seq<nat>, l: seq<nat>, v1: Value, stop: Stop)
    requires Leaves(ForValue(c, v1), s.code, t, f, stop) && (forall j :: j in t || j in f ==> j in l)
    ensures 0 <= stop.pc < |s.code| && JumpOf(s.code, stop.pc) in c.o + Elems(l)
  {
    ElemsIn(l);
  }

  // ----- joining the exits -----

  lemma LogicOpen(s: Gen, s': Gen, e: Exp, l: seq<nat>, o: set<nat>, cond: bool)
    requires s'.jpc == s.jpc
    ensures Open(s', Exp(e.kind, WithT(e.t, l, cond), WithF(e.f, l, cond)), o) == Open(s, e, o + Elems(l))
  {
    ElemsIn(e.t);
    ElemsIn(e.f);
    ElemsIn(l);
    ElemsIn(WithT(e.t, l, cond));
    ElemsIn(WithF(e.f, l, cond));
  }

  lemma RelinkedPrefix(code: seq<Instr>, code': seq<Instr>, n: nat)
    requires Relinked(code, code') && n <= |code|
    ensures Relinked(code[..n], code'[..n])
  {
  }

  /** The joined list is linked differently, and nothing else has changed. */
  lemma LogicRelinked(c: Ctx, s: Gen, e: Exp, l: seq<nat>, cond: bool)
    requires Fit(c, s, e) && Concat(s.code, if cond then e.t else e.f, l).Ok?
    ensures var s' := s.(code := Concat(s.code, if cond then e.t else e.f, l).value);
            Relinked(s.code, s'.code) &&
            forall i :: 0 <= i < |s.code| && i !in Open(s, e, c.o) ==> s'.code[i] == s.code[i]
  {
    var exits := if cond then e.t else e.f;
    ConcatOthers(s.code, exits, l);
    hide Concat;
    ElemsIn(exits);
    forall j | j in exits ensures j in Open(s, e, c.o) {}
  }

  lemma PrefixLinks(m: Machine, code: seq<Instr>, code': seq<Instr>, open: set<nat>, n: nat, start: nat,
                    regs: seq<Value>)
    requires Relinked(code, code') && n <= |code| && OpenOk(code[..n], open)
    requires (forall i :: 0 <= i < |code| && i !in open ==> code'[i] == code[i]) &&
             Run(m, code[..n], open, start, regs).pc <= n
    ensures Run(m, code'[..n], open, start, regs) == Run(m, code[..n], open, start, regs)
  {
    forall j | j in open ensures j < n && code'[..n][j].Jmp? {
      assert code'[j] == code[j] || (code[j].Jmp? && code'[j].Jmp?);
    }
    LinksRun(m, code[..n], code'[..n], open, start, regs);
  }

  lemma LogicStop(c: Ctx, c2: Ctx, s: Gen, e: Exp, l: seq<nat>, cond: bool)
    requires c2 == c.(o := c.o + Elems(l), out := c2.out) && Fit(c2, s, e) && Means(c2, s, e) &&
             Concat(s.code, if cond then e.t else e.f, l).Ok?
    ensures var s', e' := s.(code := Concat(s.code, if cond then e.t else e.f, l).value),
                Exp(e.kind, WithT(e.t, l, cond), WithF(e.f, l, cond));
            StopOf(c, s', e') == StopOf(c2, s, e) && Relinked(Body(s, e.kind), Body(s', e.kind)) && NilsOk(c, s', e') &&
            Relinked(s.code, s'.code)
  {
    var s', e' := s.(code := Concat(s.code, if cond then e.t else e.f, l).value),
      Exp(e.kind, WithT(e.t, l, cond), WithF(e.f, l, cond));
    var open, nb := Open(s, e, c2.o), |Body(s, e.kind)|;
    assert Placed(c2.m, s, e, c2.o) && Denotes(c2, s, e) && NilsOk(c2, s, e);
    hide Placed, Denotes, NilsOk, Run, Concat, Open, WithT, WithF, Means;
    LogicRelinked(c2, s, e, l, cond);
    hide Fit;
    LogicOpen(s, s', e, l, c.o, cond);
    OpenJumps(c2.m, s, e, c2.o);
    StopBound(c2, s, e);
    LogicBody(s, s', e.kind);
    assert StopOf(c2, s, e) == Run(c.m, Body(s, e.kind), open, c.start, c.regs);
    assert StopOf(c, s', e') == Run(c.m, Body(s', e.kind), open, c.start, c.regs);
    hide Relinked, OpenOk, Body, StopOf;
    RelinkedPrefix(s.code, s'.code, nb);
    PrefixLinks(c.m, s.code, s'.code, open, nb, c.start, c.regs);
    LogicNils(c, c2, s, s', e, e');
  }

  lemma LogicBody(s: Gen, s': Gen, k: Kind)
    requires |s'.code| == |s.code|
    ensures var nb := |Body(s, k)|; nb <= |s.code| && Body(s, k) == s.code[..nb] && Body(s', k) == s'.code[..nb]
  {
  }

  lemma LogicNils(c: Ctx, c2: Ctx, s: Gen, s': Gen, e: Exp, e': Exp)
    requires NilsOk(c2, s, e) && c2 == c.(o := c2.o, out := c2.out) && s' == s.(code := s'.code) &&
             Relinked(s.code, s'.code)
    requires Open(s', e', c.o) == Open(s, e, c2.o) && OpenOk(s.code, Open(s, e, c2.o))
    requires forall i :: 0 <= i < |s.code| && i !in Open(s, e, c2.o) ==> s'.code[i] == s.code[i]
    ensures NilsOk(c, s', e')
  {
    var n, open := |s.code|, Open(s, e, c2.o);
    hide Open, Run;
    if n > 0 && s.lasttarget < n && s'.code[n - 1].LoadNil? {
      assert s.code[n - 1] == s'.code[n - 1];
      assert OpenOk(s.code[..n - 1], open);
      PrefixLinks(c.m, s.code, s'.code, open, n - 1, c.start, c.regs);
    }
  }

  /** A run that left the left operand: its exit is now one of the whole expression. */
  lemma LeftExit(c: Ctx, s2: Gen, s: Gen, e: Exp, l: seq<nat>, cond: bool, body': seq<Instr>, stop: Stop)
    requires c.out.Gives? && Keeps(c.out.r0, stop.regs, c.lo, c.hole) && Exits(s2.code, l, cond, stop, c.out.v)
    requires (forall j :: j in l ==> SameJump(s2.code, s.code, j)) && Relinked(Body(s, e.kind), body') &&
             stop.pc < |Body(s, e.kind)|
    ensures Leaves(c, body', WithT(e.t, l, cond), WithF(e.f, l, cond), stop) && JumpOf(body', stop.pc) in l
  {
    ExitsCarry(s2.code, s.code, l, cond, stop, c.out.v);
    var body := Body(s, e.kind);
    assert Exits(body, l, cond, stop, c.out.v);
    assert Leaves(c, body, if cond then l else [], if cond then [] else l, stop);
    RelinkedLeaves(c, body, body', if cond then l else [], if cond then [] else l, stop);
    LeavesMore(c, body', if cond then l else [], if cond then []
                         else l, WithT(e.t, l, cond), WithF(e.f, l, cond), stop);
  }

  lemma LeftPassed(c: Ctx, s2: Gen, s: Gen, k: Kind, body': seq<Instr>, stop: Stop)
    requires c.out.Left? && stop == c.out.stop && 0 <= stop.pc < |s2.code| && JumpOf(s2.code, stop.pc) in c.o
    requires Frame(s2.code, s.code, c.o) && Relinked(Body(s, k), body') && stop.pc < |Body(s, k)|
    ensures Leaves(c, body', [], [], stop) && JumpOf(body', stop.pc) == JumpOf(s2.code, stop.pc)
  {
    assert SameJump(s2.code, s.code, JumpOf(s2.code, stop.pc));
    JumpOfSame(s2.code, s.code, stop.pc);
    assert JumpOf(Body(s, k), stop.pc) == JumpOf(s2.code, stop.pc);
    RelinkedLeaves(c, Body(s, k), body', [], [], stop);
  }

  lemma HoldsRelinked(m: Machine, s: Gen, s': Gen, k: Kind, regs: seq<Value>, v: Value)
    requires Relinked(s.code, s'.code) && Holds(m, s, k, regs, v)
    ensures Holds(m, s', k, regs, v)
  {
    match k
    case KReloc(pc) => assert s'.code[pc] == s.code[pc];
    case KJmp(pc) => assert s'.code[pc - 1] == s.code[pc - 1];
    case _ =>
  }

  lemma KeepsTransitive(r0: seq<Value>, r1: seq<Value>, r2: seq<Value>, lo: nat, hole: int)
    requires Keeps(r0, r1, lo, hole) && Keeps(r1, r2, lo, hole)
    ensures Keeps(r0, r2, lo, hole)
  {
  }

  /** The value of a short-circuit expression whose left operand has value `v1`. */
  ghost predicate LogicValue(c: Ctx, cond: bool, v1: Value, z: Expr)
  {
    c.out.Gives? ==> c.out.v == if Truthy(v1) == cond then v1 else Eval(c.m, z, c.out.r0)
  }

  // The three ways a run can go.

  lemma LogicPassed(c: Ctx, c2: Ctx, s2: Gen, s: Gen, e: Exp, l: seq<nat>, cond: bool, body': seq<Instr>, stop: Stop)
    requires c.out.Left? && c2 == c.(o := c.o + Elems(l), out := c2.out) && Fit(c2, s, e)
    requires Leaves(c, s2.code, [], [], stop) && Frame(s2.code, s.code, c2.o) && Relinked(Body(s, e.kind), body') &&
             stop.pc < |Body(s, e.kind)|
    ensures Leaves(c, body', WithT(e.t, l, cond), WithF(e.f, l, cond), stop) && !Falls(body', s.jpc, stop)
  {
    FrameLess(s2.code, s.code, c2.o, c.o);
    LeftPassed(c, s2, s, e.kind, body', stop);
    LeavesMore(c, body', [], [], WithT(e.t, l, cond), WithF(e.f, l, cond), stop);
  }

  lemma LogicExit(c: Ctx, c2: Ctx, s2: Gen, s: Gen, e: Exp, l: seq<nat>, cond: bool, body': seq<Instr>, stop: Stop)
    requires c.out.Gives? && c2 == c.(o := c.o + Elems(l), out := c2.out) && Fit(c2, s, e)
    requires Keeps(c.out.r0, stop.regs, c.lo, c.hole) && Exits(s2.code, l, cond, stop, c.out.v)
    requires Frame(s2.code, s.code, c2.o) && Relinked(Body(s, e.kind), body') && stop.pc < |Body(s, e.kind)|
    ensures Leaves(c, body', WithT(e.t, l, cond), WithF(e.f, l, cond), stop) && !Falls(body', s.jpc, stop)
  {
    ElemsIn(l);
    forall j | j in l ensures SameJump(s2.code, s.code, j) && j !in s.jpc { assert j in c2.o; }
    LeftExit(c, s2, s, e, l, cond, body', stop);
  }

  lemma LogicRight(c: Ctx, c2: Ctx, s: Gen, s': Gen, e: Exp, l: seq<nat>, cond: bool, stop: Stop)
    requires c.out.Gives? && c2.out.Gives? && c2 == c.(o := c.o + Elems(l), out := c2.out) && c2.out.v == c.out.v
    requires Keeps(c.out.r0, c2.out.r0, c.lo, c.hole) && Relinked(Body(s, e.kind), Body(s', e.kind)) &&
             Relinked(s.code, s'.code) && s'.jpc == s.jpc
    requires if Falls(Body(s, e.kind), s.jpc, stop)
             then Keeps(c2.out.r0, stop.regs, c.lo, c.hole) && Holds(c.m, s, e.kind, stop.regs, c.out.v)
             else Leaves(c2, Body(s, e.kind), e.t, e.f, stop)
    ensures if Falls(Body(s', e.kind), s'.jpc, stop)
            then Keeps(c.out.r0, stop.regs, c.lo, c.hole) && Holds(c.m, s', e.kind, stop.regs, c.out.v)
            else Leaves(c, Body(s', e.kind), WithT(e.t, l, cond), WithF(e.f, l, cond), stop)
  {
    var body, body' := Body(s, e.kind), Body(s', e.kind);
    RelinkedFalls(body, body', s.jpc, stop);
    KeepsTransitive(c.out.r0, c2.out.r0, stop.regs, c.lo, c.hole);
    if Falls(body, s.jpc, stop) {
      HoldsRelinked(c.m, s, s', e.kind, stop.regs, c.out.v);
    } else {
      assert Leaves(c, body, e.t, e.f, stop);
      RelinkedLeaves(c, body, body', e.t, e.f, stop);
      LeavesMore(c, body', e.t, e.f, WithT(e.t, l, cond), WithF(e.f, l, cond), stop);
    }
  }

  /** `luaK_posfix` for `and` and `or`: the code stands for the short-circuit value. */
  lemma LogicRun(c: Ctx, s2: Gen, t1: seq<nat>, f1: seq<nat>, s: Gen, e: Exp, cond: bool, v1: Value, z: Expr)
    requires c.hole == -1 && ListsOk(s2, t1, f1, c.o) && (if cond then f1 == [] else t1 == []) &&
             Decides(ForValue(c, v1), s2, t1, f1, !cond)
    requires LogicValue(c, cond, v1, z) && s2.nactvar <= c.lo && WellFormed(c.m, z, s2.nactvar) &&
             s2.nactvar <= MAXSTACK
    requires var l := if cond then t1 else f1; var c2 := RightCtx(c, s2, l, z);
             Fit(c2, s, e) && Means(c2, s, e) && Frame(s2.code, s.code, c2.o) &&
             Concat(s.code, if cond then e.t else e.f, l).Ok?
    ensures var l := if cond then t1 else f1;
            Means(c, s.(code := Concat(s.code, if cond then e.t else e.f, l).value),
                  Exp(e.kind, WithT(e.t, l, cond), WithF(e.f, l, cond)))
  {
    var l := if cond then t1 else f1;
    var c2 := RightCtx(c, s2, l, z);
    var s', e' := s.(code := Concat(s.code, if cond then e.t else e.f, l).value),
      Exp(e.kind, WithT(e.t, l, cond), WithF(e.f, l, cond));
    LogicStop(c, c2, s, e, l, cond);
    RightStop(c, s2, t1, f1, cond, z);
    DecidesBound(ForValue(c, v1), s2, t1, f1, !cond);
    var stop2, stop := StopAt(c2, s2), StopOf(c2, s, e);
    hide Concat, Run, OpenOf, NilsOk, StopAt, StopOf, ListsOk, Frame, Fit, WithT, WithF;
    if c.out.Left? {
      assert Leaves(c, s2.code, [], [], stop2);
      LogicPassed(c, c2, s2, s, e, l, cond, Body(s', e.kind), stop);
    } else if Falls(s2.code, s2.jpc, stop2) {
      hide Holds, Exits, Relinked;
      SecondValue(c, s2, stop2, z);
      LogicRight(c, c2, s, s', e, l, cond, stop);
    } else {
      assert Exits(s2.code, l, cond, stop2, v1);
      LogicExit(c, c2, s2, s, e, l, cond, Body(s', e.kind), stop);
    }
  }

  lemma SecondValue(c: Ctx, s: Gen, stop: Stop, z: Expr)
    requires c.out.Gives? && Keeps(c.out.r0, stop.regs, c.lo, c.hole) && c.hole == -1
    requires s.nactvar <= c.lo && s.nactvar <= MAXSTACK && WellFormed(c.m, z, s.nactvar)
    ensures Eval(c.m, z, stop.regs) == Eval(c.m, z, c.out.r0)
  {
    EvalKeeps(c.m, z, c.out.r0, stop.regs, s.nactvar);
  }

  // ----- whole expressions -----

  lemma OperatorRun(c: Ctx, s: Gen, op: BinOp, y: Expr, z: Expr)
    requires Ready(c, s, Binary(op, y, z)) && (op.OprArith? || op.OprCmp?) && Compile(c.m, s, Binary(op, y, z)).Ok?
    requires CleanIn(c.m, s, Binary(op, y, z)) && Reached(c, s, Binary(op, y, z)) &&
             Compile(c.m, s, Binary(op, y, z)).value.0.k <= c.m.k
    ensures var s', e := Compile(c.m, s, Binary(op, y, z)).value.0, Compile(c.m, s, Binary(op, y, z)).value.1;
            Means(c, s', e)
    decreases Binary(op, y, z), 0
  {
    OperatorUnfolds(c.m, s, op, y, z);
    OperatorShape(c, s, op, y, z);
    OperatorClean(c.m, s, op, y, z);
    ReachedFor(c, s, Binary(op, y, z), y);
    ReachedValue(c, s, Binary(op, y, z));
    var s1, e1 := Compile(c.m, s, y).value.0, Compile(c.m, s, y).value.1;
    var s2, r1 := Infix(s1, op, e1).value.0, Infix(s1, op, e1).value.1;
    var s3, e2 := Compile(c.m, s2, z).value.0, Compile(c.m, s2, z).value.1;
    var v1 := if c.out.Gives? then Eval(c.m, y, c.out.r0) else Nil;
    hide Compile, CleanIn, Infix, CodeArith, CodeComp, Reached, Fit, Means, First, FirstDone, Ready, Chained;
    ReadySame(c, ForExpr(c, y), s, Binary(op, y, z), y);
    CompileRun(ForExpr(c, y), s, y);
    InfixRun(c, s1, op, e1, v1);
    SecondReached(c, s2, r1, v1, z, s2.freereg);
    var c2 := SecondCtx(c, s2, z);
    ReadySame(Within(c, s2.freereg, c.o), c2, s2, z, z);
    CompileRun(c2, s2, z);
    FitSame(Within(c, s2.freereg, c.o), c2, s3, e2);
    SecondEval(c, c2, s2, r1, v1, z);
    ReadyLawful(c, s, Binary(op, y, z));
    if op.OprArith? {
      ArithRun(c, c2, s3, op.op, r1, v1, e2, s2.freereg);
    } else {
      CompRun(c, c2, s3, op.cmp, op.cond, r1, v1, e2, s2.freereg);
    }
  }

  lemma ReadySame(c: Ctx, c': Ctx, s: Gen, x: Expr, y: Expr)
    requires Ready(c, s, x) && c'.m == c.m && c'.o == c.o && c'.lo == c.lo &&
             (WellFormed(c.m, x, s.nactvar) ==> WellFormed(c.m, y, s.nactvar))
    ensures Ready(c', s, y)
  {
  }

  lemma FitSame(c: Ctx, c': Ctx, s: Gen, e: Exp)
    requires Fit(c, s, e) && c'.m == c.m && c'.o == c.o && c'.lo == c.lo
    ensures Fit(c', s, e)
  {
  }

  lemma ReadyLawful(c: Ctx, s: Gen, x: Expr)
    requires Ready(c, s, x)
    ensures Lawful(c.m) && WellFormed(c.m, x, s.nactvar)
  {
  }

  lemma OperatorClean(m: Machine, s: Gen, op: BinOp, y: Expr, z: Expr)
    requires (op.OprArith? || op.OprCmp?) && Compile(m, s, Binary(op, y, z)).Ok? && CleanIn(m, s, Binary(op, y, z))
    ensures Compile(m, s, y).Ok? && CleanIn(m, s, y) &&
            var s1, e1 := Compile(m, s, y).value.0, Compile(m, s, y).value.1;
            Infix(s1, op, e1).Ok? && var s2 := Infix(s1, op, e1).value.0; Compile(m, s2, z).Ok? && CleanIn(m, s2, z)
  {
    hide Infix, Posfix;
  }

  /** The shapes along the way. */
  lemma OperatorShape(c: Ctx, s: Gen, op: BinOp, y: Expr, z: Expr)
    requires Ready(c, s, Binary(op, y, z)) && (op.OprArith? || op.OprCmp?) && Compile(c.m, s, Binary(op, y, z)).Ok?
    ensures Compile(c.m, s, y).Ok? && var s1, e1 := Compile(c.m, s, y).value.0, Compile(c.m, s, y).value.1;
            Fit(c, s1, e1) && Infix(s1, op, e1).Ok? &&
            var s2, r1 := Infix(s1, op, e1).value.0, Infix(s1, op, e1).value.1;
            First(c, s2, r1, s2.freereg) && (op.OprCmp? ==> IsOperand(r1)) && Compile(c.m, s2, z).Ok? &&
            var s3, e2 := Compile(c.m, s2, z).value.0, Compile(c.m, s2, z).value.1;
            var c2 := Within(c, s2.freereg, c.o);
            Ready(c2, s2, z) && Fit(c2, s3, e2) && First(c, s3, r1, s2.freereg) && s1.k <= s2.k <= s3.k &&
            s2.nactvar <= c.lo && s2.nactvar <= MAXSTACK &&
            WellFormed(c.m, z, s2.nactvar) && s3.k <= Compile(c.m, s, Binary(op, y, z)).value.0.k
  {
    var x := Binary(op, y, z);
    OperatorUnfolds(c.m, s, op, y, z);
    var s1, e1 := Compile(c.m, s, y).value.0, Compile(c.m, s, y).value.1;
    var s2, r1 := Infix(s1, op, e1).value.0, Infix(s1, op, e1).value.1;
    var s3, e2 := Compile(c.m, s2, z).value.0, Compile(c.m, s2, z).value.1;
    assert Ready(c, s, y);
    hide Compile, Infix, CodeArith, CodeComp, Fit, First, ListsOk, Frame;
    CompileOk(c, s, y);
    InfixFirst(c, s1, op, e1);
    AdvancesTransitive(c, s, s1, s2);
    ReadyAfter(c, s, x, s2, z, s2.freereg, c.o);
    CompileOk(Within(c, s2.freereg, c.o), s2, z);
    FirstStays(c, s2, s3, r1, s2.freereg);
    if op.OprArith? {
      ArithOk(c, s3, op.op, r1, e2, s2.freereg);
    } else {
      CompOk(c, s3, op.cmp, op.cond, r1, e2, s2.freereg);
    }
  }

  lemma SecondEval(c: Ctx, c2: Ctx, s: Gen, e1: Exp, v1: Value, z: Expr)
    requires c2 == SecondCtx(c, s, z) && Chained(c, c2, e1, v1) && s.nactvar <= c.lo && s.nactvar <= MAXSTACK &&
             WellFormed(c.m, z, s.nactvar)
    ensures c.out.Gives? ==> c2.out.Gives? && c2.out.v == Eval(c.m, z, c.out.r0)
  {
    if c.out.Gives? { EvalKeeps(c.m, z, c.out.r0, c2.out.r0, s.nactvar); }
  }

  lemma LogicShape(c: Ctx, s: Gen, y: Expr, z: Expr, cond: bool)
    requires Ready(c, s, Binary(if cond then OprOr else OprAnd, y, z)) &&
             Compile(c.m, s, Binary(if cond then OprOr else OprAnd, y, z)).Ok?
    ensures Compile(c.m, s, y).Ok? && var s1, e1 := Compile(c.m, s, y).value.0, Compile(c.m, s, y).value.1;
            Fit(c, s1, e1) && GoIf(s1, e1, cond).Ok? &&
            var s2, r1 := GoIf(s1, e1, cond).value.0, GoIf(s1, e1, cond).value.1;
            var l := if cond then r1.t else r1.f;
            ListsOk(s2, r1.t, r1.f, c.o) && (if cond then r1.f == [] else r1.t == []) && s2.lasttarget == |s2.code| &&
            Compile(c.m, s2, z).Ok? &&
            var s3, e2 := Compile(c.m, s2, z).value.0, Compile(c.m, s2, z).value.1;
            var c2 := Within(c, c.lo, c.o + Elems(l));
            Ready(c2, s2, z) && Fit(c2, s3, e2) && Frame(s2.code, s3.code, c2.o) && s1.k <= s2.k <= s3.k &&
            s2.nactvar <= c.lo && s2.nactvar <= MAXSTACK &&
            WellFormed(c.m, z, s2.nactvar) && s2.nactvar == s1.nactvar && LogicCode(s3, e2, l, cond).Ok? &&
            LogicCode(s3, e2, l, cond).value.0.k == s3.k
  {
    var x := Binary(if cond then OprOr else OprAnd, y, z);
    LogicUnfolds(c.m, s, y, z, cond);
    var s1, e1 := Compile(c.m, s, y).value.0, Compile(c.m, s, y).value.1;
    var s2, r1 := GoIf(s1, e1, cond).value.0, GoIf(s1, e1, cond).value.1;
    var s3, e2 := Compile(c.m, s2, z).value.0, Compile(c.m, s2, z).value.1;
    var l := if cond then r1.t else r1.f;
    assert Ready(c, s, y);
    hide Compile, GoIf, Fit, ListsOk, Frame, Concat;
    CompileOk(c, s, y);
    GoIfOk(c, s1, e1, cond);
    GoIfLeft(c, s2, r1.t, r1.f, cond);
    LeftReady(c, s2, l);
    AdvancesTransitive(c, s, s1, s2);
    ReadyAfter(c, s, x, s2, z, c.lo, c.o + Elems(l));
    CompileOk(Within(c, c.lo, c.o + Elems(l)), s2, z);
  }

  lemma LogicCompileRun(c: Ctx, s: Gen, y: Expr, z: Expr, cond: bool)
    requires var x := Binary(if cond then OprOr else OprAnd, y, z);
             Ready(c, s, x) && Compile(c.m, s, x).Ok? && CleanIn(c.m, s, x) && Reached(c, s, x) &&
             Compile(c.m, s, x).value.0.k <= c.m.k
    ensures var x := Binary(if cond then OprOr else OprAnd, y, z);
            var s', e := Compile(c.m, s, x).value.0, Compile(c.m, s, x).value.1; Means(c, s', e)
    decreases Binary(if cond then OprOr else OprAnd, y, z), 0
  {
    var x := Binary(if cond then OprOr else OprAnd, y, z);
    hide *;
    LogicUnfolds(c.m, s, y, z, cond);
    LogicShape(c, s, y, z, cond);
    LogicClean(c.m, s, y, z, cond);
    ReachedFor(c, s, x, y);
    ReachedValue(c, s, x);
    var s1, e1 := Compile(c.m, s, y).value.0, Compile(c.m, s, y).value.1;
    var s2, r1 := GoIf(s1, e1, cond).value.0, GoIf(s1, e1, cond).value.1;
    var s3, e2 := Compile(c.m, s2, z).value.0, Compile(c.m, s2, z).value.1;
    var l := if cond then r1.t else r1.f;
    var v1 := if c.out.Gives? then Eval(c.m, y, c.out.r0) else Nil;
    LogicValueIs(c, y, z, cond, v1);
    var c1, c2 := ForExpr(c, y), RightCtx(c, s2, l, z);
    ForExprFields(c, y, v1);
    RightFields(c, s2, l, z);
    LogicParts(c, s, y, z, cond);
    ReadySame(c, c1, s, y, y);
    FitSame(c, c1, s1, e1);
    LeftRun(c, c1, s, y, cond);
    EntrySame(c, c1, s2.nactvar);
    RightReached(c, s2, r1.t, r1.f, cond, v1, z);
    ReadySame(Within(c, c.lo, c.o + Elems(l)), c2, s2, z, z);
    CompileRun(c2, s2, z);
    FitSame(Within(c, c.lo, c.o + Elems(l)), c2, s3, e2);
    LogicLast(c, c2, s2, r1, s3, e2, cond, v1, z);
  }

  lemma LogicValueIs(c: Ctx, y: Expr, z: Expr, cond: bool, v1: Value)
    requires c.out.Gives? ==>
               c.out.v == Eval(c.m, Binary(if cond then OprOr else OprAnd, y, z), c.out.r0) &&
               v1 == Eval(c.m, y, c.out.r0)
    ensures LogicValue(c, cond, v1, z)
  {
  }

  lemma ForExprFields(c: Ctx, y: Expr, v1: Value)
    requires c.out.Gives? ==> v1 == Eval(c.m, y, c.out.r0)
    ensures var c1 := ForExpr(c, y);
            c1 == ForValue(c, v1) && c1.m == c.m && c1.o == c.o && c1.lo == c.lo && c1.start == c.start &&
            c1.regs == c.regs
  {
  }

  lemma RightFields(c: Ctx, s: Gen, l: seq<nat>, z: Expr)
    ensures var c2, w := RightCtx(c, s, l, z), Within(c, c.lo, c.o + Elems(l));
            c2.m == c.m == w.m && c2.o == c.o + Elems(l) == w.o && c2.lo == c.lo == w.lo && c2.start == c.start &&
            c2.regs == c.regs
  {
  }

  lemma LogicParts(c: Ctx, s: Gen, y: Expr, z: Expr, cond: bool)
    requires Ready(c, s, Binary(if cond then OprOr else OprAnd, y, z))
    ensures Ready(c, s, y)
  {
  }

  lemma EntrySame(c: Ctx, c1: Ctx, nactvar: nat)
    requires EntryOk(c1, nactvar) && c1.start == c.start && c1.regs == c.regs
    ensures EntryOk(c, nactvar)
  {
  }

  lemma LeftRun(c: Ctx, c1: Ctx, s: Gen, y: Expr, cond: bool)
    requires Ready(c1, s, y) && Compile(c1.m, s, y).Ok? && CleanIn(c1.m, s, y) && Reached(c1, s, y)
    requires var s1, e1 := Compile(c1.m, s, y).value.0, Compile(c1.m, s, y).value.1;
             Fit(c1, s1, e1) && Clean(s1, e1, cond) && GoIf(s1, e1, cond).Ok? &&
             GoIf(s1, e1, cond).value.0.k <= c1.m.k && s1.k <= c1.m.k
    ensures var s1, e1 := Compile(c1.m, s, y).value.0, Compile(c1.m, s, y).value.1;
            var s2, r1 := GoIf(s1, e1, cond).value.0, GoIf(s1, e1, cond).value.1;
            Decides(c1, s2, r1.t, r1.f, !cond) && EntryOk(c1, s1.nactvar)
    decreases y, 3
  {
    hide Compile, CleanIn, GoIf, Reached, Fit, Means, Clean, Decides, Ready, EntryOk;
    CompileRun(c1, s, y);
    MeansEntry(c1, Compile(c1.m, s, y).value.0, Compile(c1.m, s, y).value.1);
    GoIfRun(c1, Compile(c1.m, s, y).value.0, Compile(c1.m, s, y).value.1, cond);
  }

  lemma LogicClean(m: Machine, s: Gen, y: Expr, z: Expr, cond: bool)
    requires Compile(m, s, Binary(if cond then OprOr else OprAnd, y, z)).Ok? &&
             CleanIn(m, s, Binary(if cond then OprOr else OprAnd, y, z))
    ensures Compile(m, s, y).Ok? && CleanIn(m, s, y) &&
            var s1, e1 := Compile(m, s, y).value.0, Compile(m, s, y).value.1;
            Clean(s1, e1, cond) && GoIf(s1, e1, cond).Ok? &&
            var s2 := GoIf(s1, e1, cond).value.0; Compile(m, s2, z).Ok? && CleanIn(m, s2, z)
  {
    hide GoIf, Posfix;
  }

  lemma LogicLast(c: Ctx, c2: Ctx, s2: Gen, r1: Exp, s3: Gen, e2: Exp, cond: bool, v1: Value, z: Expr)
    requires c.hole == -1 && ListsOk(s2, r1.t, r1.f, c.o) && (if cond then r1.f == [] else r1.t == []) &&
             Decides(ForValue(c, v1), s2, r1.t, r1.f, !cond)
    requires LogicValue(c, cond, v1, z) && s2.nactvar <= c.lo && WellFormed(c.m, z, s2.nactvar) &&
             s2.nactvar <= MAXSTACK
    requires c2 == RightCtx(c, s2, if cond then r1.t else r1.f, z) && Fit(c2, s3, e2) && Means(c2, s3, e2) &&
             Frame(s2.code, s3.code, c2.o)
    requires LogicCode(s3, e2, if cond then r1.t else r1.f, cond).Ok?
    ensures var r := LogicCode(s3, e2, if cond then r1.t else r1.f, cond).value; Means(c, r.0, r.1)
  {
    var e := DischargeVars(e2);
    hide Decides, Frame, ListsOk, RightCtx, Concat;
    VarsOk(c2, s3, e2);
    VarsRun(c2, s3, e2);
    hide Fit, Means;
    LogicRun(c, s2, r1.t, r1.f, s3, e, cond, v1, z);
  }

  /** The code of every expression, run from where it begins, has its value where its descriptor says, or has
      left by an exit that carries the value. */
  lemma {:induction false} CompileRun(c: Ctx, s: Gen, x: Expr)
    requires Ready(c, s, x) && Compile(c.m, s, x).Ok? && CleanIn(c.m, s, x) && Reached(c, s, x) &&
             Compile(c.m, s, x).value.0.k <= c.m.k
    ensures var s', e := Compile(c.m, s, x).value.0, Compile(c.m, s, x).value.1; Means(c, s', e)
    decreases x, 2
  {
    hide Means;
    match x
    case EStr(str) =>
      AddKOk(s, Str(str));
      PlainMeans(c, s, x, AddK(s, Str(str)).value.0, KK(AddK(s, Str(str)).value.1));
    case Local(i) => PlainMeans(c, s, x, s, KLocal(i));
    case ENil => PlainMeans(c, s, x, s, KNil);
    case ETrue => PlainMeans(c, s, x, s, KTrue);
    case EFalse => PlainMeans(c, s, x, s, KFalse);
    case ENum(n) => PlainMeans(c, s, x, s, KNum(n));
    case Paren(y) =>
      CompileRun(c, s, y);
      VarsRun(c, Compile(c.m, s, y).value.0, Compile(c.m, s, y).value.1);
    case Unary(op, y) => UnaryCompileRun(c, s, op, y);
    case Binary(op, y, z) =>
      if op.OprAnd? {
        LogicCompileRun(c, s, y, z, false);
      } else if op.OprOr? {
        LogicCompileRun(c, s, y, z, true);
      } else {
        OperatorRun(c, s, op, y, z);
      }
  }

  lemma UnaryCompileRun(c: Ctx, s: Gen, op: UnOp, y: Expr)
    requires var x := Unary(op, y);
             Ready(c, s, x) && Compile(c.m, s, x).Ok? && CleanIn(c.m, s, x) && Reached(c, s, x) &&
             Compile(c.m, s, x).value.0.k <= c.m.k
    ensures var s', e := Compile(c.m, s, Unary(op, y)).value.0, Compile(c.m, s, Unary(op, y)).value.1; Means(c, s', e)
    decreases Unary(op, y), 0
  {
    var s1, e1 := Compile(c.m, s, y).value.0, Compile(c.m, s, y).value.1;
    ReachedFor(c, s, Unary(op, y), y);
    assert Ready(c, s, y) && Ready(ForExpr(c, y), s, y);
    hide Prefix, Reached, Means, Fit;
    CompileOk(c, s, y);
    PrefixOk(c, s1, op, e1);
    CompileRun(ForExpr(c, y), s, y);
    assert c.out.Gives? ==> c.out.v == Eval(c.m, Unary(op, y), c.out.r0) by { ReachedValue(c, s, Unary(op, y)); }
    PrefixRun(c, s1, op, e1, y);
  }

  lemma ReachedValue(c: Ctx, s: Gen, x: Expr)
    requires Reached(c, s, x)
    ensures c.hole == -1 && (c.out.Gives? ==> c.out.v == Eval(c.m, x, c.out.r0))
  {
  }
}
