/** The correctness of expression code, as a caller of the code generator sees it, and where it fails. */
module CodeTheorem {
  import opened Seqs
  import opened LuaCode
  import opened CodeLists
  import opened CodeGen
  import opened CodeShape
  import opened CodeRuns
  import opened CodeMeaning
  import opened CodeExits
  import opened CodeOperands
  import opened CodeConds
  import opened CodeExpr
  import opened CodeCompile
  import opened CodeCorrect
  import opened CodeLogic

  /** An expression put into the next free register: `expr` followed by `luaK_exp2nextreg`. */
  function CompileToNextReg(m: Machine, s: Gen, x: Expr): Result<(Gen, Exp)>
  {
    var (s1, e) :- Compile(m, s, x);
    ExpToNextReg(s1, e)
  }

  /** An expression assigned to a local: `expr` followed by `luaK_storevar`. */
  function CompileToLocal(m: Machine, s: Gen, x: Expr, reg: nat): Result<(Gen, Exp)>
  {
    var (s1, e) :- Compile(m, s, x);
    ExpToReg(FreeExp(s1, e), e, reg)
  }

  /** A run from `start` of the code generated so far that comes to the next instruction. */
  ghost predicate Arriving(m: Machine, s: Gen, o: set<nat>, start: nat, regs: seq<Value>)
  {
    var c := Ctx(m, start, regs, o, s.freereg, -1, Left(Stop(0, regs)));
    |regs| == MAXSTACK && Falls(s.code, s.jpc, StopAt(c, s)) && NilsOk(c, s, VOID)
  }

  /** Where the run stops, and with which registers. */
  ghost function Outcome(m: Machine, s: Gen, o: set<nat>, start: nat, regs: seq<Value>): Stop
  {
    Run(m, s.code, OpenOf(s, [], [], o), start, regs)
  }

  /** The state of a generator between statements: nothing open but jumps to the next instruction and the
      jumps `o` of the statements around. */
  ghost predicate Quiet(m: Machine, s: Gen, o: set<nat>, x: Expr)
  {
    Lawful(m) && GenOk(s) && ListsOk(s, [], [], o) && WellFormed(m, x, s.nactvar)
  }

  function CtxOf(m: Machine, s: Gen, x: Expr, o: set<nat>, start: nat, regs: seq<Value>): Ctx
  {
    var r0 := Run(m, s.code, OpenOf(s, [], [], o), start, regs).regs;
    Ctx(m, start, regs, o, s.freereg, -1, Gives(r0, Eval(m, x, r0)))
  }

  lemma ArrivingReached(m: Machine, s: Gen, x: Expr, o: set<nat>, start: nat, regs: seq<Value>)
    requires Quiet(m, s, o, x) && Arriving(m, s, o, start, regs)
    ensures Ready(CtxOf(m, s, x, o, start, regs), s, x) && Reached(CtxOf(m, s, x, o, start, regs), s, x)
  {
    RunLength(m, s.code, OpenOf(s, [], [], o), start, regs);
    var c := CtxOf(m, s, x, o, start, regs);
    var c0 := Ctx(m, start, regs, o, s.freereg, -1, Left(Stop(0, regs)));
    assert StopAt(c, s) == StopAt(c0, s);
  }

  /** Running the code of any expression leaves its short-circuit value in the next register, comes to the next
      instruction, and changes no register in use. */
  lemma ExpressionValue(m: Machine, s: Gen, x: Expr, o: set<nat>, start: nat, regs: seq<Value>)
    requires Quiet(m, s, o, x) && CompileToNextReg(m, s, x).Ok? && CleanIn(m, s, x) &&
             CompileToNextReg(m, s, x).value.0.k <= m.k
    requires Arriving(m, s, o, start, regs)
    ensures var s', before := CompileToNextReg(m, s, x).value.0, Outcome(m, s, o, start, regs);
            var after := Outcome(m, s', o, start, regs);
            Falls(s'.code, s'.jpc, after) && s'.freereg == s.freereg + 1 && |after.regs| == |before.regs| == MAXSTACK &&
            s.freereg < MAXSTACK &&
            after.regs[s.freereg] == Eval(m, x, before.regs) &&
            forall i :: 0 <= i < s.freereg ==> after.regs[i] == before.regs[i]
  {
    var c := CtxOf(m, s, x, o, start, regs);
    var s1, e := Compile(m, s, x).value.0, Compile(m, s, x).value.1;
    var s', e' := ExpToNextReg(s1, e).value.0, ExpToNextReg(s1, e).value.1;
    hide Compile, ExpToNextReg, CleanIn, Quiet, Arriving, Ready, Reached, Run, Means, Fit, Advances, Falls, OpenOf;
    ArrivingReached(m, s, x, o, start, regs);
    CompileOk(c, s, x);
    ExpToNextRegOk(c, s1, e);
    AdvancesK(c, s1, s');
    CompileRun(c, s, x);
    ExpToNextRegRun(c, s1, e);
    InRegister(c, s', s.freereg);
    FitLocals(c, s1, e);
    hide Keeps;
    KeptBelow(c, Outcome(m, s', o, start, regs));
  }

  lemma AdvancesK(c: Ctx, s: Gen, s': Gen)
    requires Advances(c, s, s') && s'.k <= c.m.k
    ensures s.k <= c.m.k
  {
  }

  lemma FitLocals(c: Ctx, s: Gen, e: Exp)
    requires Fit(c, s, e)
    ensures s.nactvar <= c.lo
  {
  }

  lemma KeptBelow(c: Ctx, after: Stop)
    requires c.out.Gives? && Keeps(c.out.r0, after.regs, c.lo, -1)
    ensures |after.regs| == |c.out.r0| == MAXSTACK &&
            forall i :: 0 <= i < c.lo && i < MAXSTACK ==> after.regs[i] == c.out.r0[i]
  {
  }

  lemma InRegister(c: Ctx, s: Gen, reg: nat)
    requires Means(c, s, Exp(KNonReloc(reg), [], [])) && Fit(c, s, Exp(KNonReloc(reg), [], [])) && c.out.Gives?
    ensures var after := Outcome(c.m, s, c.o, c.start, c.regs);
            Falls(s.code, s.jpc, after) && Keeps(c.out.r0, after.regs, c.lo, c.hole) &&
            Get(after.regs, reg) == c.out.v && reg < MAXSTACK &&
            (reg >= s.nactvar ==> s.freereg == reg + 1)
  {
    var e := Exp(KNonReloc(reg), [], []);
    assert Body(s, e.kind) == s.code && Open(s, e, c.o) == OpenOf(s, [], [], c.o);
  }

  lemma HoleMeans(c: Ctx, s: Gen, e: Exp, reg: nat)
    requires Means(c, s, e) && c.hole == -1
    ensures Means(c.(hole := reg), s, e)
  {
    var c' := c.(hole := reg);
    assert StopOf(c', s, e) == StopOf(c, s, e);
  }

  /** Assigning any expression to a local changes that local and no other register in use. */
  lemma AssignmentValue(m: Machine, s: Gen, x: Expr, reg: nat, o: set<nat>, start: nat, regs: seq<Value>)
    requires Quiet(m, s, o, x) && reg < s.nactvar && CompileToLocal(m, s, x, reg).Ok? && CleanIn(m, s, x)
    requires CompileToLocal(m, s, x, reg).value.0.k <= m.k && Arriving(m, s, o, start, regs)
    ensures var s', before := CompileToLocal(m, s, x, reg).value.0, Outcome(m, s, o, start, regs);
            var after := Outcome(m, s', o, start, regs);
            Falls(s'.code, s'.jpc, after) && s'.freereg == s.freereg && |after.regs| == |before.regs| == MAXSTACK &&
            reg < MAXSTACK &&
            after.regs[reg] == Eval(m, x, before.regs) &&
            forall i :: 0 <= i < s.freereg && i != reg && i < MAXSTACK ==> after.regs[i] == before.regs[i]
  {
    var c := CtxOf(m, s, x, o, start, regs);
    var c' := c.(hole := reg);
    var s1, e := Compile(m, s, x).value.0, Compile(m, s, x).value.1;
    var s2 := FreeExp(s1, e);
    assert reg < MAXSTACK;
    ArrivingReached(m, s, x, o, start, regs);
    hide Compile, ExpToReg, CleanIn, Quiet, Arriving, Ready, Reached, Run;
    CompileOk(c, s, x);
    FreedPlaced(c, s1, e);
    ExpToRegOk(c', s2, e, reg);
    hide Fit, Placed, FreeExp;
    hide Means;
    CompileRun(c, s, x);
    HoleMeans(c, s1, e, reg);
    RegsDenote(c', s1, s2, e);
    MeansParts(c', s2, e);
    ExpToRegRun(c', s2, e, reg);
    InLocal(c', ExpToReg(s2, e, reg).value.0, reg);
  }

  lemma MeansParts(c: Ctx, s: Gen, e: Exp)
    requires Means(c, s, e)
    ensures Denotes(c, s, e) && NilsOk(c, s, e)
  {
  }

  lemma FreedPlaced(c: Ctx, s: Gen, e: Exp)
    requires Fit(c, s, e)
    ensures var s2 := FreeExp(s, e); s2 == s.(freereg := c.lo) && Placed(c.m, s2, e, c.o)
  {
    RegsPlaced(c, s, s.(freereg := c.lo), e);
  }

  lemma InLocal(c: Ctx, s: Gen, reg: nat)
    requires Denotes(c, s, Exp(KNonReloc(reg), [], [])) && c.out.Gives?
    ensures var after := Outcome(c.m, s, c.o, c.start, c.regs);
            Falls(s.code, s.jpc, after) && Keeps(c.out.r0, after.regs, c.lo, c.hole) && Get(after.regs, reg) == c.out.v
  {
    var e := Exp(KNonReloc(reg), [], []);
    assert Body(s, e.kind) == s.code && Open(s, e, c.o) == OpenOf(s, [], [], c.o);
  }

  /** From a label, running just the code of the expression has this effect. */
  lemma ExpressionFromHere(m: Machine, s: Gen, x: Expr, regs: seq<Value>)
    requires Quiet(m, s, {}, x) && CompileToNextReg(m, s, x).Ok? && CleanIn(m, s, x) &&
             CompileToNextReg(m, s, x).value.0.k <= m.k
    requires |regs| == MAXSTACK && s.lasttarget == |s.code| > 0
    ensures var s' := CompileToNextReg(m, s, x).value.0;
            var after := Run(m, s'.code, Elems(s'.jpc), |s.code|, regs);
            Falls(s'.code, s'.jpc, after) && |after.regs| == MAXSTACK && s.freereg < MAXSTACK &&
            after.regs[s.freereg] == Eval(m, x, regs) &&
            forall i :: 0 <= i < s.freereg ==> after.regs[i] == regs[i]
  {
    var s' := CompileToNextReg(m, s, x).value.0;
    assert Outcome(m, s, {}, |s.code|, regs) == Stop(|s.code|, regs);
    assert OpenOf(s', [], [], {}) == Elems(s'.jpc);
    hide CompileToNextReg, CleanIn, Quiet;
    ExpressionValue(m, s, x, {}, |s.code|, regs);
  }

  // ----- where it fails -----

  ghost predicate WrongAt(s: Gen, cond: bool, stop: Stop)
  {
    var j := JumpOf(s.code, stop.pc);
    j in s.jpc && CarriesValue(s.code, j) && !(j != stop.pc && Get(stop.regs, s.code[j - 1].b) == Bool(cond))
  }

  /** The run comes to the constant by a pending jump whose `TESTSET` would store another value. */
  ghost predicate CarriesWrong(c: Ctx, s: Gen, e: Exp, cond: bool)
  {
    c.out.Gives? && WrongAt(s, cond, StopOf(c, s, e))
  }

  /** `luaK_goiftrue` on the constant false and `luaK_goiffalse` on true do what they should exactly when the run
      does not come to that constant by a waiting jump that carries another value.  This is said of the step, and not
      of a whole expression, since what the step gets wrong need not be seen: a `not` around it drops the value that
      the jump carries and keeps its truth, which is right. */
  lemma ConstantExit(c: Ctx, s: Gen, e: Exp, cond: bool)
    requires Placed(c.m, s, e, c.o) && Denotes(c, s, e) && AlwaysLeaves(e.kind, cond) && Jump(s).Ok?
    ensures var s', l := Jump(s).value.0, Jump(s).value.1;
            Decides(c, s', WithT(e.t, l, cond), WithF(e.f, l, cond), !cond) <==> !CarriesWrong(c, s, e, cond)
  {
    var s', l, n, stop := Jump(s).value.0, Jump(s).value.1, |s.code|, StopOf(c, s, e);
    var t', f' := WithT(e.t, l, cond), WithF(e.f, l, cond);
    AlwaysStop(c, s, e, cond);
    JumpOk(s, e.t, e.f, c.o);
    assert Body(s, e.kind) == s.code;
    hide Jump, Run, OpenOf, StopOf, WithT, WithF, Holds, Exits, Frame, Threaded;
    if c.out.Gives? && Falls(s.code, s.jpc, stop) {
      hide GenOk, ListsOk, WrongAt, Leaves;
      ConstantValue(c, s, s', e, l, cond, stop);
    } else {
      NotPending(c, s, e, cond);
      hide WrongAt;
      LeavesCarry(c, s.code, s'.code, e.t, e.f, stop);
      hide GenOk, ListsOk, Leaves;
      AlwaysMore(c, s'.code, e, l, cond, stop);
    }
  }

  lemma AlwaysMore(c: Ctx, code: seq<Instr>, e: Exp, l: seq<nat>, cond: bool, stop: Stop)
    requires Leaves(c, code, e.t, e.f, stop)
    ensures Leaves(c, code, WithT(e.t, l, cond), WithF(e.f, l, cond), stop)
  {
    LeavesMore(c, code, e.t, e.f, WithT(e.t, l, cond), WithF(e.f, l, cond), stop);
  }

  lemma NotPending(c: Ctx, s: Gen, e: Exp, cond: bool)
    requires !(c.out.Gives? && Falls(s.code, s.jpc, StopOf(c, s, e)))
    ensures !CarriesWrong(c, s, e, cond)
  {
  }

  lemma ConstantValue(c: Ctx, s: Gen, s': Gen, e: Exp, l: seq<nat>, cond: bool, stop: Stop)
    requires GenOk(s) && ListsOk(s, e.t, e.f, c.o) && AlwaysLeaves(e.kind, cond) && c.out.Gives? && s'.jpc == []
    requires |s'.code| == |s.code| + 1 && (forall i :: 0 <= i < |s.code| ==> s'.code[i] == s.code[i]) &&
             s'.code[|s.code|].Jmp?
    requires l == [|s.code|] + s.jpc && Falls(s.code, s.jpc, stop)
    requires Keeps(c.out.r0, stop.regs, c.lo, c.hole) && Holds(c.m, s, e.kind, stop.regs, c.out.v)
    ensures !Falls(s'.code, s'.jpc, stop)
    ensures Leaves(c, s'.code, WithT(e.t, l, cond), WithF(e.f, l, cond), stop) <==>
            !WrongAt(s, cond, stop)
  {
    var p, n := stop.pc, |s.code|;
    var j := JumpOf(s.code, p);
    var t', f' := WithT(e.t, l, cond), WithF(e.f, l, cond);
    assert 0 <= p <= n && j in l && c.out.v == Bool(cond);
    assert j !in e.t && j !in e.f;
    if p < n && s.code[p].TestSet? {
      assert Leaves(c, s'.code, t', f', stop) <==> Exits(s'.code, if cond then t' else f', cond, stop, c.out.v);
    } else {
      ConstantPlain(c, s, s', e, l, cond, stop);
    }
  }

  lemma ConstantPlain(c: Ctx, s: Gen, s': Gen, e: Exp, l: seq<nat>, cond: bool, stop: Stop)
    requires GenOk(s) && ListsOk(s, e.t, e.f, c.o) && c.out.Gives? && Keeps(c.out.r0, stop.regs, c.lo, c.hole) &&
             c.out.v == Bool(cond)
    requires |s'.code| == |s.code| + 1 && (forall i :: 0 <= i < |s.code| ==> s'.code[i] == s.code[i]) &&
             s'.code[|s.code|].Jmp?
    requires stop.pc in l && l == [|s.code|] + s.jpc
    ensures Leaves(c, s'.code, WithT(e.t, l, cond), WithF(e.f, l, cond), stop) <==>
              !(stop.pc < |s.code| && CarriesValue(s.code, stop.pc))
  {
    var p, n := stop.pc, |s.code|;
    var t', f' := WithT(e.t, l, cond), WithF(e.f, l, cond);
    assert s'.code[p].Jmp? && (if cond then p in t' else p in f');
    assert CarriesValue(s'.code, p) <==> p < n && CarriesValue(s.code, p) by {
      if p == n && n > 0 { assert s'.code[n - 1] == s.code[n - 1]; }
    }
    hide GenOk, ListsOk, WithT, WithF, CarriesValue;
    if cond {
      assert Exits(s'.code, t', true, stop, c.out.v) <==> !CarriesValue(s'.code, p);
    } else {
      assert Exits(s'.code, f', false, stop, c.out.v) <==> !CarriesValue(s'.code, p);
    }
  }
}
