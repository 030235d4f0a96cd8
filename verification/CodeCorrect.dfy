/** Running the code of an expression computes its value. */
module CodeCorrect {
  import opened LuaCode
  import opened CodeGen
  import opened CodeShape
  import opened CodeRuns
  import opened CodeMeaning
  import opened CodeExits
  import opened CodeOperands
  import opened CodeConds
  import opened CodeOps
  import opened CodeExpr
  import opened CodeCompile

  const VOID := Exp(KNil, [], [])

  function StopAt(c: Ctx, s: Gen): Stop
  {
    Run(c.m, s.code, OpenOf(s, [], [], c.o), c.start, c.regs)
  }

  /** The run comes to where the code of `x` will begin, or has left before. */
  ghost predicate Reached(c: Ctx, s: Gen, x: Expr)
  {
    c.hole == -1 && NilsOk(c, s, VOID) &&
    match c.out
    case Gives(r0, v) => Falls(s.code, s.jpc, StopAt(c, s)) && StopAt(c, s).regs == r0 && |r0| == MAXSTACK && v ==
      Eval(c.m, x, r0)
    case Left(_) => Leaves(c, s.code, [], [], StopAt(c, s))
  }

  /** The same context for another value. */
  function ForValue(c: Ctx, v: Value): Ctx
  {
    if c.out.Gives? then c.(out := Gives(c.out.r0, v)) else c
  }

  function ForExpr(c: Ctx, x: Expr): Ctx
  {
    if c.out.Gives? then ForValue(c, Eval(c.m, x, c.out.r0)) else c
  }

  lemma ReachedFor(c: Ctx, s: Gen, x: Expr, y: Expr)
    requires Reached(c, s, x)
    ensures Reached(ForExpr(c, y), s, y)
  {
  }

  /** An expression that needs no code. */
  lemma PlainMeans(c: Ctx, s: Gen, x: Expr, s': Gen, k: Kind)
    requires Reached(c, s, x) && s'.code == s.code && s'.jpc == s.jpc && s'.lasttarget == s.lasttarget &&
             s'.nactvar == s.nactvar
    requires Tail(k) == 0 && (c.out.Gives? ==> Holds(c.m, s', k, c.out.r0, c.out.v))
    ensures Means(c, s', Exp(k, [], []))
  {
    assert Body(s', k) == s.code && Open(s', Exp(k, [], []), c.o) == OpenOf(s, [], [], c.o) == Open(s, VOID, c.o);
  }

  // ----- unary operators -----

  lemma UnaryBoth(c: Ctx, s: Gen, e: Exp, v1: Value)
    requires Means(ForValue(c, v1), s, e) && IsOperand(e) && e.kind.KNonReloc? && e.kind.reg < MAXSTACK
    ensures Both(c, s.(freereg := c.lo), e.kind.reg, v1, 0, RK(c.m, StopAt(c, s).regs, 0))
  {
    assert Body(s, e.kind) == s.code && Open(s, e, c.o) == OpenOf(s, [], [], c.o);
  }

  lemma UnaryRun(c: Ctx, s: Gen, op: ArithOp, e: Exp, v1: Value)
    requires Fit(c, s, e) && Means(ForValue(c, v1), s, e) && IsUnary(op) && IsOperand(e) && e.kind.KNonReloc?
    requires CodeArith(c.m, s, op, e, Exp(KNum(0.0), [], [])).Ok? &&
             (c.out.Gives? ==> c.out.v == Operate(c.m, op, v1, Nil))
    ensures var s', e' := CodeArith(c.m, s, op, e, Exp(KNum(0.0), [], [])).value.0,
                CodeArith(c.m, s, op, e, Exp(KNum(0.0), [], [])).value.1;
            Means(c, s', e')
  {
    UnaryUnfolds(c.m, s, op, e);
    FreedOk(c, s, e);
    var s1 := FreeExp(s, e);
    UnaryBoth(c, s, e, v1);
    MeansEntry(ForValue(c, v1), s, e);
    hide CodeArith, FreeExp, Code, Means, Both;
    ArithMeans(c, s1, op, e.kind.reg, v1, 0, RK(c.m, StopAt(c, s).regs, 0));
  }

  lemma UnaryKeepsK(m: Machine, s: Gen, op: ArithOp, e: Exp)
    requires IsUnary(op) && IsOperand(e) && e.kind.KNonReloc? && e.kind.reg < MAXSTACK &&
             CodeArith(m, s, op, e, Exp(KNum(0.0), [], [])).Ok?
    ensures CodeArith(m, s, op, e, Exp(KNum(0.0), [], [])).value.0.k == s.k
  {
    UnaryUnfolds(m, s, op, e);
  }

  lemma MinusMeans(c: Ctx, s: Gen, e: Exp, v1: Value)
    requires Lawful(c.m) && IsNumeral(e) && Means(ForValue(c, v1), s, e) &&
             (c.out.Gives? ==> c.out.v == Operate(c.m, Unm, v1, Nil))
    ensures Means(c, s, Exp(KNum(c.m.fold(Unm, e.kind.n, 0.0)), [], []))
  {
    var e' := Exp(KNum(c.m.fold(Unm, e.kind.n, 0.0)), [], []);
    assert Body(s, e.kind) == Body(s, e'.kind) && Open(s, e, c.o) == Open(s, e', c.o);
    assert Operate(c.m, Unm, Num(e.kind.n), Num(0.0)) == Num(c.m.fold(Unm, e.kind.n, 0.0));
  }

  lemma RegUnaryRun(c: Ctx, s: Gen, op: ArithOp, e: Exp, v1: Value)
    requires Fit(c, s, e) && Means(ForValue(c, v1), s, e) && IsUnary(op) && ExpToAnyReg(s, e).Ok?
    requires var s1, e1 := ExpToAnyReg(s, e).value.0, ExpToAnyReg(s, e).value.1;
             CodeArith(c.m, s1, op, e1, Exp(KNum(0.0), [], [])).Ok? &&
             CodeArith(c.m, s1, op, e1, Exp(KNum(0.0), [], [])).value.0.k <= c.m.k
    requires c.out.Gives? ==> c.out.v == Operate(c.m, op, v1, Nil)
    ensures var s1, e1 := ExpToAnyReg(s, e).value.0, ExpToAnyReg(s, e).value.1;
            var r := CodeArith(c.m, s1, op, e1, Exp(KNum(0.0), [], [])).value;
            Means(c, r.0, r.1)
  {
    var c1 := ForValue(c, v1);
    hide CodeArith, ExpToAnyReg, Means, Advances;
    assert Fit(c1, s, e);
    ExpToAnyRegOk(c1, s, e);
    var s1, e1 := ExpToAnyReg(s, e).value.0, ExpToAnyReg(s, e).value.1;
    assert Fit(c, s1, e1);
    UnaryKeepsK(c.m, s1, op, e1);
    ExpToAnyRegRun(c1, s, e);
    UnaryRun(c, s1, op, e1, v1);
  }

  /** `luaK_prefix`. */
  lemma PrefixRun(c: Ctx, s: Gen, op: UnOp, e: Exp, x: Expr)
    requires Lawful(c.m) && Fit(c, s, e) && Means(ForExpr(c, x), s, e) && Prefix(c.m, s, op, e).Ok? &&
             Prefix(c.m, s, op, e).value.0.k <= c.m.k
    requires c.out.Gives? ==> c.out.v == Eval(c.m, Unary(op, x), c.out.r0)
    ensures var s', e' := Prefix(c.m, s, op, e).value.0, Prefix(c.m, s, op, e).value.1; Means(c, s', e')
  {
    var v1 := if c.out.Gives? then Eval(c.m, x, c.out.r0) else Nil;
    assert ForExpr(c, x) == ForValue(c, v1);
    hide CodeArith, CodeNot, ExpToAnyReg, Means;
    match op
    case OprNot =>
      assert Negated(ForExpr(c, x)) == c;
      assert Fit(ForExpr(c, x), s, e);
      CodeNotRun(ForExpr(c, x), s, e);
    case OprMinus =>
      if IsNumeral(e) {
        MinusNumeral(c.m, s, e);
        MinusMeans(c, s, e, v1);
      } else {
        RegUnaryRun(c, s, Unm, e, v1);
      }
    case OprLen => RegUnaryRun(c, s, Len, e, v1);
  }

  // ----- binary operators -----

  /** The first operand has this value, whatever happens in registers above. */
  ghost predicate Stands(m: Machine, e: Exp, regs: seq<Value>, v: Value)
  {
    if e.kind.KNum? then v == Num(e.kind.n) else RK(m, regs, RKOf(e)) == v
  }

  /** The context of the second operand follows from that of the whole expression. */
  ghost predicate Chained(c: Ctx, c2: Ctx, e1: Exp, v1: Value)
  {
    c2 == c.(lo := c2.lo, out := c2.out) && c.hole == -1 && c.lo <= c2.lo &&
    (e1.kind.KNonReloc? ==> e1.kind.reg < c2.lo && e1.kind.reg < MAXSTACK) &&
    match c.out
    case Left(_) => c2.out == c.out
    case Gives(r0, _) => c2.out.Gives? && Keeps(r0, c2.out.r0, c.lo, c.hole) && Stands(c.m, e1, c2.out.r0, v1)
  }

  /** The context in which the second operand is compiled. */
  function SecondCtx(c: Ctx, s: Gen, z: Expr): Ctx
  {
    c.(lo := s.freereg, out := if c.out.Gives? then Gives(StopAt(c, s).regs, Eval(c.m, z, StopAt(c, s).regs))
                               else c.out)
  }

  /** What `luaK_infix` leaves for an arithmetic operator or a comparison. */
  ghost predicate FirstDone(c: Ctx, s: Gen, e1: Exp, v1: Value)
  {
    NilsOk(c, s, VOID) &&
    if c.out.Gives? then
      Falls(s.code, s.jpc, StopAt(c, s)) && Keeps(c.out.r0, StopAt(c, s).regs, c.lo, c.hole) &&
      Stands(c.m, e1, StopAt(c, s).regs, v1)
    else Leaves(c, s.code, [], [], StopAt(c, s))
  }

  lemma ReadsDone(c: Ctx, s: Gen, e1: Exp, v1: Value)
    requires Reads(ForValue(c, v1), s, e1) && IsOperand(e1)
    ensures FirstDone(c, s, e1, v1)
  {
    assert Open(s, e1, c.o) == OpenOf(s, [], [], c.o) == Open(s, VOID, c.o);
  }

  lemma NumeralDone(c: Ctx, s: Gen, e1: Exp, v1: Value)
    requires Means(ForValue(c, v1), s, e1) && IsNumeral(e1)
    ensures FirstDone(c, s, e1, v1)
  {
    assert Open(s, e1, c.o) == OpenOf(s, [], [], c.o) == Open(s, VOID, c.o);
    assert Body(s, e1.kind) == s.code;
  }

  lemma InfixRun(c: Ctx, s: Gen, op: BinOp, e: Exp, v1: Value)
    requires Fit(c, s, e) && Means(ForValue(c, v1), s, e) && (op.OprArith? || op.OprCmp?) && Infix(s, op, e).Ok?
    requires Infix(s, op, e).value.0.k <= c.m.k
    ensures var s', e' := Infix(s, op, e).value.0, Infix(s, op, e).value.1; FirstDone(c, s', e', v1)
  {
    if op.OprArith? && IsNumeral(e) {
      NumeralDone(c, s, e, v1);
    } else {
      hide Means, ExpToRK, FirstDone, Reads;
      assert Fit(ForValue(c, v1), s, e);
      ExpToRKOk(ForValue(c, v1), s, e);
      ExpToRKRun(ForValue(c, v1), s, e);
      ReadsDone(c, ExpToRK(s, e).value.0, ExpToRK(s, e).value.1, v1);
    }
  }

  lemma SecondReached(c: Ctx, s: Gen, e1: Exp, v1: Value, z: Expr, lo2: nat)
    requires FirstDone(c, s, e1, v1) && First(c, s, e1, lo2) && s.freereg == lo2 && c.hole == -1
    ensures Reached(SecondCtx(c, s, z), s, z) && Chained(c, SecondCtx(c, s, z), e1, v1)
  {
    var c2 := SecondCtx(c, s, z);
    assert StopAt(c2, s) == StopAt(c, s);
  }

  lemma BothChained(c: Ctx, c2: Ctx, s: Gen, e1: Exp, v1: Value, e2: Exp)
    requires Chained(c, c2, e1, v1) && Reads(c2, s, e2) && IsOperand(e1) && IsOperand(e2)
    ensures Both(c, s, RKOf(e1), v1, RKOf(e2), if c2.out.Gives? then c2.out.v else Nil)
  {
    assert Open(s, e2, c2.o) == OpenOf(s, [], [], c.o);
  }

  // A number that could not be folded becomes an operand after the second one.

  function NumberCtx(c: Ctx, s: Gen, e1: Exp): Ctx
    requires e1.kind.KNum?
  {
    c.(lo := s.freereg, out := if c.out.Gives? then Gives(StopAt(c, s).regs, Num(e1.kind.n)) else c.out)
  }

  lemma NumberMeans(c: Ctx, c2: Ctx, s: Gen, e1: Exp, v1: Value, e2: Exp)
    requires Chained(c, c2, e1, v1) && IsNumeral(e1) && Reads(c2, s, e2) && IsOperand(e2)
    ensures Means(NumberCtx(c, s, e1), s, e1)
  {
    var c3 := NumberCtx(c, s, e1);
    assert Open(s, e2, c2.o) == OpenOf(s, [], [], c.o) == Open(s, e1, c3.o);
    assert Body(s, e1.kind) == s.code;
  }

  lemma BothNumber(c: Ctx, c2: Ctx, s: Gen, e1: Exp, v1: Value, e2: Exp, s': Gen, r1: Exp)
    requires Chained(c, c2, e1, v1) && IsNumeral(e1) && Reads(c2, s, e2) && IsOperand(e2) && Fit(c2, s, e2)
    requires Reads(NumberCtx(c, s, e1), s', r1) && IsOperand(r1)
    ensures Both(c, s', RKOf(r1), v1, RKOf(e2), if c2.out.Gives? then c2.out.v else Nil)
  {
    var c3 := NumberCtx(c, s, e1);
    assert Open(s, e2, c2.o) == OpenOf(s, [], [], c.o);
    assert Open(s', r1, c3.o) == OpenOf(s', [], [], c.o);
    if c.out.Gives? {
      var q, q' := StopAt(c, s).regs, StopAt(c, s').regs;
      assert Keeps(q, q', s.freereg, c.hole);
      assert RK(c.m, q', RKOf(e2)) == RK(c.m, q, RKOf(e2));
    }
  }

  lemma FoldMeans(c: Ctx, c2: Ctx, s: Gen, op: ArithOp, e1: Exp, v1: Value, e2: Exp)
    requires Lawful(c.m) && Chained(c, c2, e1, v1) && Means(c2, s, e2) && Fold(c.m, op, e1, e2).Ok? && !IsUnary(op)
    requires c.out.Gives? ==> c.out.v == Operate(c.m, op, v1, c2.out.v)
    ensures Means(c, s, Exp(KNum(Fold(c.m, op, e1, e2).value), [], []))
  {
    var e' := Exp(KNum(Fold(c.m, op, e1, e2).value), [], []);
    assert Body(s, e2.kind) == Body(s, e'.kind) && Open(s, e2, c.o) == Open(s, e', c.o);
    assert Operate(c.m, op, Num(e1.kind.n), Num(e2.kind.n)) == Num(c.m.fold(op, e1.kind.n, e2.kind.n));
  }

  lemma ArithBoth(c: Ctx, c2: Ctx, s: Gen, e1: Exp, v1: Value, r2: Exp, lo2: nat)
    requires First(c, s, e1, lo2) && c2.lo == lo2 && Fit(c2, s, r2) && Chained(c, c2, e1, v1) && Reads(c2, s, r2) &&
             IsOperand(r2)
    requires ExpToRK(s, e1).Ok? && ExpToRK(s, e1).value.0.k <= c.m.k
    ensures var s1, r1 := ExpToRK(s, e1).value.0, ExpToRK(s, e1).value.1;
            Both(c, s1, RKOf(r1), v1, RKOf(r2), if c2.out.Gives? then c2.out.v else Nil)
  {
    assert Fit(Within(c, lo2, c.o), s, r2);
    hide ExpToRK, Reads, Both, Means, Advances, BothRegs;
    FirstToRK(c, s, e1, r2, lo2);
    if IsOperand(e1) {
      BothChained(c, c2, s, e1, v1, r2);
    } else {
      var c3 := NumberCtx(c, s, e1);
      NumberMeans(c, c2, s, e1, v1, r2);
      assert Fit(c3, s, e1);
      ExpToRKRun(c3, s, e1);
      BothNumber(c, c2, s, e1, v1, r2, ExpToRK(s, e1).value.0, ExpToRK(s, e1).value.1);
    }
  }

  /** `codearith`. */
  lemma ArithRun(c: Ctx, c2: Ctx, s: Gen, op: ArithOp, e1: Exp, v1: Value, e2: Exp, lo2: nat)
    requires Lawful(c.m) && !IsUnary(op) && First(c, s, e1, lo2) && c2.lo == lo2 && Fit(c2, s, e2) &&
             Chained(c, c2, e1, v1) && Means(c2, s, e2)
    requires CodeArith(c.m, s, op, e1, e2).Ok? && CodeArith(c.m, s, op, e1, e2).value.0.k <= c.m.k
    requires c.out.Gives? ==> c.out.v == Operate(c.m, op, v1, c2.out.v)
    ensures var s', e' := CodeArith(c.m, s, op, e1, e2).value.0, CodeArith(c.m, s, op, e1, e2).value.1; Means(c, s', e')
  {
    if Fold(c.m, op, e1, e2).Ok? {
      hide Means;
      FoldMeans(c, c2, s, op, e1, v1, e2);
    } else {
      ArithUnfolds(c.m, s, op, e1, e2);
      var s2, r2 := ExpToRK(s, e2).value.0, ExpToRK(s, e2).value.1;
      var s1, r1 := ExpToRK(s2, e1).value.0, ExpToRK(s2, e1).value.1;
      ArithSteps(c, c2, s, op, e1, e2, lo2);
      hide CodeArith, Fold, ExpToRK, Code, Means, Reads, Both, FreeBoth, BothRegs, Fit, First, GenOk, ListsOk, Lawful;
      MeansEntry(c2, s, e2);
      assert EntryOk(c, s.nactvar);
      hide EntryOk;
      ExpToRKRun(c2, s, e2);
      ExpToRKOk(c2, s, e2);
      assert Advances(Within(c, lo2, c.o), s, s2);
      FirstStays(c, s, s2, e1, lo2);
      ArithBoth(c, c2, s2, e1, v1, r2, lo2);
      BothFreed(c, s1, FreeBoth(s1, r1, r2, RKOf(r1), RKOf(r2)), RKOf(r1), v1, RKOf(r2), if c2.out.Gives? then c2.out.v
        else Nil);
      ArithMeans(c, FreeBoth(s1, r1, r2, RKOf(r1), RKOf(r2)), op, RKOf(r1), v1, RKOf(r2), if c2.out.Gives?
        then c2.out.v else Nil);
    }
  }

  lemma BothFreed(c: Ctx, s: Gen, s': Gen, x1: nat, v1: Value, x2: nat, v2: Value)
    requires Both(c, s, x1, v1, x2, v2) && s' == s.(freereg := s'.freereg)
    ensures Both(c, s', x1, v1, x2, v2)
  {
  }

  lemma ArithSteps(c: Ctx, c2: Ctx, s: Gen, op: ArithOp, e1: Exp, e2: Exp, lo2: nat)
    requires !IsUnary(op) && First(c, s, e1, lo2) && c2.lo == lo2 && c2.m == c.m && c2.o == c.o && Fit(c2, s, e2)
    requires CodeArith(c.m, s, op, e1, e2).Ok? && Fold(c.m, op, e1, e2).Err?
    ensures ExpToRK(s, e2).Ok? &&
            var s2, r2 := ExpToRK(s, e2).value.0, ExpToRK(s, e2).value.1;
            ExpToRK(s2, e1).Ok? &&
            var s1, r1 := ExpToRK(s2, e1).value.0, ExpToRK(s2, e1).value.1;
            var s3, i := FreeBoth(s1, r1, r2, RKOf(r1), RKOf(r2)), Arith(op, 0, RKOf(r1), RKOf(r2));
            Code(s3, i).Ok? && s3 == s1.(freereg := c.lo) && GenOk(s3) && ListsOk(s3, [], [], c.o) &&
            r1.t == r1.f == [] &&
            s1.nactvar == s.nactvar && s2.k <= s1.k && s1.k == CodeArith(c.m, s, op, e1, e2).value.0.k
  {
    ArithUnfolds(c.m, s, op, e1, e2);
    var s2, r2 := ExpToRK(s, e2).value.0, ExpToRK(s, e2).value.1;
    var s1, r1 := ExpToRK(s2, e1).value.0, ExpToRK(s2, e1).value.1;
    var s3, i := FreeBoth(s1, r1, r2, RKOf(r1), RKOf(r2)), Arith(op, 0, RKOf(r1), RKOf(r2));
    assert Code(s3, i).value.k == s3.k;
    hide CodeArith, Fold, ExpToRK, Code, FreeBoth, Frame, ListsOk;
    ExpToRKOk(c2, s, e2);
    assert Fit(Within(c, lo2, c.o), s2, r2);
    FirstToRK(c, s2, e1, r2, lo2);
    FreeBothOk(s1, r1, r2, c.lo);
    SameLists(s1, s3, [], [], c.o);
  }

  /** `codecomp`. */
  lemma CompRun(c: Ctx, c2: Ctx, s: Gen, op: CmpOp, cond: bool, e1: Exp, v1: Value, e2: Exp, lo2: nat)
    requires First(c, s, e1, lo2) && IsOperand(e1) && c2.lo == lo2 && Fit(c2, s, e2) && Chained(c, c2, e1, v1) &&
             Means(c2, s, e2)
    requires CodeComp(s, op, cond, e1, e2).Ok? && CodeComp(s, op, cond, e1, e2).value.0.k <= c.m.k
    requires c.out.Gives? ==> c.out.v == EvalCompare(c.m, op, cond, v1, c2.out.v)
    ensures var s', e' := CodeComp(s, op, cond, e1, e2).value.0, CodeComp(s, op, cond, e1, e2).value.1; Means(c, s', e')
  {
    hide CodeComp, ExpToRK, CondJump, Means, Reads, Both, Frame, Fit, First;
    CompUnfolds(s, op, cond, e1, e2);
    var s2, r2 := ExpToRK(s, e2).value.0, ExpToRK(s, e2).value.1;
    var i := ComparisonOf(op, cond, RKOf(e1), RKOf(r2));
    MeansEntry(c2, s, e2);
    assert EntryOk(c, s.nactvar);
    hide EntryOk, ComparisonOf;
    ExpToRKOk(c2, s, e2);
    assert Advances(Within(c, lo2, c.o), s, s2);
    FirstStays(c, s, s2, e1, lo2);
    FitWithin(c, c2, s2, r2, lo2);
    CompRegs(c, s2, e1, r2, lo2);
    var s3 := FreeExp(FreeExp(s2, r2), e1);
    hide FreeExp, GenOk, ListsOk;
    CondJumpKeepsK(s3, i);
    ExpToRKRun(c2, s, e2);
    BothChained(c, c2, s2, e1, v1, r2);
    var v2 := if c2.out.Gives? then c2.out.v else Nil;
    BothFreed(c, s2, s3, RKOf(e1), v1, RKOf(r2), v2);
    ComparisonValue(c, op, cond, RKOf(e1), v1, RKOf(r2), v2, s3);
    CompareMeans(c, s3, i, RKOf(e1), v1, RKOf(r2), v2);
  }

  lemma FitWithin(c: Ctx, c2: Ctx, s: Gen, e: Exp, lo2: nat)
    requires Fit(c2, s, e) && c2.m == c.m && c2.o == c.o && c2.lo == lo2
    ensures Fit(Within(c, lo2, c.o), s, e)
  {
  }

  lemma ComparisonValue(c: Ctx, op: CmpOp, cond: bool, x1: nat, v1: Value, x2: nat, v2: Value, s: Gen)
    requires Both(c, s, x1, v1, x2, v2) && (c.out.Gives? ==> c.out.v == EvalCompare(c.m, op, cond, v1, v2))
    ensures var i := ComparisonOf(op, cond, x1, x2);
            c.out.Gives? ==>
              c.out.v == Bool((if i.b == x1 && i.c == x2 then c.m.compare(i.cmp, v1, v2)
                               else c.m.compare(i.cmp, v2, v1)) == i.cond)
  {
  }

}
