/** Which expressions are compiled right: a condition on the expression alone, and a counterexample. */
module CodeClean {
  import opened Seqs
  import opened LuaCode
  import opened CodeLists
  import opened CodeGen
  import opened CodeExpr
  import opened CodeTheorem

  // ----- a condition that can be read off the expression -----

  /** The expression may end in the constant nil, in a number or string, or in the constant `b`. */
  predicate MayBeNil(x: Expr)
  {
    match x
    case ENil => true
    case Paren(y) => MayBeNil(y)
    case Binary(op, _, z) => (op.OprAnd? || op.OprOr?) && MayBeNil(z)
    case _ => false
  }

  predicate MayBeConstant(x: Expr)
  {
    match x
    case ENum(_) => true
    case EStr(_) => true
    case Paren(y) => MayBeConstant(y)
    case Unary(op, _) => op.OprMinus?
    case Binary(op, _, z) => op.OprArith? || ((op.OprAnd? || op.OprOr?) && MayBeConstant(z))
    case _ => false
  }

  predicate MayBe(x: Expr, b: bool)
  {
    match x
    case ETrue => b
    case EFalse => !b
    case Paren(y) => MayBe(y, b)
    case Unary(op, y) => op.OprNot? && (MayBe(y, !b) || (if b then MayBeNil(y) else MayBeConstant(y)))
    case Binary(op, _, z) => (op.OprAnd? || op.OprOr?) && MayBe(z, b)
    case _ => false
  }

  /** No jump leaves the expression. */
  predicate NoExits(x: Expr)
  {
    match x
    case Paren(y) => NoExits(y)
    case Unary(_, y) => NoExits(y)
    case Binary(op, y, _) => (op.OprArith? || op.OprCmp?) && NoExits(y)
    case _ => true
  }

  /** The expression has no exits, and its truth is tested when the program runs. */
  predicate Tested(x: Expr)
  {
    match x
    case Local(_) => true
    case Paren(y) => Tested(y)
    case Unary(op, y) => (op.OprLen? && NoExits(y)) || (op.OprNot? && Tested(y))
    case Binary(op, y, _) => op.OprCmp? && NoExits(y)
    case _ => false
  }

  predicate Constant(x: Expr)
  {
    match x
    case Paren(y) => Constant(y)
    case _ => x.ENil? || x.ETrue? || x.EFalse? || x.ENum? || x.EStr?
  }

  /** The expression ends in a constant that no jump leads to. */
  predicate EndsQuiet(x: Expr)
  {
    match x
    case Paren(y) => EndsQuiet(y)
    case Unary(op, y) => op.OprNot? && EndsQuiet(y)
    case Binary(op, y, z) => (op.OprAnd? || op.OprOr?) && Tested(y) && Constant(z)
    case _ => false
  }

  /** No `and` has a left operand that may end in false while jumps lead there, and no `or` one that may end in true. */
  predicate Plain(x: Expr)
  {
    match x
    case Paren(y) => Plain(y)
    case Unary(_, y) => Plain(y)
    case Binary(op, y, z) =>
      Plain(y) && Plain(z) && (EndsQuiet(y) || ((op.OprAnd? ==> !MayBe(y, false)) && (op.OprOr? ==> !MayBe(y, true))))
    case _ => true
  }

  ghost predicate KindMay(k: Kind, x: Expr)
  {
    (k.KTrue? ==> MayBe(x, true)) && (k.KFalse? ==> MayBe(x, false)) && (k.KNil? ==> MayBeNil(x)) &&
    (k.KK? || k.KNum? ==> MayBeConstant(x))
  }

  lemma NotKind(s: Gen, e: Exp, y: Expr)
    requires KindMay(e.kind, y) && CodeNot(s, e).Ok?
    ensures KindMay(CodeNot(s, e).value.1.kind, Unary(OprNot, y))
  {
    hide DischargeToAnyReg, Code, RemoveValues;
  }

  lemma ArithKind(m: Machine, s: Gen, op: ArithOp, e1: Exp, e2: Exp)
    requires CodeArith(m, s, op, e1, e2).Ok?
    ensures var k := CodeArith(m, s, op, e1, e2).value.1.kind; k.KReloc? || (k.KNum? && op != Len)
  {
    hide ExpToRK, Code, FreeBoth;
  }

  lemma {:induction false} CompiledKind(m: Machine, s: Gen, x: Expr)
    requires Compile(m, s, x).Ok?
    ensures KindMay(Compile(m, s, x).value.1.kind, x)
    decreases x
  {
    match x
    case Paren(y) => CompiledKind(m, s, y);
    case Unary(op, y) =>
      CompiledKind(m, s, y);
      var s1, e := Compile(m, s, y).value.0, Compile(m, s, y).value.1;
      hide ExpToAnyReg, CodeArith, CodeNot;
      if op.OprNot? {
        NotKind(s1, e, y);
      } else if op.OprMinus? {
        var r := if IsNumeral(e) then (s1, e) else ExpToAnyReg(s1, e).value;
        ArithKind(m, r.0, Unm, r.1, Exp(KNum(0.0), [], []));
      } else {
        var r := ExpToAnyReg(s1, e).value;
        ArithKind(m, r.0, Len, r.1, Exp(KNum(0.0), [], []));
      }
    case Binary(op, y, z) =>
      var s1, e1 := Compile(m, s, y).value.0, Compile(m, s, y).value.1;
      var s2, r1 := Infix(s1, op, e1).value.0, Infix(s1, op, e1).value.1;
      CompiledKind(m, s2, z);
      var s3, e2 := Compile(m, s2, z).value.0, Compile(m, s2, z).value.1;
      hide Infix, CodeArith, CodeComp;
      if op.OprArith? {
        ArithKind(m, s3, op.op, r1, e2);
      } else if op.OprCmp? {
        ComparisonKind(s3, op.cmp, op.cond, r1, e2);
      }
    case _ =>
  }

  lemma ComparisonKind(s: Gen, cmp: CmpOp, cond: bool, e1: Exp, e2: Exp)
    requires CodeComp(s, cmp, cond, e1, e2).Ok?
    ensures CodeComp(s, cmp, cond, e1, e2).value.1.kind.KJmp?
  {
    hide ExpToRK, FreeExp, CondJump;
  }

  ghost predicate Closed(e: Exp)
  {
    e.t == [] && e.f == []
  }

  lemma RKClosed(s: Gen, e: Exp)
    requires Closed(e) && ExpToRK(s, e).Ok?
    ensures Closed(ExpToRK(s, e).value.1)
  {
    hide GatherExits, CloseExits, ReserveReg, AddK;
  }

  lemma ArithClosed(m: Machine, s: Gen, op: ArithOp, e1: Exp, e2: Exp)
    requires Closed(e1) && CodeArith(m, s, op, e1, e2).Ok?
    ensures Closed(CodeArith(m, s, op, e1, e2).value.1)
  {
    if !Fold(m, op, e1, e2).Ok? {
      var s2 := (if IsUnary(op) then Ok((s, e2)) else ExpToRK(s, e2)).value.0;
      RKClosed(s2, e1);
    }
    hide ExpToRK, Code, FreeBoth, Fold;
  }

  lemma CompClosed(s: Gen, cmp: CmpOp, cond: bool, e1: Exp, e2: Exp)
    requires Closed(e1) && CodeComp(s, cmp, cond, e1, e2).Ok?
    ensures var r := CodeComp(s, cmp, cond, e1, e2).value; Closed(r.1) && r.1.kind.KJmp? && r.0.jpc == []
  {
    RKClosed(s, e1);
    hide ExpToRK, FreeExp, Code;
  }

  lemma AnyRegClosed(s: Gen, e: Exp)
    requires ExpToAnyReg(s, e).Ok? && Closed(e)
    ensures Closed(ExpToAnyReg(s, e).value.1)
  {
    hide GatherExits, CloseExits, ReserveReg;
  }

  lemma NotClosed(s: Gen, e: Exp)
    requires Closed(e) && CodeNot(s, e).Ok?
    ensures Closed(CodeNot(s, e).value.1)
  {
    hide Code, RemoveValues, ReserveReg, FreeExp, CodeNil, AddK;
  }

  lemma PrefixClosed(m: Machine, s: Gen, op: UnOp, e: Exp)
    requires Closed(e) && Prefix(m, s, op, e).Ok?
    ensures Closed(Prefix(m, s, op, e).value.1)
  {
    var zero := Exp(KNum(0.0), [], []);
    hide ExpToAnyReg, CodeArith, CodeNot;
    match op
    case OprNot => NotClosed(s, e);
    case OprLen =>
      AnyRegClosed(s, e);
      ArithClosed(m, ExpToAnyReg(s, e).value.0, Len, ExpToAnyReg(s, e).value.1, zero);
    case OprMinus =>
      if IsNumeral(e) {
        ArithClosed(m, s, Unm, e, zero);
      } else {
        AnyRegClosed(s, e);
        ArithClosed(m, ExpToAnyReg(s, e).value.0, Unm, ExpToAnyReg(s, e).value.1, zero);
      }
  }

  lemma {:induction false} NoExitsClosed(m: Machine, s: Gen, x: Expr)
    requires NoExits(x) && Compile(m, s, x).Ok?
    ensures Closed(Compile(m, s, x).value.1)
    decreases x
  {
    hide Prefix, Infix, CodeArith, CodeComp, AddK;
    match x
    case Paren(y) => NoExitsClosed(m, s, y);
    case Unary(op, y) =>
      NoExitsClosed(m, s, y);
      PrefixClosed(m, Compile(m, s, y).value.0, op, Compile(m, s, y).value.1);
    case Binary(op, y, z) =>
      NoExitsClosed(m, s, y);
      var s1, e1 := Compile(m, s, y).value.0, Compile(m, s, y).value.1;
      InfixClosed(s1, op, e1);
      var s2, r1 := Infix(s1, op, e1).value.0, Infix(s1, op, e1).value.1;
      var s3, e2 := Compile(m, s2, z).value.0, Compile(m, s2, z).value.1;
      if op.OprArith? { ArithClosed(m, s3, op.op, r1, e2); } else { CompClosed(s3, op.cmp, op.cond, r1, e2); }
    case _ =>
  }

  lemma InfixClosed(s: Gen, op: BinOp, e: Exp)
    requires Closed(e) && (op.OprArith? || op.OprCmp?) && Infix(s, op, e).Ok?
    ensures Closed(Infix(s, op, e).value.1)
  {
    hide ExpToRK;
    if !(op.OprArith? && IsNumeral(e)) { RKClosed(s, e); }
  }

  /** The kind of an expression whose truth is tested; a comparison has just been coded. */
  ghost predicate TestedKind(s: Gen, k: Kind)
  {
    k.KLocal? || k.KNonReloc? || k.KReloc? || (k.KJmp? && s.jpc == [])
  }

  lemma NotTested(s: Gen, e: Exp)
    requires TestedKind(s, e.kind) && CodeNot(s, e).Ok?
    ensures TestedKind(CodeNot(s, e).value.0, CodeNot(s, e).value.1.kind)
  {
    hide DischargeToAnyReg, Code, RemoveValues;
  }

  lemma {:induction false} TestedIsTested(m: Machine, s: Gen, x: Expr)
    requires Tested(x) && Compile(m, s, x).Ok?
    ensures TestedKind(Compile(m, s, x).value.0, Compile(m, s, x).value.1.kind) && Closed(Compile(m, s, x).value.1)
    decreases x
  {
    match x
    case Local(_) =>
    case Paren(y) => TestedIsTested(m, s, y);
    case Unary(op, y) =>
      var s1, e := Compile(m, s, y).value.0, Compile(m, s, y).value.1;
      hide ExpToAnyReg, CodeArith, CodeNot;
      if op.OprNot? {
        TestedIsTested(m, s, y);
        NotTested(s1, e);
        NotClosed(s1, e);
      } else {
        NoExitsClosed(m, s, y);
        PrefixClosed(m, s1, op, e);
        var r := ExpToAnyReg(s1, e).value;
        ArithKind(m, r.0, Len, r.1, Exp(KNum(0.0), [], []));
      }
    case Binary(op, y, z) =>
      NoExitsClosed(m, s, y);
      var s1, e1 := Compile(m, s, y).value.0, Compile(m, s, y).value.1;
      InfixClosed(s1, op, e1);
      var s2, r1 := Infix(s1, op, e1).value.0, Infix(s1, op, e1).value.1;
      hide Infix, CodeComp;
      var s3, e2 := Compile(m, s2, z).value.0, Compile(m, s2, z).value.1;
      CompClosed(s3, op.cmp, op.cond, r1, e2);
  }

  /** After the test no jump is waiting. */
  lemma GoIfQuiet(s: Gen, e: Exp, cond: bool)
    requires Closed(e) && TestedKind(s, e.kind) && GoIf(s, e, cond).Ok?
    ensures GoIf(s, e, cond).value.0.jpc == []
  {
    hide DischargeToAnyReg, Code, Concat;
  }

  lemma {:induction false} ConstantQuiet(m: Machine, s: Gen, x: Expr)
    requires Constant(x) && Compile(m, s, x).Ok? && s.jpc == []
    ensures Compile(m, s, x).value.0.jpc == []
    decreases x
  {
    if x.Paren? { ConstantQuiet(m, s, x.inner); }
  }

  lemma {:induction false} QuietJpc(m: Machine, s: Gen, x: Expr)
    requires EndsQuiet(x) && Compile(m, s, x).Ok?
    ensures Compile(m, s, x).value.0.jpc == []
    decreases x
  {
    match x
    case Paren(y) => QuietJpc(m, s, y);
    case Unary(op, y) =>
      QuietJpc(m, s, y);
      NotQuiet(Compile(m, s, y).value.0, Compile(m, s, y).value.1);
    case Binary(op, y, z) =>
      TestedIsTested(m, s, y);
      var s1, e1 := Compile(m, s, y).value.0, Compile(m, s, y).value.1;
      GoIfQuiet(s1, e1, op.OprOr?);
      ConstantQuiet(m, Infix(s1, op, e1).value.0, z);
      hide GoIf, Concat;
  }

  lemma NotQuiet(s: Gen, e: Exp)
    requires s.jpc == [] && CodeNot(s, e).Ok?
    ensures CodeNot(s, e).value.0.jpc == []
  {
    hide PatchList, RemoveValues, FreeExp, Concat;
  }

  /** Such an expression is compiled right in every state. */
  lemma {:induction false} PlainIsClean(m: Machine, s: Gen, x: Expr)
    requires Compile(m, s, x).Ok? && Plain(x)
    ensures CleanIn(m, s, x)
    decreases x
  {
    match x
    case Paren(y) => PlainIsClean(m, s, y);
    case Unary(_, y) => PlainIsClean(m, s, y);
    case Binary(op, y, z) =>
      var s1, e1 := Compile(m, s, y).value.0, Compile(m, s, y).value.1;
      var s2, r1 := Infix(s1, op, e1).value.0, Infix(s1, op, e1).value.1;
      hide Infix, Posfix;
      PlainIsClean(m, s, y);
      PlainIsClean(m, s2, z);
      CompiledKind(m, s, y);
      if EndsQuiet(y) { QuietJpc(m, s, y); }
    case _ =>
  }

  // ----- a counterexample -----

  /** `((a or b) and false) and c`, where `a`, `b` and `c` are the locals in registers 0, 1 and 2. */
  const WRONG := Binary(OprAnd, Binary(OprAnd, Binary(OprOr, Local(0), Local(1)), EFalse), Local(2))

  function AtStart(): Gen
  {
    Gen([], [], -1, 3, 3, 3, [], map[])
  }

  function AfterOr(): Gen
  {
    AtStart().(code := [TestSet(NO_REG, 0, true), Jmp(NO_JUMP)], lasttarget := 2)
  }

  function AfterAnd(): Gen
  {
    AtStart().(code := [TestSet(NO_REG, 0, true), Jmp(NO_JUMP), TestSet(NO_REG, 1, false), Jmp(NO_JUMP)], jpc := [1],
               lasttarget := 4)
  }

  function AfterFalse(): Gen
  {
    AtStart().(code := [TestSet(NO_REG, 0, true), Jmp(NO_JUMP), TestSet(NO_REG, 1, false), Jmp(0), Jmp(-4)],
               lasttarget := 5)
  }

  lemma CondSimple(s: Gen, i: Instr)
    requires s.jpc == []
    ensures CondJump(s, i) == Ok((s.(code := s.code + [i, Jmp(NO_JUMP)]), [|s.code| + 1]))
  {
    var s1 := s.(code := s.code + [i]);
    assert Code(s, i) == Ok(s1);
    assert s1.code + [Jmp(NO_JUMP)] == s.code + [i, Jmp(NO_JUMP)];
    assert [|s1.code|] + s1.jpc == [|s1.code|];
  }

  /** `jumponcond` on a local. */
  lemma LeaveLocal(s: Gen, e: Exp, cond: bool)
    requires s.jpc == [] && e.kind.KNonReloc? && e.kind.reg < s.nactvar
    ensures Leave(s, e, cond) ==
            Ok((s.(code := s.code + [TestSet(NO_REG, e.kind.reg, cond), Jmp(NO_JUMP)]), [|s.code| + 1]))
  {
    CondSimple(s, TestSet(NO_REG, e.kind.reg, cond));
    hide CondJump;
  }

  lemma GoIfParts(s: Gen, e: Exp, cond: bool, s1: Gen, l: seq<nat>, code: seq<Instr>)
    requires !e.kind.KLocal? && Leave(s, e, cond) == Ok((s1, l)) && s1.jpc == [] &&
             Concat(s1.code, if cond then e.t else e.f, l) == Ok(code) && |code| == |s1.code|
    ensures GoIf(s, e, cond) == Ok((s1.(code := code, jpc := if cond then e.f else e.t, lasttarget := |code|),
                                    e.(t := if cond then e.t + l else [], f := if cond then [] else e.f + l)))
  {
    hide Leave;
    var held := if cond then e.f else e.t;
    assert [] + held == held;
  }

  lemma OrCode(m: Machine)
    ensures Compile(m, AtStart(), Binary(OprOr, Local(0), Local(1))) == Ok((AfterOr(), Exp(KNonReloc(1), [1], [])))
  {
    var e := Exp(KNonReloc(0), [], []);
    LeaveLocal(AtStart(), e, true);
    assert AtStart().code + [TestSet(NO_REG, 0, true), Jmp(NO_JUMP)] == AfterOr().code;
    GoIfParts(AtStart(), e, true, AfterOr().(lasttarget := -1), [1], AfterOr().code);
    assert [] + [1] == [1];
    hide GoIf, Leave;
    assert GoIf(AtStart(), Exp(KLocal(0), [], []), true) == GoIf(AtStart(), e, true) by {
      LocalIsReg(AtStart(), 0, true);
    }
  }

  lemma LocalIsReg(s: Gen, r: nat, cond: bool)
    ensures GoIf(s, Exp(KLocal(r), [], []), cond) == GoIf(s, Exp(KNonReloc(r), [], []), cond)
  {
    hide Leave, PatchToHere, Concat;
  }

  lemma AndCode()
    ensures GoIf(AfterOr(), Exp(KNonReloc(1), [1], []), false) == Ok((AfterAnd(), Exp(KNonReloc(1), [], [3])))
  {
    var e := Exp(KNonReloc(1), [1], []);
    LeaveLocal(AfterOr(), e, false);
    assert AfterOr().code + [TestSet(NO_REG, 1, false), Jmp(NO_JUMP)] == AfterAnd().code;
    GoIfParts(AfterOr(), e, false, AfterAnd().(jpc := [], lasttarget := 2), [3], AfterAnd().code);
    assert [] + [3] == [3];
  }

  lemma FalseCode()
    ensures GoIf(AfterAnd(), Exp(KFalse, [], [3]), false) == Ok((AfterFalse(), Exp(KFalse, [], [3, 4, 1])))
  {
    var s1 := AfterAnd().(code := AfterAnd().code + [Jmp(-4)], jpc := []);
    var longer := AfterAnd().code + [Jmp(NO_JUMP)];
    assert longer[4 := Jmp(-4)] == s1.code;
    assert [4] + [1] == [4, 1];
    assert Jump(AfterAnd()) == Ok((s1, [4, 1]));
    assert s1.code[3 := Jmp(0)] == AfterFalse().code;
    assert [3] + [4, 1] == [3, 4, 1];
    GoIfParts(AfterAnd(), Exp(KFalse, [], [3]), false, s1, [4, 1], AfterFalse().code);
  }

  function AfterMove(): Gen
  {
    AfterFalse().(code := AfterFalse().code + [Move(3, 2)], freereg := 4, maxstack := 4)
  }

  function AfterLoads(): Gen
  {
    AfterMove().(code := AfterMove().code + [Jmp(NO_JUMP), LoadBool(3, false, true), LoadBool(3, true, false)],
                 jpc := [6], lasttarget := 9)
  }

  /** The whole code: the exit that carries `a` stores it in register 3. */
  const WRONG_CODE := [TestSet(3, 0, true), Jmp(7), TestSet(3, 1, false), Jmp(5), Jmp(2), Move(3, 2),
                       Jmp(NO_JUMP), LoadBool(3, false, true), LoadBool(3, true, false)]

  lemma FinalCode(m: Machine)
    ensures ExpToNextReg(AfterFalse(), Exp(KNonReloc(2), [], [3, 4, 1])) ==
            Ok((AfterLoads().(code := WRONG_CODE), Exp(KNonReloc(3), [], [])))
  {
    var e := Exp(KNonReloc(2), [], [3, 4, 1]);
    var s0 := AfterFalse().(freereg := 4, maxstack := 4);
    assert ReserveReg(FreeExp(AfterFalse(), e)) == Ok(s0);
    assert Code(s0, Move(3, 2)) == Ok(AfterMove());
    assert GatherExits(s0, e, 3) == Ok((AfterMove(), e.(kind := KNonReloc(3))));
    var e1 := e.(kind := KNonReloc(3));
    LoadsCode(e1);
    assert NeedValue(AfterMove().code, e1.f) by { assert 4 in e1.f && !CarriesValue(AfterMove().code, 4); }
    PatchedCode();
    assert CloseExits(AfterMove(), e1, 3) == Ok(AfterLoads().(code := WRONG_CODE));
  }

  lemma LoadsCode(e: Exp)
    requires !e.kind.KJmp?
    ensures LoadBools(AfterMove(), e, 3) == Ok(AfterLoads())
  {
    var code := AfterMove().code;
    assert Jump(AfterMove()) == Ok((AfterMove().(code := code + [Jmp(NO_JUMP)]), [6])) by {
      assert [6] + [] == [6];
    }
    var s1 := AfterMove().(code := code + [Jmp(NO_JUMP)]);
    var s2 := s1.(code := s1.code + [LoadBool(3, false, true)], lasttarget := 7);
    assert CodeLabel(s1, 3, false, true) == Ok(s2);
    var s3 := s2.(code := s2.code + [LoadBool(3, true, false)], lasttarget := 8);
    assert CodeLabel(s2, 3, true, false) == Ok(s3);
    assert s3.code == AfterLoads().code;
    assert [] + [6] == [6];
    assert PatchToHere(s3, [6]) == Ok(AfterLoads());
    hide Jump, CodeLabel, PatchToHere;
  }

  lemma PatchedCode()
    ensures PatchList(AfterLoads().code, [3, 4, 1], 9, 3, 7) == Ok(WRONG_CODE)
  {
    var c0 := AfterLoads().code;
    var c1 := c0[2 := TestSet(3, 1, false)][3 := Jmp(5)];
    var c2 := c1[4 := Jmp(2)];
    var c3 := c2[0 := TestSet(3, 0, true)][1 := Jmp(7)];
    assert [3, 4, 1][1..] == [4, 1] && [4, 1][1..] == [1] && [1][1..] == [];
    assert PatchList(c2, [1], 9, 3, 7) == Ok(c3);
    assert PatchList(c1, [4, 1], 9, 3, 7) == Ok(c3);
    assert PatchList(c0, [3, 4, 1], 9, 3, 7) == Ok(c3);
    assert c3 == WRONG_CODE;
  }

  lemma WrongCompiles(m: Machine)
    ensures CompileToNextReg(m, AtStart(), WRONG) == Ok((AfterLoads().(code := WRONG_CODE), Exp(KNonReloc(3), [], [])))
  {
    OrCode(m);
    AndCode();
    FalseCode();
    FinalCode(m);
    hide GoIf, ExpToNextReg;
    var inner := Binary(OprAnd, Binary(OprOr, Local(0), Local(1)), EFalse);
    assert [] + [3] == [3];
    assert Compile(m, AtStart(), inner) == Ok((AfterAnd(), Exp(KFalse, [], [3])));
    assert [] + [3, 4, 1] == [3, 4, 1];
    assert Compile(m, AtStart(), WRONG) == Ok((AfterFalse(), Exp(KNonReloc(2), [], [3, 4, 1])));
  }

  /** With `a` true the expression is false, but its code leaves true. */
  lemma WrongValue(m: Machine, regs: seq<Value>)
    requires |regs| == MAXSTACK && regs[0] == Bool(true)
    ensures CompileToNextReg(m, AtStart(), WRONG).Ok? && Eval(m, WRONG, regs) == Bool(false)
    ensures var s := CompileToNextReg(m, AtStart(), WRONG).value.0;
            Run(m, s.code, Elems(s.jpc), 0, regs) == Stop(|s.code|, regs[3 := Bool(true)])
  {
    WrongCompiles(m);
    hide CompileToNextReg;
    WrongRun(m, regs);
    assert Eval(m, Binary(OprOr, Local(0), Local(1)), regs) == Bool(true);
    assert Eval(m, Binary(OprAnd, Binary(OprOr, Local(0), Local(1)), EFalse), regs) == Bool(false);
  }

  lemma WrongRun(m: Machine, regs: seq<Value>)
    requires |regs| == MAXSTACK && regs[0] == Bool(true)
    ensures Run(m, WRONG_CODE, Elems([6]), 0, regs) == Stop(9, regs[3 := Bool(true)])
  {
    var open, regs' := Elems([6]), regs[3 := Bool(true)];
    ElemsSix();
    assert Passes(m, WRONG_CODE[0], regs);
    assert Run(m, WRONG_CODE, open, 0, regs) == Run(m, WRONG_CODE, open, 1, regs');
    assert Run(m, WRONG_CODE, open, 1, regs') == Run(m, WRONG_CODE, open, 9, regs');
  }

  lemma ElemsSix()
    ensures Elems([6]) == {6}
  {
  }
}
