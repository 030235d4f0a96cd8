/** Every instruction that the generator makes fits into its 32 bits: registers have 8 bits, operands that can also be
    constants have 9, indices of constants 18, and jumps go at most 131071 instructions forwards or backwards. */
module CodeFits {
  import opened LuaCode
  import opened CodeLists
  import opened CodeGen
  import opened CodeExpr
  import opened CodeTheorem

  predicate Fits(i: Instr)
  {
    match i
    case Move(a, b) => a < 256 && b < 256
    case LoadK(a, bx) => a < 256 && bx < 262144
    case LoadBool(a, _, _) => a < 256
    case LoadNil(a, b) => a < 256 && b < 256
    case Arith(_, a, b, c) => a < 256 && b < 512 && c < 512
    case Not(a, b) => a < 256 && b < 256
    case Jmp(sbx) => -131071 <= sbx <= 131071
    case Compare(_, _, b, c) => b < 512 && c < 512
    case Test(a, _) => a < 256
    case TestSet(a, b, _) => a < 256 && b < 256
    case Other(_) => true
  }

  predicate AllFit(code: seq<Instr>)
  {
    forall i :: 0 <= i < |code| ==> Fits(code[i])
  }

  predicate ConstantsFit(k: seq<Value>, h: map<Value, nat>)
  {
    |k| <= 262143 && forall v :: v in h ==> h[v] < |k|
  }

  predicate GenFits(s: Gen)
  {
    AllFit(s.code) && s.freereg <= s.maxstack <= 249 && ConstantsFit(s.k, s.h)
  }

  predicate KindFits(k: Kind)
  {
    match k
    case KK(idx) => idx < 262143
    case KLocal(reg) => reg <= 249
    case KNonReloc(reg) => reg <= 249
    case _ => true
  }

  /** The state and the expression both fit. */
  predicate BothFit(r: (Gen, Exp))
  {
    GenFits(r.0) && KindFits(r.1.kind)
  }

  // ----- lists of jumps -----

  lemma FixFits(code: seq<Instr>, pc: nat, dest: int)
    requires AllFit(code) && FixJump(code, pc, dest).Ok?
    ensures AllFit(FixJump(code, pc, dest).value)
  {
  }

  lemma ConcatFits(code: seq<Instr>, l1: seq<nat>, l2: seq<nat>)
    requires AllFit(code) && Concat(code, l1, l2).Ok?
    ensures AllFit(Concat(code, l1, l2).value)
  {
    if l1 != [] && l2 != [] { FixFits(code, l1[|l1| - 1], l2[0]); }
  }

  lemma {:induction false} PatchFits(code: seq<Instr>, l: seq<nat>, vtarget: int, reg: nat, dtarget: int)
    requires AllFit(code) && reg < 256 && PatchList(code, l, vtarget, reg, dtarget).Ok?
    ensures AllFit(PatchList(code, l, vtarget, reg, dtarget).value)
    decreases |l|
  {
    if l != [] {
      var code0, dest := PatchTestReg(code, l[0], reg), if CarriesValue(code, l[0]) then vtarget else dtarget;
      FixFits(code0, l[0], dest);
      PatchFits(FixJump(code0, l[0], dest).value, l[1..], vtarget, reg, dtarget);
    }
  }

  lemma {:induction false} RemoveFits(code: seq<Instr>, l: seq<nat>)
    requires AllFit(code)
    ensures AllFit(RemoveValues(code, l))
    decreases |l|
  {
    if l != [] { RemoveFits(PatchTestReg(code, l[0], NO_REG), l[1..]); }
  }

  lemma EmitFits(s: Gen, i: Instr)
    requires GenFits(s) && Fits(i) && Code(s, i).Ok?
    ensures GenFits(Code(s, i).value)
  {
    PatchFits(s.code, s.jpc, |s.code|, NO_REG, |s.code|);
  }

  lemma JumpFits(s: Gen)
    requires GenFits(s) && Jump(s).Ok?
    ensures GenFits(Jump(s).value.0)
  {
    ConcatFits(s.code + [Jmp(NO_JUMP)], [|s.code|], s.jpc);
  }

  lemma CondJumpFits(s: Gen, i: Instr)
    requires GenFits(s) && Fits(i) && CondJump(s, i).Ok?
    ensures GenFits(CondJump(s, i).value.0)
  {
    hide GenFits, Code, Jump;
    EmitFits(s, i);
    JumpFits(Code(s, i).value);
  }

  lemma HereFits(s: Gen, l: seq<nat>)
    requires GenFits(s) && PatchToHere(s, l).Ok?
    ensures GenFits(PatchToHere(s, l).value)
  {
    ConcatFits(s.code, s.jpc, l);
  }

  // ----- values in registers -----

  lemma NilFits(s: Gen, reg: nat)
    requires GenFits(s) && reg <= 249 && CodeNil(s, reg).Ok?
    ensures GenFits(CodeNil(s, reg).value)
  {
    hide Code;
    if Code(s, LoadNil(reg, reg)).Ok? { EmitFits(s, LoadNil(reg, reg)); }
  }

  lemma ConstantFits(s: Gen, v: Value)
    requires GenFits(s) && AddK(s, v).Ok?
    ensures GenFits(AddK(s, v).value.0) && AddK(s, v).value.1 < 262143 && AddK(s, v).value.1 <= |s.k|
  {
  }

  lemma DischargeFits(s: Gen, e: Exp, reg: nat)
    requires BothFit((s, e)) && reg <= 249 && DischargeToReg(s, e, reg).Ok?
    ensures BothFit(DischargeToReg(s, e, reg).value)
  {
    hide GenFits, Code, CodeNil, AddK;
    var e1 := DischargeVars(e);
    match e1.kind
    case KNil => NilFits(s, reg);
    case KFalse => EmitFits(s, LoadBool(reg, false, false));
    case KTrue => EmitFits(s, LoadBool(reg, true, false));
    case KK(idx) => EmitFits(s, LoadK(reg, idx));
    case KNum(n) =>
      ConstantFits(s, Num(n));
      EmitFits(AddK(s, Num(n)).value.0, LoadK(reg, AddK(s, Num(n)).value.1));
    case KNonReloc(r) => if r != reg { EmitFits(s, Move(reg, r)); }
    case KReloc(pc) => RelocFits(s, pc, reg);
    case KLocal(_) =>
    case KJmp(_) =>
  }

  lemma RelocFits(s: Gen, pc: nat, reg: nat)
    requires GenFits(s) && reg <= 249
    ensures pc < |s.code| ==> GenFits(s.(code := s.code[pc := WithA(s.code[pc], reg)]))
  {
  }

  lemma ReserveFits(s: Gen)
    requires GenFits(s) && ReserveReg(s).Ok?
    ensures GenFits(ReserveReg(s).value) && 1 <= ReserveReg(s).value.freereg <= 249
  {
  }

  lemma FreeFits(s: Gen, e: Exp)
    requires GenFits(s)
    ensures GenFits(FreeExp(s, e))
  {
  }

  lemma DischargeAnyFits(s: Gen, e: Exp)
    requires BothFit((s, e)) && DischargeToAnyReg(s, e).Ok?
    ensures BothFit(DischargeToAnyReg(s, e).value)
  {
    hide GenFits, KindFits, DischargeToReg, ReserveReg;
    if !e.kind.KNonReloc? {
      ReserveFits(s);
      var s1 := ReserveReg(s).value;
      DischargeFits(s1, e, s1.freereg - 1);
    }
  }

  lemma LoadBoolsFits(s: Gen, e: Exp, reg: nat)
    requires GenFits(s) && reg <= 249 && LoadBools(s, e, reg).Ok?
    ensures GenFits(LoadBools(s, e, reg).value)
  {
    hide Code, Jump, PatchToHere, AllFit, ConstantsFit;
    if !e.kind.KJmp? { JumpFits(s); }
    var s1, fj := if e.kind.KJmp? then s else Jump(s).value.0, if e.kind.KJmp? then [] else Jump(s).value.1;
    EmitFits(GetLabel(s1), LoadBool(reg, false, true));
    var s2 := CodeLabel(s1, reg, false, true).value;
    EmitFits(GetLabel(s2), LoadBool(reg, true, false));
    HereFits(CodeLabel(s2, reg, true, false).value, fj);
  }

  lemma ExitsFit(s: Gen, e: Exp, reg: nat, pf: int, pt: int)
    requires GenFits(s) && reg <= 249 && PatchExits(s, e, reg, pf, pt).Ok?
    ensures GenFits(PatchExits(s, e, reg, pf, pt).value)
  {
    hide PatchList, AllFit, ConstantsFit;
    var n := |s.code|;
    PatchFits(s.code, e.f, n, reg, pf);
    PatchFits(PatchList(s.code, e.f, n, reg, pf).value, e.t, n, reg, pt);
  }

  lemma GatherFits(s: Gen, e: Exp, reg: nat)
    requires BothFit((s, e)) && reg <= 249 && GatherExits(s, e, reg).Ok?
    ensures BothFit(GatherExits(s, e, reg).value)
  {
    hide DischargeToReg, AllFit, ConstantsFit, Concat;
    DischargeFits(s, e, reg);
    var s1, e1 := DischargeToReg(s, e, reg).value.0, DischargeToReg(s, e, reg).value.1;
    if e1.kind.KJmp? { ConcatFits(s1.code, e1.t, [e1.kind.pc]); }
  }

  lemma ExpToRegFits(s: Gen, e: Exp, reg: nat)
    requires BothFit((s, e)) && reg <= 249 && ExpToReg(s, e, reg).Ok?
    ensures BothFit(ExpToReg(s, e, reg).value)
  {
    hide GatherExits, LoadBools, PatchExits, GenFits, NeedValue;
    GatherFits(s, e, reg);
    var s1, e1 := GatherExits(s, e, reg).value.0, GatherExits(s, e, reg).value.1;
    if HasJumps(e1) {
      if NeedValue(s1.code, e1.t) || NeedValue(s1.code, e1.f) {
        LoadBoolsFits(s1, e1, reg);
        var s2 := LoadBools(s1, e1, reg).value;
        ExitsFit(s2, e1, reg, |s2.code| - 2, |s2.code| - 1);
      } else {
        ExitsFit(s1, e1, reg, NO_JUMP, NO_JUMP);
      }
    }
  }

  lemma NextRegFits(s: Gen, e: Exp)
    requires BothFit((s, e)) && ExpToNextReg(s, e).Ok?
    ensures BothFit(ExpToNextReg(s, e).value)
  {
    hide GenFits, ExpToReg, ReserveReg, FreeExp;
    var e1 := DischargeVars(e);
    FreeFits(s, e1);
    ReserveFits(FreeExp(s, e1));
    var s1 := ReserveReg(FreeExp(s, e1)).value;
    ExpToRegFits(s1, e1, s1.freereg - 1);
  }

  lemma AnyRegFits(s: Gen, e: Exp)
    requires BothFit((s, e)) && ExpToAnyReg(s, e).Ok?
    ensures BothFit(ExpToAnyReg(s, e).value)
  {
    hide GenFits, ExpToReg, ExpToNextReg;
    var e1 := DischargeVars(e);
    if e1.kind.KNonReloc? && !HasJumps(e1) {
    } else if e1.kind.KNonReloc? && e1.kind.reg >= s.nactvar {
      ExpToRegFits(s, e1, e1.kind.reg);
    } else {
      NextRegFits(s, e1);
    }
  }

  /** An operand fits into 9 bits. */
  lemma OperandFits(s: Gen, e: Exp)
    requires BothFit((s, e)) && ExpToRK(s, e).Ok?
    ensures BothFit(ExpToRK(s, e).value) && RKOf(ExpToRK(s, e).value.1) < 512
  {
    hide GenFits, ExpToAnyReg, AddK;
    if HasJumps(e) { AnyRegFits(s, e); }
    var s1, e1 := ExpToVal(s, e).value.0, ExpToVal(s, e).value.1;
    if IsLiteral(e1.kind) && |s1.k| <= 255 {
      ConstantFits(s1, LiteralOf(e1.kind));
    } else if !(e1.kind.KK? && e1.kind.idx <= 255) {
      AnyRegFits(s1, e1);
      AnyRegIsReg(s1, e1);
    }
  }

  lemma AnyRegIsReg(s: Gen, e: Exp)
    requires ExpToAnyReg(s, e).Ok?
    ensures ExpToAnyReg(s, e).value.1.kind.KNonReloc?
  {
    hide GatherExits, CloseExits, ReserveReg, FreeExp;
  }

  // ----- conditions -----

  lemma NotFits(s: Gen, pc: nat, cond: bool)
    requires GenFits(s) && pc < |s.code| && s.code[pc].Not?
    ensures GenFits(s.(code := s.code[..|s.code| - 1])) && Fits(Test(s.code[pc].b, !cond))
  {
  }

  lemma JumpOnCondFits(s: Gen, e: Exp, cond: bool)
    requires BothFit((s, e)) && JumpOnCond(s, e, cond).Ok?
    ensures GenFits(JumpOnCond(s, e, cond).value.0)
  {
    hide GenFits, CondJump, DischargeToAnyReg, FreeExp;
    if IsNotAt(s, e.kind) {
      NotFits(s, e.kind.pc, cond);
      CondJumpFits(s.(code := s.code[..|s.code| - 1]), Test(s.code[e.kind.pc].b, !cond));
    } else {
      DischargeAnyFits(s, e);
      var s1, e1 := DischargeToAnyReg(s, e).value.0, DischargeToAnyReg(s, e).value.1;
      FreeFits(s1, e1);
      CondJumpFits(FreeExp(s1, e1), TestSet(NO_REG, if e1.kind.KNonReloc? then e1.kind.reg else 0, cond));
    }
  }

  lemma InvertFits(s: Gen, pc: nat)
    requires GenFits(s)
    ensures GenFits(InvertJump(s, pc))
  {
  }

  lemma LeaveFits(s: Gen, e: Exp, cond: bool)
    requires BothFit((s, e)) && Leave(s, e, cond).Ok?
    ensures GenFits(Leave(s, e, cond).value.0)
  {
    hide GenFits, JumpOnCond, Jump, InvertJump;
    if NeverLeaves(e.kind, cond) {
    } else if AlwaysLeaves(e.kind, cond) {
      JumpFits(s);
    } else if e.kind.KJmp? {
      InvertFits(s, e.kind.pc);
    } else {
      JumpOnCondFits(s, e, cond);
    }
  }

  lemma GoIfFits(s: Gen, e: Exp, cond: bool)
    requires BothFit((s, e)) && GoIf(s, e, cond).Ok?
    ensures BothFit(GoIf(s, e, cond).value)
  {
    hide Leave, Concat, PatchToHere, AllFit, ConstantsFit;
    var e1 := DischargeVars(e);
    LeaveFits(s, e1, cond);
    var s1, l := Leave(s, e1, cond).value.0, Leave(s, e1, cond).value.1;
    var l1 := if cond then e1.t else e1.f;
    ConcatFits(s1.code, l1, l);
    HereFits(s1.(code := Concat(s1.code, l1, l).value), if cond then e1.f else e1.t);
  }

  // ----- operators -----

  lemma NegateFits(s: Gen, e: Exp)
    requires BothFit((s, e)) && NegateValue(s, e).Ok?
    ensures BothFit(NegateValue(s, e).value)
  {
    hide GenFits, DischargeToAnyReg, FreeExp, Code, InvertJump;
    if e.kind.KJmp? {
      InvertFits(s, e.kind.pc);
    } else if e.kind.KLocal? || e.kind.KNonReloc? || e.kind.KReloc? {
      DischargeAnyFits(s, e);
      var s1, e1 := DischargeToAnyReg(s, e).value.0, DischargeToAnyReg(s, e).value.1;
      FreeFits(s1, e1);
      EmitFits(FreeExp(s1, e1), Not(0, if e1.kind.KNonReloc? then e1.kind.reg else 0));
    }
  }

  lemma CodeNotFits(s: Gen, e: Exp)
    requires BothFit((s, e)) && CodeNot(s, e).Ok?
    ensures BothFit(CodeNot(s, e).value)
  {
    hide NegateValue, RemoveValues, AllFit, ConstantsFit;
    NegateFits(s, DischargeVars(e));
    var s1, e1 := NegateValue(s, DischargeVars(e)).value.0, NegateValue(s, DischargeVars(e)).value.1;
    RemoveFits(s1.code, e1.t);
    RemoveFits(RemoveValues(s1.code, e1.t), e1.f);
  }

  lemma ArithFits(m: Machine, s: Gen, op: ArithOp, e1: Exp, e2: Exp)
    requires BothFit((s, e1)) && BothFit((s, e2)) && CodeArith(m, s, op, e1, e2).Ok?
    ensures BothFit(CodeArith(m, s, op, e1, e2).value)
  {
    hide GenFits, ExpToRK, FreeExp, Code, RKOf, Fold;
    if !Fold(m, op, e1, e2).Ok? {
      if !IsUnary(op) { OperandFits(s, e2); }
      var (s2, r2) := if IsUnary(op) then (s, e2) else ExpToRK(s, e2).value;
      OperandFits(s2, e1);
      var s1, r1 := ExpToRK(s2, e1).value.0, ExpToRK(s2, e1).value.1;
      var o1, o2 := RKOf(r1), if IsUnary(op) then 0 else RKOf(r2);
      FreeFits(s1, r1);
      FreeFits(s1, r2);
      FreeFits(FreeExp(s1, r1), r2);
      FreeFits(FreeExp(s1, r2), r1);
      EmitFits(FreeBoth(s1, r1, r2, o1, o2), Arith(op, 0, o1, o2));
    }
  }

  lemma CompFits(s: Gen, op: CmpOp, cond: bool, e1: Exp, e2: Exp)
    requires BothFit((s, e1)) && KindFits(e2.kind) && CodeComp(s, op, cond, e1, e2).Ok?
    ensures BothFit(CodeComp(s, op, cond, e1, e2).value)
  {
    hide GenFits, ExpToRK, FreeExp, CondJump, RKOf;
    OperandFits(s, e1);
    var s1, r1 := ExpToRK(s, e1).value.0, ExpToRK(s, e1).value.1;
    OperandFits(s1, e2);
    var s2, r2 := ExpToRK(s1, e2).value.0, ExpToRK(s1, e2).value.1;
    FreeFits(s2, r2);
    FreeFits(FreeExp(s2, r2), r1);
    CondJumpFits(FreeExp(FreeExp(s2, r2), r1),
      if !cond && op != Eq then Compare(op, true, RKOf(r2), RKOf(r1)) else Compare(op, cond, RKOf(r1), RKOf(r2)));
  }

  lemma PrefixFits(m: Machine, s: Gen, op: UnOp, e: Exp)
    requires BothFit((s, e)) && Prefix(m, s, op, e).Ok?
    ensures BothFit(Prefix(m, s, op, e).value)
  {
    hide GenFits, ExpToAnyReg, CodeArith, CodeNot;
    var zero := Exp(KNum(0.0), [], []);
    if op.OprNot? {
      CodeNotFits(s, e);
    } else if op.OprMinus? && IsNumeral(e) {
      ArithFits(m, s, Unm, e, zero);
    } else {
      AnyRegFits(s, e);
      var s1, e1 := ExpToAnyReg(s, e).value.0, ExpToAnyReg(s, e).value.1;
      ArithFits(m, s1, if op.OprMinus? then Unm else Len, e1, zero);
    }
  }

  lemma InfixFits(s: Gen, op: BinOp, e: Exp)
    requires BothFit((s, e)) && Infix(s, op, e).Ok?
    ensures BothFit(Infix(s, op, e).value)
  {
    hide GenFits, ExpToRK, GoIf;
    match op
    case OprAnd => GoIfFits(s, e, false);
    case OprOr => GoIfFits(s, e, true);
    case OprArith(_) => if !IsNumeral(e) { OperandFits(s, e); }
    case OprCmp(_, _) => OperandFits(s, e);
  }

  lemma PosfixFits(m: Machine, s: Gen, op: BinOp, e1: Exp, e2: Exp)
    requires BothFit((s, e1)) && BothFit((s, e2)) && Posfix(m, s, op, e1, e2).Ok?
    ensures BothFit(Posfix(m, s, op, e1, e2).value)
  {
    hide CodeArith, CodeComp, AllFit, ConstantsFit, Concat;
    match op
    case OprAnd => ConcatFits(s.code, DischargeVars(e2).f, e1.f);
    case OprOr => ConcatFits(s.code, DischargeVars(e2).t, e1.t);
    case OprArith(op) => ArithFits(m, s, op, e1, e2);
    case OprCmp(cmp, cond) => CompFits(s, cmp, cond, e1, e2);
  }

  /** Whatever the expression, what it compiles to fits. */
  lemma {:induction false} CompileFits(m: Machine, s: Gen, x: Expr, locals: nat)
    requires GenFits(s) && WellFormed(m, x, locals) && locals <= 250 && Compile(m, s, x).Ok?
    ensures BothFit(Compile(m, s, x).value)
    decreases x
  {
    hide GenFits, AddK, Prefix, Infix, Posfix;
    match x
    case EStr(str) => ConstantFits(s, Str(str));
    case Paren(y) => CompileFits(m, s, y, locals);
    case Unary(op, y) =>
      CompileFits(m, s, y, locals);
      PrefixFits(m, Compile(m, s, y).value.0, op, Compile(m, s, y).value.1);
    case Binary(op, y, z) =>
      CompileFits(m, s, y, locals);
      var (s1, e1) := Compile(m, s, y).value;
      InfixFits(s1, op, e1);
      var (s2, r1) := Infix(s1, op, e1).value;
      CompileFits(m, s2, z, locals);
      PosfixFits(m, Compile(m, s2, z).value.0, op, r1, Compile(m, s2, z).value.1);
    case _ =>
  }

  /** And so does the code that brings its value to a register. */
  lemma ExpressionFits(m: Machine, s: Gen, x: Expr, locals: nat, reg: nat)
    requires GenFits(s) && WellFormed(m, x, locals) && reg < locals <= 250
    ensures CompileToNextReg(m, s, x).Ok? ==> AllFit(CompileToNextReg(m, s, x).value.0.code)
    ensures CompileToLocal(m, s, x, reg).Ok? ==> AllFit(CompileToLocal(m, s, x, reg).value.0.code)
  {
    hide Compile, ExpToNextReg, ExpToReg, FreeExp, WellFormed;
    if Compile(m, s, x).Ok? {
      CompileFits(m, s, x, locals);
      var (s1, e) := Compile(m, s, x).value;
      if ExpToNextReg(s1, e).Ok? { NextRegFits(s1, e); }
      FreeFits(s1, e);
      if ExpToReg(FreeExp(s1, e), e, reg).Ok? { ExpToRegFits(FreeExp(s1, e), e, reg); }
    }
  }
}
