/** When the code generator does not give up: an expression compiles if there is room for its registers, constants and
    instructions. */
module CodeRoom {
  import opened Seqs
  import opened LuaCode
  import opened CodeLists
  import opened CodeGen
  import opened CodeShape
  import opened CodeRuns
  import opened CodeMeaning
  import opened CodeExits
  import opened CodeOperands
  import opened CodeConds
  import opened CodeOps
  import opened CodeExpr
  import opened CodeCompile
  import opened CodeTheorem
  import opened CodeFuncState
  import opened CodeParse
  import P = LuaParser
  import LuaGrammar

  /** Room for constants and instructions: indices of constants have 18 bits, and jumps reach 131071 instructions. */
  predicate Room(s: Gen, constants: nat, instructions: nat)
  {
    |s.k| + constants <= 262143 && |s.code| + instructions <= 131070
  }

  /** What an operation has used up. */
  predicate Uses(s: Gen, s': Gen, constants: nat, instructions: nat)
  {
    |s'.k| <= |s.k| + constants && |s'.code| <= |s.code| + instructions
  }

  // ----- jumps -----

  lemma FixRoom(code: seq<Instr>, pc: nat, dest: int)
    requires pc < |code| <= 131070 && -1 <= dest <= |code|
    ensures FixJump(code, pc, dest).Ok? && |FixJump(code, pc, dest).value| == |code|
  {
  }

  lemma ConcatRoom(code: seq<Instr>, l1: seq<nat>, l2: seq<nat>)
    requires AreJumps(code, l1) && AreJumps(code, l2) && |code| <= 131070
    ensures Concat(code, l1, l2).Ok? && |Concat(code, l1, l2).value| == |code|
  {
    if l1 != [] && l2 != [] { FixRoom(code, l1[|l1| - 1], l2[0]); }
  }

  lemma {:induction false} PatchRoom(code: seq<Instr>, l: seq<nat>, vtarget: int, reg: nat, dtarget: int)
    requires AreJumps(code, l) && |code| <= 131070 && -1 <= vtarget <= |code| && -1 <= dtarget <= |code|
    ensures PatchList(code, l, vtarget, reg, dtarget).Ok? && |PatchList(code, l, vtarget, reg, dtarget).value| == |code|
    decreases |l|
  {
    if l != [] {
      var code0 := PatchTestReg(code, l[0], reg);
      FixRoom(code0, l[0], if CarriesValue(code, l[0]) then vtarget else dtarget);
      var code1 := FixJump(code0, l[0], if CarriesValue(code, l[0]) then vtarget else dtarget).value;
      forall i | 0 <= i < |l[1..]| ensures l[1..][i] < |code1| && code1[l[1..][i]].Jmp? {
        assert l[1..][i] == l[i + 1];
      }
      PatchRoom(code1, l[1..], vtarget, reg, dtarget);
    }
  }

  lemma EmitRoom(s: Gen, i: Instr)
    requires AreJumps(s.code, s.jpc) && Room(s, 0, 1)
    ensures Code(s, i).Ok? && Uses(s, Code(s, i).value, 0, 1)
  {
    PatchRoom(s.code, s.jpc, |s.code|, NO_REG, |s.code|);
  }

  lemma JumpRoom(s: Gen)
    requires AreJumps(s.code, s.jpc) && Room(s, 0, 1)
    ensures Jump(s).Ok? && Uses(s, Jump(s).value.0, 0, 1)
  {
    var code, n := s.code + [Jmp(NO_JUMP)], |s.code|;
    assert AreJumps(code, [n]);
    assert AreJumps(code, s.jpc) by { forall i | 0 <= i < |s.jpc| ensures code[s.jpc[i]] == s.code[s.jpc[i]] {} }
    ConcatRoom(code, [n], s.jpc);
  }

  lemma CondJumpRoom(s: Gen, i: Instr, t: seq<nat>, f: seq<nat>, o: set<nat>)
    requires GenOk(s) && ListsOk(s, t, f, o) && Room(s, 0, 2)
    ensures CondJump(s, i).Ok? && Uses(s, CondJump(s, i).value.0, 0, 2)
  {
    hide Code, Jump, Frame, Patched;
    ListsJumps(s, t, f, o);
    EmitRoom(s, i);
    CodeOk(s, i, t, f, o);
    JumpRoom(Code(s, i).value);
  }

  lemma ListsJumps(s: Gen, t: seq<nat>, f: seq<nat>, o: set<nat>)
    requires ListsOk(s, t, f, o)
    ensures AreJumps(s.code, s.jpc) && AreJumps(s.code, t) && AreJumps(s.code, f)
  {
  }

  lemma HereRoom(s: Gen, l: seq<nat>)
    requires AreJumps(s.code, s.jpc) && AreJumps(s.code, l) && Room(s, 0, 0)
    ensures PatchToHere(s, l).Ok? && Uses(s, PatchToHere(s, l).value, 0, 0)
  {
    ConcatRoom(s.code, s.jpc, l);
  }

  // ----- values in registers -----

  lemma NilRoom(s: Gen, reg: nat)
    requires AreJumps(s.code, s.jpc) && Room(s, 0, 1)
    ensures CodeNil(s, reg).Ok? && Uses(s, CodeNil(s, reg).value, 0, 1)
  {
    hide Code;
    EmitRoom(s, LoadNil(reg, reg));
  }

  lemma ConstantRoom(s: Gen, v: Value)
    requires Room(s, 1, 0)
    ensures AddK(s, v).Ok? && Uses(s, AddK(s, v).value.0, 1, 0)
    ensures AddK(s, v).value.0 == s.(k := AddK(s, v).value.0.k, h := AddK(s, v).value.0.h)
  {
  }

  lemma DischargeRoom(s: Gen, e: Exp, reg: nat)
    requires AreJumps(s.code, s.jpc) && Room(s, 1, 1)
    ensures DischargeToReg(s, e, reg).Ok? && Uses(s, DischargeToReg(s, e, reg).value.0, 1, 1)
  {
    hide Code, CodeNil, AddK;
    var e1 := DischargeVars(e);
    NilRoom(s, reg);
    match e1.kind
    case KFalse => EmitRoom(s, LoadBool(reg, false, false));
    case KTrue => EmitRoom(s, LoadBool(reg, true, false));
    case KK(idx) => EmitRoom(s, LoadK(reg, idx));
    case KNum(n) =>
      ConstantRoom(s, Num(n));
      EmitRoom(AddK(s, Num(n)).value.0, LoadK(reg, AddK(s, Num(n)).value.1));
    case KNonReloc(r) => EmitRoom(s, Move(reg, r));
    case _ =>
  }

  lemma AnyRegRoom(c: Ctx, s: Gen, e: Exp)
    requires Fit(c, s, e) && !e.kind.KJmp? && !e.kind.KLocal? && c.lo + 1 <= 249 && Room(s, 1, 1)
    ensures DischargeToAnyReg(s, e).Ok? && Uses(s, DischargeToAnyReg(s, e).value.0, 1, 1)
  {
    hide DischargeToReg;
    if !e.kind.KNonReloc? {
      var s1 := ReserveReg(s).value;
      DischargeRoom(s1, e, s1.freereg - 1);
    }
  }

  lemma LoadBoolsRoom(c: Ctx, s: Gen, e: Exp, reg: nat)
    requires GenOk(s) && ListsOk(s, e.t, e.f, c.o) && (e.kind.KJmp? ==> s.jpc == []) && Room(s, 0, 3)
    ensures LoadBools(s, e, reg).Ok? && Uses(s, LoadBools(s, e, reg).value, 0, 3)
  {
    ListsJumps(s, e.t, e.f, c.o);
    if !e.kind.KJmp? {
      JumpRoom(s);
      JumpOk(s, e.t, e.f, c.o);
    }
    var s1, fj := if e.kind.KJmp? then s else Jump(s).value.0, if e.kind.KJmp? then [] else Jump(s).value.1;
    hide Jump, ListsOk, GenOk, Frame;
    assert s1.jpc == [] && AreJumps(s1.code, fj);
    AppendRoom(s1, fj, LoadBool(reg, false, true), LoadBool(reg, true, false));
  }

  /** Two instructions that nothing waits for, and then a label. */
  lemma AppendRoom(s: Gen, l: seq<nat>, i: Instr, j: Instr)
    requires s.jpc == [] && AreJumps(s.code, l) && Room(s, 0, 2)
    ensures var s2 := Code(GetLabel(s), i);
            s2.Ok? && var s3 := Code(GetLabel(s2.value), j);
            s3.Ok? && PatchToHere(s3.value, l).Ok? && Uses(s, PatchToHere(s3.value, l).value, 0, 2)
  {
    var s3 := Code(GetLabel(Code(GetLabel(s), i).value), j).value;
    assert s3.code == s.code + [i] + [j] && s3.jpc == [];
    assert AreJumps(s3.code, l) by { forall k | 0 <= k < |l| ensures s3.code[l[k]] == s.code[l[k]] {} }
    HereRoom(s3, l);
  }

  lemma PatchExitsRoom(c: Ctx, s: Gen, e: Exp, reg: nat, pf: int, pt: int)
    requires GenOk(s) && ListsOk(s, e.t, e.f, c.o) && Room(s, 0, 0) && -1 <= pf <= |s.code| && -1 <= pt <= |s.code|
    ensures PatchExits(s, e, reg, pf, pt).Ok? && Uses(s, PatchExits(s, e, reg, pf, pt).value, 0, 0)
  {
    hide PatchList, Frame, Patched;
    ListsJumps(s, e.t, e.f, c.o);
    var n := |s.code|;
    PatchRoom(s.code, e.f, n, reg, pf);
    ListsSwap(s, e.t, e.f, c.o);
    PatchExitOk(c, s, e.f, e.t, reg, pf);
    var s1 := s.(code := PatchList(s.code, e.f, n, reg, pf).value);
    ListsJumps(s1, [], e.t, c.o);
    PatchRoom(s1.code, e.t, n, reg, pt);
  }

  lemma CloseRoom(c: Ctx, s: Gen, e: Exp, reg: nat)
    requires GenOk(s) && ListsOk(s, e.t, e.f, c.o) && (e.kind.KJmp? ==> s.jpc == []) && Room(s, 0, 3)
    ensures CloseExits(s, e, reg).Ok? && Uses(s, CloseExits(s, e, reg).value, 0, 3)
  {
    hide LoadBools, PatchExits, Frame, GenOk, ListsOk, NeedValue;
    if HasJumps(e) {
      if NeedValue(s.code, e.t) || NeedValue(s.code, e.f) {
        LoadBoolsRoom(c, s, e, reg);
        LoadBoolsOk(c, s, e, reg);
        var s1 := LoadBools(s, e, reg).value;
        PatchExitsRoom(c, s1, e, reg, |s1.code| - 2, |s1.code| - 1);
      } else {
        PatchExitsRoom(c, s, e, reg, NO_JUMP, NO_JUMP);
      }
    }
  }

  lemma GatherRoom(c: Ctx, s: Gen, e: Exp, reg: nat)
    requires Placed(c.m, s, e, c.o) && Room(s, 1, 1)
    ensures GatherExits(s, e, reg).Ok? && Uses(s, GatherExits(s, e, reg).value.0, 1, 1)
  {
    ListsJumps(s, e.t, e.f, c.o);
    hide Code, CodeNil, AddK;
    DischargeRoom(s, e, reg);
    if e.kind.KJmp? {
      assert AreJumps(s.code, [e.kind.pc]);
      ConcatRoom(s.code, e.t, [e.kind.pc]);
    }
  }

  lemma ExpToRegRoom(c: Ctx, s: Gen, e: Exp, reg: nat)
    requires Placed(c.m, s, e, c.o) && reg < MAXSTACK && Room(s, 1, 4)
    ensures ExpToReg(s, e, reg).Ok? && Uses(s, ExpToReg(s, e, reg).value.0, 1, 4)
  {
    hide Placed, GatherExits, CloseExits, GenOk, ListsOk, Frame, NeedValue;
    GatherRoom(c, s, e, reg);
    GatherExitsOk(c, s, e, reg);
    var s1, e1 := GatherExits(s, e, reg).value.0, GatherExits(s, e, reg).value.1;
    CloseRoom(c, s1, e1, reg);
  }

  lemma NextRegRoom(c: Ctx, s: Gen, e: Exp)
    requires Fit(c, s, e) && c.lo + 1 <= 249 && Room(s, 1, 4)
    ensures ExpToNextReg(s, e).Ok? && Uses(s, ExpToNextReg(s, e).value.0, 1, 4)
  {
    hide Fit, DischargeVars, ExpToReg, ExpToNextReg, FreeExp, ReserveReg, Placed;
    var e1 := DischargeVars(e);
    NextRegFit(c, s, e);
    NextRegSpec(s, e);
    ReserveRoom(c, s, e1);
    NextRegIs(c, s, e1);
    FitPlaced(c, s, e1);
    var s1 := ReserveReg(FreeExp(s, e1)).value;
    RegsPlaced(c, s, s1, e1);
    ExpToRegRoom(c, s1, e1, c.lo);
  }

  lemma ReserveRoom(c: Ctx, s: Gen, e: Exp)
    requires Fit(c, s, e) && !e.kind.KLocal? && c.lo + 1 <= 249
    ensures ReserveReg(FreeExp(s, e)).Ok?
  {
  }

  lemma ToAnyRegRoom(c: Ctx, s: Gen, e: Exp)
    requires Fit(c, s, e) && c.lo + 1 <= 249 && Room(s, 1, 4)
    ensures ExpToAnyReg(s, e).Ok? && Uses(s, ExpToAnyReg(s, e).value.0, 1, 4)
  {
    hide ExpToReg, ExpToNextReg;
    var e1 := DischargeVars(e);
    VarsOk(c, s, e);
    if e1.kind.KNonReloc? && !HasJumps(e1) {
    } else if e1.kind.KNonReloc? && e1.kind.reg >= s.nactvar {
      ExpToRegRoom(c, s, e1, e1.kind.reg);
    } else {
      NextRegRoom(c, s, e1);
    }
  }

  lemma ToRKRoom(c: Ctx, s: Gen, e: Exp)
    requires Fit(c, s, e) && c.lo + 1 <= 249 && Room(s, 1, 4)
    ensures ExpToRK(s, e).Ok? && Uses(s, ExpToRK(s, e).value.0, 1, 4)
  {
    hide Fit, ExpToAnyReg, AddK;
    if HasJumps(e) {
      ToAnyRegRoom(c, s, e);
      ExpToAnyRegOk(c, s, e);
      RegisterStays(ExpToAnyReg(s, e).value.0, ExpToAnyReg(s, e).value.1);
    } else {
      var e1 := DischargeVars(e);
      VarsOk(c, s, e);
      ToAnyRegRoom(c, s, e1);
      if IsLiteral(e1.kind) { ConstantRoom(s, LiteralOf(e1.kind)); }
    }
  }

  lemma RegisterStays(s: Gen, e: Exp)
    requires e.kind.KNonReloc? && e.t == e.f == []
    ensures ExpToAnyReg(s, e) == Ok((s, e)) && !IsLiteral(e.kind) && !e.kind.KK?
  {
  }

  // ----- conditions -----

  lemma JumpOnCondRoom(c: Ctx, s: Gen, e: Exp, cond: bool)
    requires Fit(c, s, e) && !e.kind.KJmp? && !e.kind.KLocal? && c.lo + 1 <= 249 && Room(s, 1, 3)
    ensures JumpOnCond(s, e, cond).Ok? && Uses(s, JumpOnCond(s, e, cond).value.0, 1, 3)
  {
    hide CondJump, DischargeToAnyReg, Frame;
    if IsNotAt(s, e.kind) {
      NotPlaced(c, s, e);
      CondJumpRoom(s.(code := s.code[..|s.code| - 1]), Test(s.code[e.kind.pc].b, !cond), e.t, e.f, c.o);
    } else {
      AnyRegRoom(c, s, e);
      AnyRegOk(c, s, e);
      var s1, e1 := DischargeToAnyReg(s, e).value.0, DischargeToAnyReg(s, e).value.1;
      FreedOk(c, s1, e1);
      CondJumpRoom(FreeExp(s1, e1), TestSet(NO_REG, e1.kind.reg, cond), e1.t, e1.f, c.o);
    }
  }

  lemma LeaveRoom(c: Ctx, s: Gen, e: Exp, cond: bool)
    requires Fit(c, s, e) && !e.kind.KLocal? && c.lo + 1 <= 249 && Room(s, 1, 3)
    ensures Leave(s, e, cond).Ok? && Uses(s, Leave(s, e, cond).value.0, 1, 3)
  {
    hide JumpOnCond, Jump;
    ListsJumps(s, e.t, e.f, c.o);
    if AlwaysLeaves(e.kind, cond) {
      JumpRoom(s);
    } else if !NeverLeaves(e.kind, cond) && !e.kind.KJmp? {
      JumpOnCondRoom(c, s, e, cond);
    }
  }

  lemma JumpedJumps(c: Ctx, s: Gen, e: Exp, s': Gen, l: seq<nat>)
    requires Jumped(c, s, e, s', l)
    ensures AreJumps(s'.code, e.t) && AreJumps(s'.code, e.f) && AreJumps(s'.code, l)
  {
  }

  lemma GoIfRoom(c: Ctx, s: Gen, e: Exp, cond: bool)
    requires Fit(c, s, e) && c.lo + 1 <= 249 && Room(s, 1, 3)
    ensures GoIf(s, e, cond).Ok? && Uses(s, GoIf(s, e, cond).value.0, 1, 3)
  {
    hide Fit, DischargeVars, Jumped, Leave, GenOk, ListsOk, Frame, Concat, PatchToHere;
    var e1 := DischargeVars(e);
    NextRegFit(c, s, e);
    LeaveRoom(c, s, e1, cond);
    LeaveOk(c, s, e1, cond);
    var s1, l := Leave(s, e1, cond).value.0, Leave(s, e1, cond).value.1;
    JumpedJumps(c, s, e1, s1, l);
    ConcatRoom(s1.code, if cond then e1.t else e1.f, l);
    JoinedOk(c, s, e1, s1, l, cond);
    var s2 := s1.(code := Concat(s1.code, if cond then e1.t else e1.f, l).value);
    ListsJumps(s2, WithT(e1.t, l, cond), WithF(e1.f, l, cond), c.o);
    HereRoom(s2, if cond then e1.f else e1.t);
  }

  // ----- operators -----

  lemma NegateRoom(c: Ctx, s: Gen, e: Exp)
    requires Fit(c, s, e) && !e.kind.KLocal? && c.lo + 1 <= 249 && Room(s, 1, 2)
    ensures NegateValue(s, e).Ok? && Uses(s, NegateValue(s, e).value.0, 1, 2)
  {
    hide Code, DischargeToAnyReg, Frame;
    if e.kind.KReloc? || e.kind.KNonReloc? {
      AnyRegRoom(c, s, e);
      AnyRegOk(c, s, e);
      var s1, e1 := DischargeToAnyReg(s, e).value.0, DischargeToAnyReg(s, e).value.1;
      FreedOk(c, s1, e1);
      ListsJumps(FreeExp(s1, e1), e1.t, e1.f, c.o);
      EmitRoom(FreeExp(s1, e1), Not(0, e1.kind.reg));
    }
  }

  lemma NotRoom(c: Ctx, s: Gen, e: Exp)
    requires Fit(c, s, e) && c.lo + 1 <= 249 && Room(s, 1, 2)
    ensures CodeNot(s, e).Ok? && Uses(s, CodeNot(s, e).value.0, 1, 2)
  {
    hide Fit, DischargeVars, NegateValue, Advances;
    NextRegFit(c, s, e);
    var e1 := DischargeVars(e);
    NegateRoom(c, s, e1);
    NegateValueOk(c, s, e1);
    RemovedLength(c, NegateValue(s, e1).value.0, NegateValue(s, e1).value.1);
  }

  lemma RemovedLength(c: Ctx, s: Gen, e: Exp)
    requires Fit(c, s, e)
    ensures |RemoveValues(RemoveValues(s.code, e.t), e.f)| == |s.code|
  {
    ClearedCode(c.m, s, e, c.o);
  }

  lemma UnaryRoom(c: Ctx, s: Gen, op: ArithOp, e: Exp)
    requires Fit(c, s, e) && IsUnary(op) && IsOperand(e) && e.kind.KNonReloc? && Room(s, 0, 1)
    ensures var r := CodeArith(c.m, s, op, e, Exp(KNum(0.0), [], [])); r.Ok? && Uses(s, r.value.0, 0, 1)
  {
    hide CodeArith, Code, ListsOk;
    FitPlaced(c, s, e);
    UnarySpec(c.m, s, op, e);
    FreedOk(c, s, e);
    ListsJumps(FreeExp(s, e), e.t, e.f, c.o);
    EmitRoom(FreeExp(s, e), Arith(op, 0, e.kind.reg, 0));
  }

  lemma PrefixRoom(c: Ctx, s: Gen, op: UnOp, e: Exp)
    requires Lawful(c.m) && Fit(c, s, e) && c.lo + 1 <= 249 && Room(s, 1, 5)
    ensures Prefix(c.m, s, op, e).Ok? && Uses(s, Prefix(c.m, s, op, e).value.0, 1, 5)
  {
    hide CodeArith, CodeNot, ExpToAnyReg, Fit;
    if op.OprNot? {
      NotRoom(c, s, e);
    } else if op.OprMinus? && IsNumeral(e) {
      NumeralFolds(c, s, e);
    } else {
      ToAnyRegRoom(c, s, e);
      ExpToAnyRegOk(c, s, e);
      UnaryRoom(c, ExpToAnyReg(s, e).value.0, if op.OprMinus? then Unm else Len, ExpToAnyReg(s, e).value.1);
    }
  }

  lemma NumeralFolds(c: Ctx, s: Gen, e: Exp)
    requires Lawful(c.m) && Fit(c, s, e) && IsNumeral(e)
    ensures var r := CodeArith(c.m, s, Unm, e, Exp(KNum(0.0), [], [])); r.Ok? && r.value.0 == s
  {
    MinusFolds(c.m, e);
    hide Fold;
  }

  lemma InfixRoom(c: Ctx, s: Gen, op: BinOp, e: Exp)
    requires Fit(c, s, e) && c.lo + 1 <= 249 && Room(s, 1, 4)
    ensures Infix(s, op, e).Ok? && Uses(s, Infix(s, op, e).value.0, 1, 4)
  {
    hide GoIf, ExpToRK, Fit;
    if op.OprAnd? || op.OprOr? { GoIfRoom(c, s, e, op.OprOr?); } else { ToRKRoom(c, s, e); }
  }

  /** The operand that came first, after the second one. */
  lemma FirstRoom(c: Ctx, s: Gen, e1: Exp, e2: Exp, lo2: nat)
    requires First(c, s, e1, lo2) && Fit(Within(c, lo2, c.o), s, e2) && IsOperand(e2)
    requires c.lo + 2 <= 249 && Room(s, 1, 4)
    ensures ExpToRK(s, e1).Ok? && Uses(s, ExpToRK(s, e1).value.0, 1, 4)
  {
    hide ExpToRK, Placed;
    if IsOperand(e1) {
      OperandStays(s, e1);
    } else {
      FirstNumber(c, s, e1, e2, lo2);
      ToRKRoom(Within(c, s.freereg, c.o), s, e1);
    }
  }

  lemma ArithRoom(c: Ctx, s: Gen, op: ArithOp, e1: Exp, e2: Exp, lo2: nat)
    requires !IsUnary(op) && First(c, s, e1, lo2) && Fit(Within(c, lo2, c.o), s, e2) && c.lo + 2 <= 249 && Room(s, 2, 9)
    ensures CodeArith(c.m, s, op, e1, e2).Ok? && Uses(s, CodeArith(c.m, s, op, e1, e2).value.0, 2, 9)
  {
    hide CodeArith, Fold, Frame, ExpToRK, Code, Placed, ListsOk, FreeBoth, GenOk;
    if Fold(c.m, op, e1, e2).Ok? {
      FoldedStays(c.m, s, op, e1, e2);
    } else {
      var c2 := Within(c, lo2, c.o);
      BinarySpec(c.m, s, op, e1, e2);
      FirstBound(c, s, e1, lo2);
      ToRKRoom(c2, s, e2);
      ExpToRKOk(c2, s, e2);
      var s2, r2 := ExpToRK(s, e2).value.0, ExpToRK(s, e2).value.1;
      FirstStays(c, s, s2, e1, lo2);
      FirstRoom(c, s2, e1, r2, lo2);
      FirstToRK(c, s2, e1, r2, lo2);
      var s1, r1 := ExpToRK(s2, e1).value.0, ExpToRK(s2, e1).value.1;
      FreeBothOk(s1, r1, r2, c.lo);
      var s3 := FreeBoth(s1, r1, r2, RKOf(r1), RKOf(r2));
      ListsJumps(s1, [], [], c.o);
      EmitRoom(s3, Arith(op, 0, RKOf(r1), RKOf(r2)));
    }
  }

  lemma FoldedStays(m: Machine, s: Gen, op: ArithOp, e1: Exp, e2: Exp)
    requires Fold(m, op, e1, e2).Ok?
    ensures CodeArith(m, s, op, e1, e2).Ok? && CodeArith(m, s, op, e1, e2).value.0 == s
  {
    hide Fold;
  }

  lemma FirstBound(c: Ctx, s: Gen, e: Exp, lo2: nat)
    requires First(c, s, e, lo2)
    ensures lo2 <= c.lo + 1
  {
  }

  lemma CompRoom(c: Ctx, s: Gen, op: CmpOp, cond: bool, e1: Exp, e2: Exp, lo2: nat)
    requires First(c, s, e1, lo2) && IsOperand(e1) && Fit(Within(c, lo2, c.o), s, e2)
    requires c.lo + 2 <= 249 && Room(s, 1, 6)
    ensures CodeComp(s, op, cond, e1, e2).Ok? && Uses(s, CodeComp(s, op, cond, e1, e2).value.0, 1, 6)
  {
    hide CodeComp, ExpToRK, CondJump, Frame, Placed, ListsOk, GenOk, FreeExp;
    var c2 := Within(c, lo2, c.o);
    CompSpec(s, op, cond, e1, e2);
    FirstBound(c, s, e1, lo2);
    ToRKRoom(c2, s, e2);
    ExpToRKOk(c2, s, e2);
    var s2, r2 := ExpToRK(s, e2).value.0, ExpToRK(s, e2).value.1;
    FirstStays(c, s, s2, e1, lo2);
    CompRegs(c, s2, e1, r2, lo2);
    CondJumpRoom(FreeExp(FreeExp(s2, r2), e1), ComparisonOf(op, cond, RKOf(e1), RKOf(r2)), [], [], c.o);
  }

  lemma LogicRoom(c: Ctx, s: Gen, e2: Exp, l: seq<nat>, cond: bool)
    requires Fit(c, s, e2) && AreJumps(s.code, l) && Room(s, 0, 0)
    ensures LogicCode(s, e2, l, cond).Ok? && Uses(s, LogicCode(s, e2, l, cond).value.0, 0, 0)
  {
    hide Concat;
    NextRegFit(c, s, e2);
    var e := DischargeVars(e2);
    ListsJumps(s, e.t, e.f, c.o);
    ConcatRoom(s.code, if cond then e.t else e.f, l);
  }

  // ----- expressions -----

  function Max(a: nat, b: nat): nat
  {
    if a < b then b else a
  }

  /** The registers above the first free one that an expression takes, the constants and the instructions it may add. */
  function Regs(x: Expr): nat
  {
    match x
    case Paren(y) => Regs(y)
    case Unary(_, y) => Max(Regs(y), 1)
    case Binary(op, y, z) =>
      if op.OprAnd? || op.OprOr? then Max(Regs(y), Max(Regs(z), 1)) else Max(Regs(y), Max(1 + Regs(z), 2))
    case _ => 0
  }

  function Constants(x: Expr): nat
  {
    match x
    case EStr(_) => 1
    case Paren(y) => Constants(y)
    case Unary(_, y) => Constants(y) + 1
    case Binary(_, y, z) => Constants(y) + Constants(z) + 3
    case _ => 0
  }

  function Instructions(x: Expr): nat
  {
    match x
    case Paren(y) => Instructions(y)
    case Unary(_, y) => Instructions(y) + 5
    case Binary(_, y, z) => Instructions(y) + Instructions(z) + 13
    case _ => 0
  }

  /** Compiling an expression succeeds if there is room for it, and takes no more than that. */
  lemma {:induction false} CompileRoom(c: Ctx, s: Gen, x: Expr)
    requires Ready(c, s, x) && c.lo + Regs(x) <= 249 && Room(s, Constants(x), Instructions(x))
    ensures Compile(c.m, s, x).Ok? && Uses(s, Compile(c.m, s, x).value.0, Constants(x), Instructions(x))
    decreases x, 1
  {
    hide Ready, Fit, AddK;
    match x
    case EStr(str) => ConstantRoom(s, Str(str));
    case Paren(y) =>
      ReadyParts(c, s, x);
      CompileRoom(c, s, y);
    case Unary(op, y) => UnaryExprRoom(c, s, op, y);
    case Binary(op, y, z) =>
      if op.OprAnd? || op.OprOr? { LogicExprRoom(c, s, y, z, op.OprOr?); } else { OperatorExprRoom(c, s, op, y, z); }
    case _ =>
  }

  lemma {:induction false} UnaryExprRoom(c: Ctx, s: Gen, op: UnOp, y: Expr)
    requires var x := Unary(op, y); Ready(c, s, x) && c.lo + Regs(x) <= 249 && Room(s, Constants(x), Instructions(x))
    ensures var x := Unary(op, y);
            Compile(c.m, s, x).Ok? && Uses(s, Compile(c.m, s, x).value.0, Constants(x), Instructions(x))
    decreases Unary(op, y), 0
  {
    hide Ready, Fit, Prefix;
    ReadyParts(c, s, Unary(op, y));
    CompileRoom(c, s, y);
    CompileOk(c, s, y);
    PrefixRoom(c, Compile(c.m, s, y).value.0, op, Compile(c.m, s, y).value.1);
  }

  lemma {:induction false} LogicExprRoom(c: Ctx, s: Gen, y: Expr, z: Expr, cond: bool)
    requires var x := Binary(if cond then OprOr else OprAnd, y, z);
             Ready(c, s, x) && c.lo + Regs(x) <= 249 && Room(s, Constants(x), Instructions(x))
    ensures var x := Binary(if cond then OprOr else OprAnd, y, z);
            Compile(c.m, s, x).Ok? && Uses(s, Compile(c.m, s, x).value.0, Constants(x), Instructions(x))
    decreases Binary(if cond then OprOr else OprAnd, y, z), 0
  {
    hide Ready, Fit, GoIf, LogicCode, Compile, Elems;
    LogicSpec(c.m, s, y, z, cond);
    ReadyOperands(c, s, if cond then OprOr else OprAnd, y, z);
    CompileRoom(c, s, y);
    CompileOk(c, s, y);
    var s1, e1 := Compile(c.m, s, y).value.0, Compile(c.m, s, y).value.1;
    GoIfRoom(c, s1, e1, cond);
    LogicReady(c, s, y, z, cond);
    var s2, r1 := GoIf(s1, e1, cond).value.0, GoIf(s1, e1, cond).value.1;
    var l := if cond then r1.t else r1.f;
    var c2 := Within(c, c.lo, c.o + Elems(l));
    CompileRoom(c2, s2, z);
    CompileOk(c2, s2, z);
    var s3, e2 := Compile(c.m, s2, z).value.0, Compile(c.m, s2, z).value.1;
    OpenJump(c2, s3, e2, l, c.o);
    LogicRoom(c2, s3, e2, l, cond);
  }

  lemma OpenJump(c: Ctx, s: Gen, e: Exp, l: seq<nat>, o: set<nat>)
    requires Fit(c, s, e) && c.o == o + Elems(l)
    ensures AreJumps(s.code, l)
  {
    forall i | 0 <= i < |l| ensures l[i] < |s.code| && s.code[l[i]].Jmp? { assert l[i] in c.o; }
  }

  lemma {:induction false} OperatorExprRoom(c: Ctx, s: Gen, op: BinOp, y: Expr, z: Expr)
    requires op.OprArith? || op.OprCmp?
    requires var x := Binary(op, y, z);
             Ready(c, s, x) && c.lo + Regs(x) <= 249 && Room(s, Constants(x), Instructions(x))
    ensures var x := Binary(op, y, z);
            Compile(c.m, s, x).Ok? && Uses(s, Compile(c.m, s, x).value.0, Constants(x), Instructions(x))
    decreases Binary(op, y, z), 0
  {
    hide Ready, Fit, First, Infix, Compile, CodeArith, CodeComp;
    OperatorSpec(c.m, s, op, y, z);
    ReadyOperands(c, s, op, y, z);
    if op.OprArith? { BinaryOperator(c, s, op, y, z); }
    CompileRoom(c, s, y);
    CompileOk(c, s, y);
    var s1, e1 := Compile(c.m, s, y).value.0, Compile(c.m, s, y).value.1;
    InfixRoom(c, s1, op, e1);
    OperatorReady(c, s, op, y, z);
    var s2, r1 := Infix(s1, op, e1).value.0, Infix(s1, op, e1).value.1;
    var c2 := Within(c, s2.freereg, c.o);
    FirstBound(c, s2, r1, s2.freereg);
    CompileRoom(c2, s2, z);
    CompileOk(c2, s2, z);
    OperatorFirst(c, s2, r1, z);
    var s3, e2 := Compile(c.m, s2, z).value.0, Compile(c.m, s2, z).value.1;
    if op.OprArith? {
      ArithRoom(c, s3, op.op, r1, e2, s2.freereg);
    } else {
      CompRoom(c, s3, op.cmp, op.cond, r1, e2, s2.freereg);
    }
  }

  lemma BinaryOperator(c: Ctx, s: Gen, op: BinOp, y: Expr, z: Expr)
    requires Ready(c, s, Binary(op, y, z)) && op.OprArith?
    ensures !IsUnary(op.op)
  {
  }

  // ----- what a caller can rely on -----

  function AnyCtx(m: Machine, s: Gen, o: set<nat>): Ctx
  {
    Ctx(m, 0, [], o, s.freereg, -1, Left(Stop(0, [])))
  }

  /** An expression can be put into the next register if there are registers below 250 for it, fewer than 2^18 constants
      with its own, and fewer than 2^17 instructions. */
  lemma ExpressionCompiles(m: Machine, s: Gen, x: Expr, o: set<nat>)
    requires Quiet(m, s, o, x) && s.freereg + Max(Regs(x), 1) < 250
    requires |s.k| + Constants(x) + 1 < 262144 && |s.code| + Instructions(x) + 4 < 131071
    ensures Compile(m, s, x).Ok? && CompileToNextReg(m, s, x).Ok?
  {
    hide GenOk, ListsOk, Compile, ExpToNextReg, Fit, WellFormed, Lawful;
    var c := AnyCtx(m, s, o);
    CompileRoom(c, s, x);
    CompileOk(c, s, x);
    NextRegRoom(c, Compile(m, s, x).value.0, Compile(m, s, x).value.1);
  }

  /** And then, run, it gives its value. */
  lemma ExpressionWorks(m: Machine, s: Gen, x: Expr, o: set<nat>, start: nat, regs: seq<Value>)
    requires Quiet(m, s, o, x) && s.freereg + Max(Regs(x), 1) < 250
    requires |s.k| + Constants(x) + 1 < 262144 && |s.code| + Instructions(x) + 4 < 131071
    requires Compile(m, s, x).Ok? ==> CleanIn(m, s, x)
    requires CompileToNextReg(m, s, x).Ok? ==> CompileToNextReg(m, s, x).value.0.k <= m.k
    requires Arriving(m, s, o, start, regs)
    ensures CompileToNextReg(m, s, x).Ok?
    ensures var s', before := CompileToNextReg(m, s, x).value.0, CodeTheorem.Outcome(m, s, o, start, regs);
            var after := CodeTheorem.Outcome(m, s', o, start, regs);
            Falls(s'.code, s'.jpc, after) && s'.freereg == s.freereg + 1 && |after.regs| == |before.regs| == MAXSTACK &&
            s.freereg < MAXSTACK &&
            after.regs[s.freereg] == Eval(m, x, before.regs) &&
            forall i :: 0 <= i < s.freereg ==> after.regs[i] == before.regs[i]
  {
    hide Quiet, Compile, CompileToNextReg, CleanIn, Arriving, CodeTheorem.Outcome, Falls, Eval;
    ExpressionCompiles(m, s, x, o);
    ExpressionValue(m, s, x, o, start, regs);
  }

  lemma AssignmentCompiles(m: Machine, s: Gen, x: Expr, reg: nat, o: set<nat>)
    requires Quiet(m, s, o, x) && reg < s.nactvar && s.freereg + Regs(x) < 250
    requires |s.k| + Constants(x) + 1 < 262144 && |s.code| + Instructions(x) + 4 < 131071
    ensures Compile(m, s, x).Ok? && CompileToLocal(m, s, x, reg).Ok?
  {
    hide ListsOk, Compile, ExpToReg, Fit, WellFormed, Lawful, FreeExp, Placed;
    var c := AnyCtx(m, s, o);
    CompileRoom(c, s, x);
    CompileOk(c, s, x);
    var s1, e := Compile(m, s, x).value.0, Compile(m, s, x).value.1;
    FreedPlaced(c, s1, e);
    ExpToRegRoom(c, FreeExp(s1, e), e, reg);
  }

  /** The same from the tokens of an expression. */
  lemma TokensCompiles(m: Machine, s: Gen, leaf: nat -> Expr, t: P.Tree, rest: seq<P.Token>, levels: nat, o: set<nat>)
    requires LuaGrammar.Grammatical(t) && LuaGrammar.NoOperator(rest) && P.Levels(t) <= levels
    requires Plain(P.Yield(t) + rest) && Plain(P.Yield(t))
    requires Lawful(m) && GenOk(s) && ListsOk(s, [], [], o) && LeavesOk(m, leaf, P.Yield(t), s.nactvar)
    requires var x := ToExpr(leaf, t);
             s.freereg + Max(Regs(x), 1) < 250 && |s.k| + Constants(x) + 1 < 262144 &&
             |s.code| + Instructions(x) + 4 < 131071
    ensures TokensToNextReg(m, s, leaf, P.Yield(t) + rest, levels).Ok? && Compile(m, s, ToExpr(leaf, t)).Ok?
  {
    hide GenOk, ListsOk, Compile, CompileToNextReg, TokensToNextReg, Lawful;
    ToExprOk(m, leaf, t, s.nactvar);
    ExpressionCompiles(m, s, ToExpr(leaf, t), o);
    TokensCompile(m, s, leaf, t, rest, levels);
  }
}
