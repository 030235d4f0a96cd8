/** Every operation keeps the lists and the registers in order: whole expressions. */
module CodeCompile {
  import opened Seqs
  import opened LuaCode
  import opened CodeLists
  import opened CodeGen
  import opened CodeShape
  import opened CodeMeaning
  import opened CodeDischarge
  import opened CodeExits
  import opened CodeOperands
  import opened CodeConds
  import opened CodeOps
  import opened CodeExpr

  /** The context for an operand that starts with this many registers in use. */
  function Within(c: Ctx, lo: nat, o: set<nat>): Ctx
  {
    c.(lo := lo, o := o)
  }

  /** `freereg` asserts that a register is freed in the reverse order of reservation. */
  ghost predicate FreesTop(s: Gen, e: Exp)
  {
    e.kind.KNonReloc? && e.kind.reg >= s.nactvar ==> e.kind.reg == s.freereg - 1
  }

  // ----- unary operators on a register -----

  lemma FoldNeedsNumeral(m: Machine, op: ArithOp, e1: Exp, e2: Exp)
    requires !IsNumeral(e1) || !IsNumeral(e2)
    ensures Fold(m, op, e1, e2).Err?
  {
  }

  /** `codearith` on the one operand of a unary operator. */
  lemma UnaryUnfolds(m: Machine, s: Gen, op: ArithOp, e: Exp)
    requires IsUnary(op) && IsOperand(e) && e.kind.KNonReloc? && e.kind.reg < MAXSTACK &&
             CodeArith(m, s, op, e, Exp(KNum(0.0), [], [])).Ok?
    ensures var s1 := FreeExp(s, e);
            Code(s1, Arith(op, 0, e.kind.reg, 0)).Ok? &&
            CodeArith(m, s, op, e, Exp(KNum(0.0), [], [])) ==
              Ok((Code(s1, Arith(op, 0, e.kind.reg, 0)).value, Exp(KReloc(|s.code|), [], [])))
  {
    OperandStays(s, e);
    FoldNeedsNumeral(m, op, e, Exp(KNum(0.0), [], []));
    hide Fold, ExpToRK, Code;
  }

  lemma FreedOk(c: Ctx, s: Gen, e: Exp)
    requires Fit(c, s, e) && e.kind.KNonReloc?
    ensures var s1 := FreeExp(s, e);
            s1 == s.(freereg := c.lo) && GenOk(s1) && ListsOk(s1, e.t, e.f, c.o) && FreesTop(s, e)
  {
    SameLists(s, s.(freereg := c.lo), e.t, e.f, c.o);
  }

  lemma UnaryOk(c: Ctx, s: Gen, op: ArithOp, e: Exp)
    requires Fit(c, s, e) && IsUnary(op) && IsOperand(e) && e.kind.KNonReloc? &&
             CodeArith(c.m, s, op, e, Exp(KNum(0.0), [], [])).Ok?
    ensures var s', e' := CodeArith(c.m, s, op, e, Exp(KNum(0.0), [], [])).value.0,
                CodeArith(c.m, s, op, e, Exp(KNum(0.0), [], [])).value.1;
            Fit(c, s', e') && Advances(c, s, s')
  {
    UnaryUnfolds(c.m, s, op, e);
    FreedOk(c, s, e);
    var s1 := FreeExp(s, e);
    hide CodeArith, FreeExp, Code;
    EmittedFit(c, s1, Arith(op, 0, e.kind.reg, 0), [], []);
  }

  lemma MinusNumeral(m: Machine, s: Gen, e: Exp)
    requires Lawful(m) && IsNumeral(e) && !m.isNan(e.kind.n)
    ensures CodeArith(m, s, Unm, e, Exp(KNum(0.0), [], [])) == Ok((s, Exp(KNum(m.fold(Unm, e.kind.n, 0.0)), [], [])))
    ensures !m.isNan(m.fold(Unm, e.kind.n, 0.0))
  {
  }

  lemma PrefixOk(c: Ctx, s: Gen, op: UnOp, e: Exp)
    requires Lawful(c.m) && Fit(c, s, e) && Prefix(c.m, s, op, e).Ok?
    ensures var s', e' := Prefix(c.m, s, op, e).value.0, Prefix(c.m, s, op, e).value.1;
            Fit(c, s', e') && Advances(c, s, s')
  {
    hide CodeArith, CodeNot, ExpToAnyReg, Advances;
    match op
    case OprNot => CodeNotOk(c, s, e);
    case OprMinus =>
      if IsNumeral(e) {
        MinusNumeral(c.m, s, e);
        AdvancesSelf(c, s, e);
      } else {
        ExpToAnyRegOk(c, s, e);
        var s1, e1 := ExpToAnyReg(s, e).value.0, ExpToAnyReg(s, e).value.1;
        hide Fit;
        UnaryOk(c, s1, Unm, e1);
        AdvancesTransitive(c, s, s1, Prefix(c.m, s, op, e).value.0);
      }
    case OprLen =>
      ExpToAnyRegOk(c, s, e);
      var s1, e1 := ExpToAnyReg(s, e).value.0, ExpToAnyReg(s, e).value.1;
      hide Fit;
      UnaryOk(c, s1, Len, e1);
      AdvancesTransitive(c, s, s1, Prefix(c.m, s, op, e).value.0);
  }

  // ----- binary operators -----

  /** The first operand, waiting while the second is compiled above `lo2`: in a register, a constant, or a
      number that may yet be folded. */
  ghost predicate First(c: Ctx, s: Gen, e: Exp, lo2: nat)
  {
    e.t == [] && e.f == [] && s.nactvar <= c.lo &&
    match e.kind
    case KNonReloc(r) => r < MAXSTACK && if r >= s.nactvar then r == c.lo && lo2 == c.lo + 1 else lo2 == c.lo
    case KK(idx) => lo2 == c.lo && idx < |s.k| && idx <= MAXINDEXRK
    case KNum(n) => lo2 == c.lo && !c.m.isNan(n)
    case _ => false
  }

  /** The registers that both operands take. */
  ghost predicate BothRegs(s: Gen, e1: Exp, e2: Exp, lo: nat)
  {
    var temp1, temp2 := e1.kind.KNonReloc? && e1.kind.reg >= s.nactvar, e2.kind.KNonReloc? && e2.kind.reg >= s.nactvar;
    IsOperand(e1) && IsOperand(e2) && s.nactvar <= lo < MAXSTACK &&
    s.freereg == lo + (if temp1 then 1 else 0) + (if temp2 then 1 else 0) &&
    if temp1 && temp2 then {e1.kind.reg, e2.kind.reg} == {lo, lo + 1} && e1.kind.reg != e2.kind.reg
    else (temp1 ==> e1.kind.reg == lo) && (temp2 ==> e2.kind.reg == lo)
  }

  /** Both operands are freed, in the order that `freereg` asks for. */
  lemma FreeBothOk(s: Gen, e1: Exp, e2: Exp, lo: nat)
    requires GenOk(s) && BothRegs(s, e1, e2, lo)
    ensures var s' := FreeBoth(s, e1, e2, RKOf(e1), RKOf(e2)); s' == s.(freereg := lo) && GenOk(s')
    ensures if RKOf(e1) > RKOf(e2) then FreesTop(s, e1) && FreesTop(FreeExp(s, e1), e2)
            else FreesTop(s, e2) && FreesTop(FreeExp(s, e2), e1)
  {
    assert e1.kind.KNonReloc? && e1.kind.reg >= s.nactvar && e2.kind.KNonReloc? && e2.kind.reg >= s.nactvar ==>
      (e1.kind.reg == lo && e2.kind.reg == lo + 1) || (e1.kind.reg == lo + 1 && e2.kind.reg == lo) by {
      if e1.kind.KNonReloc? && e1.kind.reg >= s.nactvar && e2.kind.KNonReloc? && e2.kind.reg >= s.nactvar {
        assert e1.kind.reg in {lo, lo + 1} && e2.kind.reg in {lo, lo + 1};
      }
    }
  }

  lemma ArithUnfolds(m: Machine, s: Gen, op: ArithOp, e1: Exp, e2: Exp)
    requires !IsUnary(op) && CodeArith(m, s, op, e1, e2).Ok? && Fold(m, op, e1, e2).Err?
    ensures ExpToRK(s, e2).Ok? &&
            var s2, r2 := ExpToRK(s, e2).value.0, ExpToRK(s, e2).value.1;
            ExpToRK(s2, e1).Ok? &&
            var s1, r1 := ExpToRK(s2, e1).value.0, ExpToRK(s2, e1).value.1;
            var s3, i := FreeBoth(s1, r1, r2, RKOf(r1), RKOf(r2)), Arith(op, 0, RKOf(r1), RKOf(r2));
            Code(s3, i).Ok? && CodeArith(m, s, op, e1, e2) == Ok((Code(s3, i).value, r1.(kind := KReloc(|s3.code|))))
  {
    hide Fold, ExpToRK, Code, FreeBoth;
  }

  /** The second `luaK_exp2RK` of `codearith`, on the operand that came first. */
  lemma FirstToRK(c: Ctx, s: Gen, e1: Exp, e2: Exp, lo2: nat)
    requires First(c, s, e1, lo2) && Fit(Within(c, lo2, c.o), s, e2) && IsOperand(e2) && ExpToRK(s, e1).Ok?
    ensures var s', r1 := ExpToRK(s, e1).value.0, ExpToRK(s, e1).value.1;
            BothRegs(s', r1, e2, c.lo) && GenOk(s') && ListsOk(s', [], [], c.o) && Advances(c, s, s')
    ensures IsOperand(e1) ==> ExpToRK(s, e1) == Ok((s, e1))
    ensures e1.kind.KNum? ==> Fit(Within(c, s.freereg, c.o), s, e1) && IsOperand(ExpToRK(s, e1).value.1) &&
                              Fit(Within(c, s.freereg, c.o), ExpToRK(s, e1).value.0, ExpToRK(s, e1).value.1)
  {
    if IsOperand(e1) {
      OperandStays(s, e1);
      AdvancesSelf(c, s, e2);
    } else {
      var c3 := Within(c, s.freereg, c.o);
      ExpToRKOk(c3, s, e1);
      hide ExpToRK, Frame, ListsOk;
    }
  }

  lemma ArithOk(c: Ctx, s: Gen, op: ArithOp, e1: Exp, e2: Exp, lo2: nat)
    requires !IsUnary(op) && First(c, s, e1, lo2) && Fit(Within(c, lo2, c.o), s, e2) &&
             CodeArith(c.m, s, op, e1, e2).Ok?
    ensures var s', e' := CodeArith(c.m, s, op, e1, e2).value.0, CodeArith(c.m, s, op, e1, e2).value.1;
            Fit(c, s', e') && Advances(c, s, s')
  {
    if Fold(c.m, op, e1, e2).Ok? {
      AdvancesSelf(c, s, e2);
    } else {
      var c2 := Within(c, lo2, c.o);
      ArithUnfolds(c.m, s, op, e1, e2);
      hide CodeArith, Fold, Frame, ExpToRK, Code;
      ExpToRKOk(c2, s, e2);
      var s2, r2 := ExpToRK(s, e2).value.0, ExpToRK(s, e2).value.1;
      hide Placed, ListsOk, FreeBoth, GenOk;
      FirstToRK(c, s2, e1, r2, lo2);
      var s1, r1 := ExpToRK(s2, e1).value.0, ExpToRK(s2, e1).value.1;
      FreeBothOk(s1, r1, r2, c.lo);
      var s3 := FreeBoth(s1, r1, r2, RKOf(r1), RKOf(r2));
      SameLists(s1, s3, [], [], c.o);
      EmittedFit(c, s3, Arith(op, 0, RKOf(r1), RKOf(r2)), [], []);
      ArithAdvances(c, s, s2, s1, s3, Code(s3, Arith(op, 0, RKOf(r1), RKOf(r2))).value);
    }
  }

  lemma ArithAdvances(c: Ctx, s: Gen, s1: Gen, s2: Gen, s3: Gen, s4: Gen)
    requires Frame(s.code, s1.code, c.o) && s1.nactvar == s.nactvar && s.k <= s1.k
    requires Advances(c, s1, s2) && s3 == s2.(freereg := s3.freereg) && Advances(c, s3, s4)
    ensures Advances(c, s, s4)
  {
    FrameTransitive(s.code, s1.code, s2.code, c.o);
    FrameTransitive(s.code, s2.code, s4.code, c.o);
  }

  lemma CompUnfolds(s: Gen, op: CmpOp, cond: bool, e1: Exp, e2: Exp)
    requires IsOperand(e1) && CodeComp(s, op, cond, e1, e2).Ok?
    ensures ExpToRK(s, e2).Ok? &&
            var s2, r2 := ExpToRK(s, e2).value.0, ExpToRK(s, e2).value.1;
            var s3, i := FreeExp(FreeExp(s2, r2), e1), ComparisonOf(op, cond, RKOf(e1), RKOf(r2));
            CondJump(s3, i).Ok? && |CondJump(s3, i).value.1| > 0 &&
            CodeComp(s, op, cond, e1, e2) ==
              Ok((CondJump(s3, i).value.0, e1.(kind := KJmp(CondJump(s3, i).value.1[0]))))
  {
    OperandStays(s, e1);
    hide ExpToRK;
  }

  function ComparisonOf(op: CmpOp, cond: bool, x1: nat, x2: nat): Instr
  {
    if !cond && op != Eq then Compare(op, true, x2, x1) else Compare(op, cond, x1, x2)
  }

  lemma CompRegs(c: Ctx, s: Gen, e1: Exp, e2: Exp, lo2: nat)
    requires First(c, s, e1, lo2) && IsOperand(e1) && Fit(Within(c, lo2, c.o), s, e2) && IsOperand(e2)
    ensures var s3 := FreeExp(FreeExp(s, e2), e1);
            s3 == s.(freereg := c.lo) && GenOk(s3) && ListsOk(s3, [], [], c.o) && FreesTop(s, e2) &&
            FreesTop(FreeExp(s, e2), e1)
  {
    SameLists(s, s.(freereg := c.lo), [], [], c.o);
  }

  lemma CompOk(c: Ctx, s: Gen, op: CmpOp, cond: bool, e1: Exp, e2: Exp, lo2: nat)
    requires First(c, s, e1, lo2) && IsOperand(e1) && Fit(Within(c, lo2, c.o), s, e2) &&
             CodeComp(s, op, cond, e1, e2).Ok?
    ensures var s', e' := CodeComp(s, op, cond, e1, e2).value.0, CodeComp(s, op, cond, e1, e2).value.1;
            Fit(c, s', e') && Advances(c, s, s')
  {
    CompUnfolds(s, op, cond, e1, e2);
    hide CodeComp, ExpToRK, CondJump, Frame;
    ExpToRKOk(Within(c, lo2, c.o), s, e2);
    var s2, r2 := ExpToRK(s, e2).value.0, ExpToRK(s, e2).value.1;
    hide Placed, ListsOk, GenOk;
    CompRegs(c, s2, e1, r2, lo2);
    var s3 := FreeExp(FreeExp(s2, r2), e1);
    hide FreeExp;
    CompareFit(c, s3, ComparisonOf(op, cond, RKOf(e1), RKOf(r2)));
    FrameTransitive(s.code, s2.code, CondJump(s3, ComparisonOf(op, cond, RKOf(e1), RKOf(r2))).value.0.code, c.o);
  }

  // ----- and, or -----

  /** `luaK_posfix` for `and` (`cond` false) and `or` (`cond` true): the exits of the left operand join those of
      the right one. */
  function LogicCode(s: Gen, e2: Exp, l: seq<nat>, cond: bool): Result<(Gen, Exp)>
  {
    var e := DischargeVars(e2);
    var code :- Concat(s.code, if cond then e.t else e.f, l);
    Ok((s.(code := code), Exp(e.kind, WithT(e.t, l, cond), WithF(e.f, l, cond))))
  }

  lemma PosfixLogic(m: Machine, s: Gen, e1: Exp, e2: Exp)
    ensures Posfix(m, s, OprAnd, e1, e2) == LogicCode(s, e2, e1.f, false)
    ensures Posfix(m, s, OprOr, e1, e2) == LogicCode(s, e2, e1.t, true)
  {
  }

  lemma FitLess(c: Ctx, s: Gen, e: Exp, l: seq<nat>)
    requires Fit(Within(c, c.lo, c.o + Elems(l)), s, e) && Threaded(s.code, l)
    ensures Fit(c, s, e) && Apart(s.jpc, l) && Apart(l, e.t) && Apart(l, e.f) && (e.kind.KJmp? ==> e.kind.pc !in l)
  {
    ElemsIn(l);
  }

  lemma LogicJoin(c: Ctx, s: Gen, e: Exp, l: seq<nat>, cond: bool)
    requires GenOk(s) && ListsOk(s, e.t, e.f, c.o) && Threaded(s.code, l) && (forall j :: j in l ==> j !in c.o)
    requires Apart(s.jpc, l) && Apart(l, e.t) && Apart(l, e.f) && Concat(s.code, if cond then e.t else e.f, l).Ok?
    ensures var s' := s.(code := Concat(s.code, if cond then e.t else e.f, l).value);
            GenOk(s') && ListsOk(s', WithT(e.t, l, cond), WithF(e.f, l, cond), c.o) && |s'.code| == |s.code| &&
            Advances(c, s, s') &&
            (forall i :: 0 <= i < |s.code| && i !in (if cond then e.t else e.f) ==> s'.code[i] == s.code[i])
  {
    var exits, held := if cond then e.t else e.f, if cond then e.f else e.t;
    var s' := s.(code := Concat(s.code, exits, l).value);
    hide Threaded, GenOk, Frame, Concat;
    ListsSwap(s, e.t, e.f, c.o);
    ApartSwap(l, e.t);
    ApartSwap(l, e.f);
    JoinOk(s, exits, l, held, c.o);
    hide ListsOk;
    ListsSwap(s', exits + l, held, c.o);
    FrameLess(s.code, s'.code, Elems(s.jpc) + Elems(held) + c.o, c.o);
  }

  lemma ApartSwap(a: seq<nat>, b: seq<nat>)
    requires Apart(a, b)
    ensures Apart(b, a)
  {
  }

  lemma LogicOk(c: Ctx, s: Gen, e2: Exp, l: seq<nat>, cond: bool)
    requires Fit(Within(c, c.lo, c.o + Elems(l)), s, e2) && Threaded(s.code, l) && (forall j :: j in l ==> j !in c.o)
    requires LogicCode(s, e2, l, cond).Ok?
    ensures var s', e' := LogicCode(s, e2, l, cond).value.0, LogicCode(s, e2, l, cond).value.1;
            Fit(c, s', e') && Advances(c, s, s')
  {
    var e := DischargeVars(e2);
    hide Frame, DischargeVars, Concat, Threaded, Fit;
    VarsOk(Within(c, c.lo, c.o + Elems(l)), s, e2);
    FitLess(c, s, e, l);
    FitParts(c, s, e);
    FitJumps(c, s, e);
    hide ListsOk, GenOk, KindOk, RegsOk, AreJumps, Advances;
    LogicJoin(c, s, e, l, cond);
    var s' := s.(code := Concat(s.code, if cond then e.t else e.f, l).value);
    ListsJumps(s', WithT(e.t, l, cond), WithF(e.f, l, cond), c.o);
    SomeJumps(s'.code, e.t, e.f, l, cond);
    KindCarries(c, s, s', e, if cond then e.t else e.f, l, cond);
    RegsSame(s, s', e.kind, c.lo);
    FitWhole(c, s', Exp(e.kind, WithT(e.t, l, cond), WithF(e.f, l, cond)));
  }

  lemma RegsSame(s: Gen, s': Gen, k: Kind, lo: nat)
    requires RegsOk(s, k, lo) && s'.freereg == s.freereg && s'.nactvar == s.nactvar
    ensures RegsOk(s', k, lo)
  {
  }

  lemma FitParts(c: Ctx, s: Gen, e: Exp)
    requires Fit(c, s, e)
    ensures GenOk(s) && ListsOk(s, e.t, e.f, c.o) && KindOk(c.m, s, e, c.o) && RegsOk(s, e.kind, c.lo)
  {
  }

  lemma FitWhole(c: Ctx, s: Gen, e: Exp)
    requires GenOk(s) && ListsOk(s, e.t, e.f, c.o) && KindOk(c.m, s, e, c.o) && RegsOk(s, e.kind, c.lo)
    ensures Fit(c, s, e)
  {
  }

  lemma FitJumps(c: Ctx, s: Gen, e: Exp)
    requires Fit(c, s, e)
    ensures AreJumps(s.code, e.t) && AreJumps(s.code, e.f)
  {
  }

  lemma ListsJumps(s: Gen, t: seq<nat>, f: seq<nat>, o: set<nat>)
    requires ListsOk(s, t, f, o)
    ensures AreJumps(s.code, t) && AreJumps(s.code, f)
  {
  }

  lemma SomeJumps(code: seq<Instr>, t: seq<nat>, f: seq<nat>, l: seq<nat>, cond: bool)
    requires AreJumps(code, WithT(t, l, cond)) && AreJumps(code, WithF(f, l, cond))
    ensures AreJumps(code, if cond then t else f)
  {
    var exits := if cond then t else f;
    forall i | 0 <= i < |exits| ensures exits[i] < |code| && code[exits[i]].Jmp? { assert exits[i] == (exits + l)[i]; }
  }

  lemma KindCarries(c: Ctx, s: Gen, s': Gen, e: Exp, exits: seq<nat>, l: seq<nat>, cond: bool)
    requires KindOk(c.m, s, e, c.o) && s' == s.(code := s'.code) && |s'.code| == |s.code| &&
             exits == (if cond then e.t else e.f)
    requires (forall i :: 0 <= i < |s.code| && i !in exits ==> s'.code[i] == s.code[i]) &&
             (e.kind.KJmp? ==> e.kind.pc !in l)
    requires AreJumps(s.code, exits) && AreJumps(s'.code, exits)
    ensures KindOk(c.m, s', Exp(e.kind, WithT(e.t, l, cond), WithF(e.f, l, cond)), c.o)
  {
    forall i | 0 <= i < |s.code| ensures s'.code[i] == s.code[i] || (s.code[i].Jmp? && s'.code[i].Jmp?) {}
    hide AreJumps;
    if e.kind.KJmp? { assert s'.code[e.kind.pc] == s.code[e.kind.pc]; }
  }

  /** What the left operand leaves for the right one. */
  ghost predicate LeftDone(c: Ctx, s: Gen, l: seq<nat>)
  {
    GenOk(s) && ListsOk(s, [], [], c.o + Elems(l)) && Threaded(s.code, l) && (forall j :: j in l ==> j !in c.o) &&
    s.freereg == c.lo
  }

  lemma GoIfLeft(c: Ctx, s: Gen, t: seq<nat>, f: seq<nat>, cond: bool)
    requires GenOk(s) && ListsOk(s, t, f, c.o) && s.freereg == c.lo && (if cond then f == [] else t == [])
    ensures LeftDone(c, s, if cond then t else f)
  {
    ElemsIn(if cond then t else f);
  }

  lemma LeftStays(c: Ctx, s: Gen, s': Gen, l: seq<nat>)
    requires LeftDone(c, s, l) && Advances(Within(c, c.lo, c.o + Elems(l)), s, s')
    ensures Threaded(s'.code, l) && Advances(c, s, s')
  {
    ElemsIn(l);
    forall j | j in l ensures SameJump(s.code, s'.code, j) { assert j in c.o + Elems(l); }
    ThreadedFrame(s.code, s'.code, l);
    FrameLess(s.code, s'.code, c.o + Elems(l), c.o);
  }

  // ----- whole expressions -----

  ghost predicate Ready(c: Ctx, s: Gen, x: Expr)
  {
    Lawful(c.m) && GenOk(s) && ListsOk(s, [], [], c.o) && s.freereg == c.lo && WellFormed(c.m, x, s.nactvar)
  }

  lemma InfixFirst(c: Ctx, s: Gen, op: BinOp, e: Exp)
    requires Fit(c, s, e) && (op.OprArith? || op.OprCmp?) && Infix(s, op, e).Ok?
    ensures var s', e' := Infix(s, op, e).value.0, Infix(s, op, e).value.1;
            First(c, s', e', s'.freereg) && GenOk(s') && ListsOk(s', [], [], c.o) && Advances(c, s, s') &&
            (op.OprCmp? ==> IsOperand(e'))
  {
    if op.OprArith? && IsNumeral(e) {
      AdvancesSelf(c, s, e);
    } else {
      ExpToRKOk(c, s, e);
      hide ExpToRK, Frame;
    }
  }

  lemma FirstStays(c: Ctx, s: Gen, s': Gen, e: Exp, lo2: nat)
    requires First(c, s, e, lo2) && Advances(Within(c, lo2, c.o), s, s')
    ensures First(c, s', e, lo2) && Advances(c, s, s')
  {
  }

  /** Compiling any expression keeps every list of open jumps threaded and apart, touches no jump of the
      expressions around, and leaves at most one register reserved. */
  lemma {:induction false} CompileOk(c: Ctx, s: Gen, x: Expr)
    requires Ready(c, s, x) && Compile(c.m, s, x).Ok?
    ensures var s', e := Compile(c.m, s, x).value.0, Compile(c.m, s, x).value.1;
            Fit(c, s', e) && Advances(c, s, s')
    decreases x
  {
    match x
    case EStr(str) =>
      AddKOk(s, Str(str));
      AdvancesSelf(c, s, Exp(KNil, [], []));
      SameLists(s, AddK(s, Str(str)).value.0, [], [], c.o);
    case Paren(y) =>
      CompileOk(c, s, y);
      hide Advances;
      VarsOk(c, Compile(c.m, s, y).value.0, Compile(c.m, s, y).value.1);
    case Unary(op, y) =>
      CompileOk(c, s, y);
      hide Fit, Advances, Prefix;
      var s1, e1 := Compile(c.m, s, y).value.0, Compile(c.m, s, y).value.1;
      PrefixOk(c, s1, op, e1);
      AdvancesTransitive(c, s, s1, Prefix(c.m, s1, op, e1).value.0);
    case Binary(op, y, z) =>
      CompileOk(c, s, y);
      if op.OprAnd? {
        LogicCompileOk(c, s, y, z, false);
      } else if op.OprOr? {
        LogicCompileOk(c, s, y, z, true);
      } else {
        OperatorCompileOk(c, s, op, y, z);
      }
    case _ => AdvancesSelf(c, s, Exp(KNil, [], []));
  }

  lemma ReadyAfter(c: Ctx, s: Gen, x: Expr, s1: Gen, y: Expr, lo: nat, o: set<nat>)
    requires Ready(c, s, x) && Advances(c, s, s1) && GenOk(s1) && ListsOk(s1, [], [], o) && s1.freereg == lo &&
             WellFormed(c.m, y, s.nactvar)
    ensures Ready(Within(c, lo, o), s1, y)
  {
  }

  lemma LogicUnfolds(m: Machine, s: Gen, y: Expr, z: Expr, cond: bool)
    requires Compile(m, s, Binary(if cond then OprOr else OprAnd, y, z)).Ok?
    ensures Compile(m, s, y).Ok? &&
            var s1, e1 := Compile(m, s, y).value.0, Compile(m, s, y).value.1;
            GoIf(s1, e1, cond).Ok? &&
            var s2, r1 := GoIf(s1, e1, cond).value.0, GoIf(s1, e1, cond).value.1;
            Compile(m, s2, z).Ok? &&
            var s3, e2 := Compile(m, s2, z).value.0, Compile(m, s2, z).value.1;
            Compile(m, s, Binary(if cond then OprOr else OprAnd, y, z)) ==
              LogicCode(s3, e2, if cond then r1.t else r1.f, cond)
  {
    var s1, e1 := Compile(m, s, y).value.0, Compile(m, s, y).value.1;
    var s2, r1 := GoIf(s1, e1, cond).value.0, GoIf(s1, e1, cond).value.1;
    hide GoIf, LogicCode;
    PosfixLogic(m, Compile(m, s2, z).value.0, r1, Compile(m, s2, z).value.1);
    hide Posfix;
  }

  lemma OperatorUnfolds(m: Machine, s: Gen, op: BinOp, y: Expr, z: Expr)
    requires (op.OprArith? || op.OprCmp?) && Compile(m, s, Binary(op, y, z)).Ok?
    ensures Compile(m, s, y).Ok? &&
            var s1, e1 := Compile(m, s, y).value.0, Compile(m, s, y).value.1;
            Infix(s1, op, e1).Ok? &&
            var s2, r1 := Infix(s1, op, e1).value.0, Infix(s1, op, e1).value.1;
            Compile(m, s2, z).Ok? &&
            var s3, e2 := Compile(m, s2, z).value.0, Compile(m, s2, z).value.1;
            Compile(m, s, Binary(op, y, z)) ==
              if op.OprArith? then CodeArith(m, s3, op.op, r1, e2) else CodeComp(s3, op.cmp, op.cond, r1, e2)
  {
    hide Infix, CodeArith, CodeComp;
  }

  lemma OperatorCompileOk(c: Ctx, s: Gen, op: BinOp, y: Expr, z: Expr)
    requires Ready(c, s, Binary(op, y, z)) && (op.OprArith? || op.OprCmp?) && Compile(c.m, s, Binary(op, y, z)).Ok?
    requires Compile(c.m, s, y).Ok? && Fit(c, Compile(c.m, s, y).value.0, Compile(c.m, s, y).value.1) &&
             Advances(c, s, Compile(c.m, s, y).value.0)
    ensures var s', e := Compile(c.m, s, Binary(op, y, z)).value.0, Compile(c.m, s, Binary(op, y, z)).value.1;
            Fit(c, s', e) && Advances(c, s, s')
    decreases Binary(op, y, z), 0
  {
    OperatorUnfolds(c.m, s, op, y, z);
    hide Compile;
    var s1, e1 := Compile(c.m, s, y).value.0, Compile(c.m, s, y).value.1;
    var s2, r1 := Infix(s1, op, e1).value.0, Infix(s1, op, e1).value.1;
    InfixFirst(c, s1, op, e1);
    hide Fit, Advances, Infix, First, ListsOk, GenOk, CodeArith, CodeComp;
    AdvancesTransitive(c, s, s1, s2);
    var c2 := Within(c, s2.freereg, c.o);
    ReadyAfter(c, s, Binary(op, y, z), s2, z, s2.freereg, c.o);
    CompileOk(c2, s2, z);
    var s3, e2 := Compile(c.m, s2, z).value.0, Compile(c.m, s2, z).value.1;
    FirstStays(c, s2, s3, r1, s2.freereg);
    AdvancesTransitive(c, s, s2, s3);
    if op.OprArith? {
      ArithOk(c, s3, op.op, r1, e2, s2.freereg);
      AdvancesTransitive(c, s, s3, CodeArith(c.m, s3, op.op, r1, e2).value.0);
    } else {
      CompOk(c, s3, op.cmp, op.cond, r1, e2, s2.freereg);
      AdvancesTransitive(c, s, s3, CodeComp(s3, op.cmp, op.cond, r1, e2).value.0);
    }
  }

  lemma LogicCompileOk(c: Ctx, s: Gen, y: Expr, z: Expr, cond: bool)
    requires Ready(c, s, Binary(if cond then OprOr else OprAnd, y, z)) &&
             Compile(c.m, s, Binary(if cond then OprOr else OprAnd, y, z)).Ok?
    requires Compile(c.m, s, y).Ok? && Fit(c, Compile(c.m, s, y).value.0, Compile(c.m, s, y).value.1) &&
             Advances(c, s, Compile(c.m, s, y).value.0)
    ensures var x := Binary(if cond then OprOr else OprAnd, y, z);
            var s', e := Compile(c.m, s, x).value.0, Compile(c.m, s, x).value.1;
            Fit(c, s', e) && Advances(c, s, s')
    decreases Binary(if cond then OprOr else OprAnd, y, z), 0
  {
    LogicUnfolds(c.m, s, y, z, cond);
    hide Compile;
    var s1, e1 := Compile(c.m, s, y).value.0, Compile(c.m, s, y).value.1;
    var s2, r1 := GoIf(s1, e1, cond).value.0, GoIf(s1, e1, cond).value.1;
    var l := if cond then r1.t else r1.f;
    GoIfOk(c, s1, e1, cond);
    GoIfLeft(c, s2, r1.t, r1.f, cond);
    LeftReady(c, s2, l);
    hide Fit, Advances, GoIf, ListsOk, GenOk, LeftDone;
    AdvancesTransitive(c, s, s1, s2);
    var c2 := Within(c, c.lo, c.o + Elems(l));
    ReadyAfter(c, s, Binary(if cond then OprOr else OprAnd, y, z), s2, z, c.lo, c.o + Elems(l));
    CompileOk(c2, s2, z);
    var s3, e2 := Compile(c.m, s2, z).value.0, Compile(c.m, s2, z).value.1;
    LeftStays(c, s2, s3, l);
    LeftApart(c, s2, l);
    AdvancesTransitive(c, s, s2, s3);
    hide LogicCode;
    LogicOk(c, s3, e2, l, cond);
    AdvancesTransitive(c, s, s3, LogicCode(s3, e2, l, cond).value.0);
  }

  lemma LeftReady(c: Ctx, s: Gen, l: seq<nat>)
    requires LeftDone(c, s, l)
    ensures GenOk(s) && ListsOk(s, [], [], c.o + Elems(l)) && s.freereg == c.lo
  {
  }

  lemma LeftApart(c: Ctx, s: Gen, l: seq<nat>)
    requires LeftDone(c, s, l)
    ensures forall j :: j in l ==> j !in c.o
  {
  }
}
