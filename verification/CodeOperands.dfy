/** Expressions as operands: in a register, or in the constant table. */
module CodeOperands {
  import opened Seqs
  import opened LuaCode
  import opened CodeGen
  import opened CodeShape
  import opened CodeRuns
  import opened CodeMeaning
  import opened CodeDischarge
  import opened CodeExits

  /** Registers are a stack: above the `lo` registers in use there is at most the one that holds this value. */
  ghost predicate RegsOk(s: Gen, k: Kind, lo: nat)
  {
    s.nactvar <= lo &&
    if k.KNonReloc? && k.reg >= s.nactvar then k.reg == lo && s.freereg == lo + 1 else s.freereg == lo
  }

  ghost predicate Fit(c: Ctx, s: Gen, e: Exp)
  {
    Placed(c.m, s, e, c.o) && RegsOk(s, e.kind, c.lo)
  }

  ghost predicate Means(c: Ctx, s: Gen, e: Exp)
  {
    Denotes(c, s, e) && NilsOk(c, s, e)
  }

  /** What an operation does not touch. */
  ghost predicate Advances(c: Ctx, s: Gen, s': Gen)
  {
    Frame(s.code, s'.code, c.o) && s'.nactvar == s.nactvar && s.k <= s'.k
  }

  lemma MeansEntry(c: Ctx, s: Gen, e: Exp)
    requires Means(c, s, e)
    ensures EntryOk(c, s.nactvar)
  {
  }

  lemma AdvancesSelf(c: Ctx, s: Gen, e: Exp)
    requires ListsOk(s, e.t, e.f, c.o)
    ensures Advances(c, s, s)
  {
    FrameSelf(s, e, c.o);
    FrameLess(s.code, s.code, Elems(e.t) + Elems(e.f) + c.o, c.o);
  }

  lemma AdvancesTransitive(c: Ctx, s: Gen, s1: Gen, s2: Gen)
    requires Advances(c, s, s1) && Advances(c, s1, s2)
    ensures Advances(c, s, s2)
  {
    FrameTransitive(s.code, s1.code, s2.code, c.o);
  }

  lemma VarsOk(c: Ctx, s: Gen, e: Exp)
    requires Fit(c, s, e)
    ensures Fit(c, s, DischargeVars(e)) && Advances(c, s, s)
  {
    AdvancesSelf(c, s, e);
  }

  lemma VarsRun(c: Ctx, s: Gen, e: Exp)
    requires Means(c, s, e)
    ensures Means(c, s, DischargeVars(e))
  {
    SameCodeDenotes(c, s, e, s, DischargeVars(e).kind);
  }

  /** Reserving or freeing registers changes no code. */
  lemma RegsDenote(c: Ctx, s: Gen, s': Gen, e: Exp)
    requires s' == s.(freereg := s'.freereg, maxstack := s'.maxstack) && Means(c, s, e)
    ensures Means(c, s', e)
  {
    SameCodeDenotes(c, s, e, s', e.kind);
  }

  lemma RegsPlaced(c: Ctx, s: Gen, s': Gen, e: Exp)
    requires s' == s.(freereg := s'.freereg, maxstack := s'.maxstack) && Placed(c.m, s, e, c.o)
    requires s.nactvar <= s'.freereg <= s'.maxstack < MAXSTACK
    ensures Placed(c.m, s', e, c.o)
  {
  }

  // ----- luaK_exp2nextreg -----

  lemma NextRegIs(c: Ctx, s: Gen, e: Exp)
    requires Fit(c, s, e) && !e.kind.KLocal? && ReserveReg(FreeExp(s, e)).Ok?
    ensures var s1 := ReserveReg(FreeExp(s, e)).value;
            s1 == s.(freereg := s1.freereg, maxstack := s1.maxstack) && s1.freereg == c.lo + 1 &&
            s1.freereg <= s1.maxstack < MAXSTACK
  {
  }

  lemma NextRegUnfolds(c: Ctx, s: Gen, e: Exp)
    requires Fit(c, s, e) && ExpToNextReg(s, e).Ok?
    ensures var e1 := DischargeVars(e);
            ReserveReg(FreeExp(s, e1)).Ok? &&
            var s1 := ReserveReg(FreeExp(s, e1)).value;
            s1 == s.(freereg := c.lo + 1, maxstack := s1.maxstack) && Placed(c.m, s1, e1, c.o) && c.lo < MAXSTACK &&
            ExpToNextReg(s, e) == ExpToReg(s1, e1, c.lo)
  {
    var e1 := DischargeVars(e);
    assert !e1.kind.KLocal?;
    hide ExpToReg, Placed, Frame, DischargeVars;
    VarsOk(c, s, e);
    NextRegIs(c, s, e1);
    hide FreeExp, ReserveReg;
    RegsPlaced(c, s, ReserveReg(FreeExp(s, e1)).value, e1);
  }

  lemma ExpToNextRegOk(c: Ctx, s: Gen, e: Exp)
    requires Fit(c, s, e) && ExpToNextReg(s, e).Ok?
    ensures var s', e' := ExpToNextReg(s, e).value.0, ExpToNextReg(s, e).value.1;
            Fit(c, s', e') && Advances(c, s, s') && e' == Exp(KNonReloc(c.lo), [], [])
  {
    hide ExpToReg, ExpToNextReg, FreeExp, ReserveReg, DischargeVars, Placed, Frame;
    var e1 := DischargeVars(e);
    NextRegUnfolds(c, s, e);
    var s1 := ReserveReg(FreeExp(s, e1)).value;
    ExpToRegOk(c, s1, e1, c.lo);
  }

  lemma ExpToNextRegRun(c: Ctx, s: Gen, e: Exp)
    requires Fit(c, s, e) && Means(c, s, e) && ExpToNextReg(s, e).Ok? && ExpToNextReg(s, e).value.0.k <= c.m.k
    ensures var s', e' := ExpToNextReg(s, e).value.0, ExpToNextReg(s, e).value.1; Means(c, s', e')
  {
    hide ExpToReg, ExpToNextReg, FreeExp, ReserveReg, DischargeVars, Placed, Denotes, NilsOk;
    var e1 := DischargeVars(e);
    NextRegUnfolds(c, s, e);
    VarsRun(c, s, e);
    var s1 := ReserveReg(FreeExp(s, e1)).value;
    RegsDenote(c, s, s1, e1);
    ExpToRegRun(c, s1, e1, c.lo);
  }

  // ----- luaK_exp2anyreg and luaK_exp2val -----

  lemma ExpToAnyRegOk(c: Ctx, s: Gen, e: Exp)
    requires Fit(c, s, e) && ExpToAnyReg(s, e).Ok?
    ensures var s', e' := ExpToAnyReg(s, e).value.0, ExpToAnyReg(s, e).value.1;
            Fit(c, s', e') && Advances(c, s, s') && e'.kind.KNonReloc? && e'.t == e'.f == []
  {
    var e1 := DischargeVars(e);
    VarsOk(c, s, e);
    hide ExpToReg, ExpToNextReg;
    if e1.kind.KNonReloc? && !HasJumps(e1) {
      NoJumps(c.m, s, e1, c.o);
    } else if e1.kind.KNonReloc? && e1.kind.reg >= s.nactvar {
      ExpToRegOk(c, s, e1, e1.kind.reg);
      hide Placed, Frame;
    } else {
      ExpToNextRegOk(c, s, e1);
    }
  }

  lemma ExpToAnyRegRun(c: Ctx, s: Gen, e: Exp)
    requires Fit(c, s, e) && Means(c, s, e) && ExpToAnyReg(s, e).Ok? && ExpToAnyReg(s, e).value.0.k <= c.m.k
    ensures var s', e' := ExpToAnyReg(s, e).value.0, ExpToAnyReg(s, e).value.1; Means(c, s', e')
  {
    var e1 := DischargeVars(e);
    VarsOk(c, s, e);
    VarsRun(c, s, e);
    hide ExpToReg, ExpToNextReg, Placed, Denotes, NilsOk, Frame;
    if e1.kind.KNonReloc? && !HasJumps(e1) {
    } else if e1.kind.KNonReloc? && e1.kind.reg >= s.nactvar {
      ExpToRegRun(c, s, e1, e1.kind.reg);
    } else {
      ExpToNextRegRun(c, s, e1);
    }
  }

  lemma ExpToValOk(c: Ctx, s: Gen, e: Exp)
    requires Fit(c, s, e) && ExpToVal(s, e).Ok?
    ensures var s', e' := ExpToVal(s, e).value.0, ExpToVal(s, e).value.1;
            Fit(c, s', e') && Advances(c, s, s') && e'.t == e'.f == [] && !e'.kind.KLocal?
  {
    hide ExpToAnyReg;
    if HasJumps(e) {
      ExpToAnyRegOk(c, s, e);
    } else {
      NoJumps(c.m, s, e, c.o);
      VarsOk(c, s, e);
    }
  }

  lemma ExpToValRun(c: Ctx, s: Gen, e: Exp)
    requires Fit(c, s, e) && Means(c, s, e) && ExpToVal(s, e).Ok? && ExpToVal(s, e).value.0.k <= c.m.k
    ensures var s', e' := ExpToVal(s, e).value.0, ExpToVal(s, e).value.1; Means(c, s', e')
  {
    hide ExpToAnyReg, Means, Fit;
    if HasJumps(e) {
      ExpToAnyRegRun(c, s, e);
    } else {
      VarsRun(c, s, e);
    }
  }

  // ----- luaK_exp2RK -----

  predicate IsOperand(e: Exp)
  {
    e.t == [] && e.f == [] && (e.kind.KNonReloc? || (e.kind.KK? && e.kind.idx <= MAXINDEXRK))
  }

  /** The operand, read where its kind says, is the value. */
  ghost predicate Reads(c: Ctx, s: Gen, e: Exp)
  {
    var stop := Run(c.m, s.code, Open(s, e, c.o), c.start, c.regs);
    (if c.out.Gives? && Falls(s.code, s.jpc, stop) then
       Keeps(c.out.r0, stop.regs, c.lo, c.hole) && RK(c.m, stop.regs, RKOf(e)) == c.out.v
     else Leaves(c, s.code, e.t, e.f, stop)) &&
    NilsOk(c, s, e)
  }

  /** An operand is one already. */
  lemma OperandStays(s: Gen, e: Exp)
    requires IsOperand(e)
    ensures ExpToRK(s, e) == Ok((s, e))
  {
  }

  lemma ExpToRKOk(c: Ctx, s: Gen, e: Exp)
    requires Fit(c, s, e) && ExpToRK(s, e).Ok?
    ensures var s', e' := ExpToRK(s, e).value.0, ExpToRK(s, e).value.1;
            Fit(c, s', e') && Advances(c, s, s') && IsOperand(e')
  {
    hide ExpToVal, ExpToAnyReg, Frame, ListsOk;
    ExpToValOk(c, s, e);
    var s1, e1 := ExpToVal(s, e).value.0, ExpToVal(s, e).value.1;
    if IsLiteral(e1.kind) && |s1.k| <= MAXINDEXRK {
      AddKOk(s1, LiteralOf(e1.kind));
      SameLists(s1, AddK(s1, LiteralOf(e1.kind)).value.0, e1.t, e1.f, c.o);
    } else if e1.kind.KK? && e1.kind.idx <= MAXINDEXRK {
    } else {
      ExpToAnyRegOk(c, s1, e1);
      hide Advances;
      AdvancesTransitive(c, s, s1, ExpToAnyReg(s1, e1).value.0);
    }
  }

  lemma RegReads(c: Ctx, s: Gen, e: Exp)
    requires Means(c, s, e) && e.kind.KNonReloc? && e.kind.reg < MAXSTACK
    ensures Reads(c, s, e)
  {
    assert Body(s, e.kind) == s.code;
  }

  lemma ConstReads(c: Ctx, s: Gen, e: Exp)
    requires Means(c, s, e) && e.kind.KK? && IsOperand(e)
    ensures Reads(c, s, e)
  {
    assert Body(s, e.kind) == s.code;
  }

  lemma LiteralReads(c: Ctx, s: Gen, e: Exp)
    requires Fit(c, s, e) && Means(c, s, e) && IsLiteral(e.kind) && AddK(s, LiteralOf(e.kind)).Ok? &&
             |s.k| <= MAXINDEXRK
    requires AddK(s, LiteralOf(e.kind)).value.0.k <= c.m.k
    ensures var s', idx := AddK(s, LiteralOf(e.kind)).value.0, AddK(s, LiteralOf(e.kind)).value.1;
            Reads(c, s', e.(kind := KK(idx)))
  {
    AddKOk(s, LiteralOf(e.kind));
    assert Body(s, e.kind) == s.code;
  }

  lemma ExpToRKRun(c: Ctx, s: Gen, e: Exp)
    requires Fit(c, s, e) && Means(c, s, e) && ExpToRK(s, e).Ok? && ExpToRK(s, e).value.0.k <= c.m.k
    ensures var s', e' := ExpToRK(s, e).value.0, ExpToRK(s, e).value.1; Reads(c, s', e')
  {
    ExpToValOk(c, s, e);
    ExpToRKOk(c, s, e);
    var s1, e1 := ExpToVal(s, e).value.0, ExpToVal(s, e).value.1;
    hide ExpToVal, ExpToAnyReg, Frame, Means, Denotes, NilsOk, Reads, ListsOk;
    if IsLiteral(e1.kind) && |s1.k| <= MAXINDEXRK {
      AddKOk(s1, LiteralOf(e1.kind));
      ExpToValRun(c, s, e);
      LiteralReads(c, s1, e1);
    } else if e1.kind.KK? && e1.kind.idx <= MAXINDEXRK {
      ExpToValRun(c, s, e);
      ConstReads(c, s1, e1);
    } else {
      ExpToAnyRegOk(c, s1, e1);
      ExpToValRun(c, s, e);
      ExpToAnyRegRun(c, s1, e1);
      RegReads(c, ExpToAnyReg(s1, e1).value.0, ExpToAnyReg(s1, e1).value.1);
    }
  }
}
