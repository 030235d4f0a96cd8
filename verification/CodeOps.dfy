/** The operators: not, arithmetic and comparison. */
module CodeOps {
  import opened Seqs
  import opened LuaCode
  import opened CodeLists
  import opened CodeGen
  import opened CodeShape
  import opened CodeRuns
  import opened CodeMeaning
  import opened CodeDischarge
  import opened CodeExits
  import opened CodeOperands
  import opened CodeConds

  // ----- an instruction whose result register is not chosen yet -----

  lemma CodeStop(m: Machine, s: Gen, i: Instr, t: seq<nat>, f: seq<nat>, o: set<nat>, start: nat, regs: seq<Value>)
    requires GenOk(s) && ListsOk(s, t, f, o) && Code(s, i).Ok? &&
             0 <= Run(m, s.code, OpenOf(s, t, f, o), start, regs).pc <= |s.code|
    ensures var s', n, stop := Code(s, i).value, |s.code|, Run(m, s.code, OpenOf(s, t, f, o), start, regs);
            |s'.code| == n + 1 && Run(m, s'.code[..n], OpenOf(s', t, f, o), start, regs) ==
              if Falls(s.code, s.jpc, stop) then Stop(n, stop.regs) else stop
  {
    var s' := Code(s, i).value;
    OpenOfJumps(s, t, f, o);
    CodeRun(m, s, i, OpenOf(s, t, f, o), start, regs);
    CodeEffect(s, i);
    CondOpen(s, s', t, f, o);
  }

  lemma EmittedFit(c: Ctx, s: Gen, i: Instr, t: seq<nat>, f: seq<nat>)
    requires GenOk(s) && ListsOk(s, t, f, c.o) && (i.Arith? || i.Not?) && Code(s, i).Ok? && s.freereg == c.lo &&
             s.nactvar <= c.lo
    ensures var s' := Code(s, i).value;
            Fit(c, s', Exp(KReloc(|s.code|), t, f)) && Frame(s.code, s'.code, Elems(t) + Elems(f) + c.o) &&
            Advances(c, s, s')
  {
    CodeOk(s, i, t, f, c.o);
    var s', n := Code(s, i).value, |s.code|;
    FrameLess(s.code, s'.code, Elems(t) + Elems(f) + c.o, c.o);
    hide ListsOk, Frame, Code;
    if n >= 1 {
      assert s'.code[n - 1] == s'.code[..n][n - 1] == PatchedInstr(s.code, s.jpc, n, NO_REG, n, n - 1);
    }
  }

  /** The value that the instruction will compute is `w`. */
  ghost predicate Computes(c: Ctx, s: Gen, t: seq<nat>, f: seq<nat>, i: Instr, w: Value)
    requires i.Arith? || i.Not?
  {
    var stop := Run(c.m, s.code, OpenOf(s, t, f, c.o), c.start, c.regs);
    if c.out.Gives? && Falls(s.code, s.jpc, stop)
    then Keeps(c.out.r0, stop.regs, c.lo, c.hole) && ResultOf(c.m, i, stop.regs) == w
    else Leaves(c, s.code, t, f, stop)
  }

  /** Like `Denotes`, with `w` for the value of the expression itself, while exits carry the value before. */
  ghost predicate Negates(c: Ctx, s: Gen, e: Exp, w: Value)
  {
    var code, stop := Body(s, e.kind), StopOf(c, s, e);
    if c.out.Gives? && Falls(code, s.jpc, stop) then
      Keeps(c.out.r0, stop.regs, c.lo, c.hole) && Holds(c.m, s, e.kind, stop.regs, w)
    else Leaves(c, code, e.t, e.f, stop)
  }

  lemma ComputesBound(c: Ctx, s: Gen, t: seq<nat>, f: seq<nat>, i: Instr, w: Value)
    requires ListsOk(s, t, f, c.o) && (i.Arith? || i.Not?) && Computes(c, s, t, f, i, w)
    ensures var stop := Run(c.m, s.code, OpenOf(s, t, f, c.o), c.start, c.regs);
            0 <= stop.pc <= |s.code| && (!Falls(s.code, s.jpc, stop) ==> stop.pc < |s.code|) &&
            (c.out.Left? ==> !Falls(s.code, s.jpc, stop))
  {
    OpenOfJumps(s, t, f, c.o);
    ElemsIn(s.jpc);
  }

  lemma EmittedStop(c: Ctx, s: Gen, i: Instr, t: seq<nat>, f: seq<nat>, w: Value)
    requires GenOk(s) && ListsOk(s, t, f, c.o) && (i.Arith? || i.Not?) && Code(s, i).Ok? && Computes(c, s, t, f, i, w)
    ensures var s', e', n := Code(s, i).value, Exp(KReloc(|s.code|), t, f), |s.code|;
            var stop := Run(c.m, s.code, OpenOf(s, t, f, c.o), c.start, c.regs);
            |s'.code| == n + 1 && s'.code[n] == i && s'.jpc == [] && s'.nactvar == s.nactvar &&
            Body(s', e'.kind) == s'.code[..n] &&
            StopOf(c, s', e') == (if Falls(s.code, s.jpc, stop) then Stop(n, stop.regs) else stop) &&
            (c.out.Left? ==> !Falls(s.code, s.jpc, stop)) &&
            (!Falls(s.code, s.jpc, stop) ==> Leaves(c, s'.code[..n], t, f, stop) && stop.pc < n)
  {
    var s', e', n := Code(s, i).value, Exp(KReloc(|s.code|), t, f), |s.code|;
    var stop := Run(c.m, s.code, OpenOf(s, t, f, c.o), c.start, c.regs);
    ComputesBound(c, s, t, f, i, w);
    CodeStop(c.m, s, i, t, f, c.o, c.start, c.regs);
    CodeEffect(s, i);
    assert Body(s', e'.kind) == s'.code[..n] && Open(s', e', c.o) == OpenOf(s', t, f, c.o);
    hide Code, Run, OpenOf, Open, Patched, GenOk, ListsOk, Frame;
    if !Falls(s.code, s.jpc, stop) {
      EmittedLeaves(c, s, s', t, f, stop);
    }
  }

  lemma EmittedRun(c: Ctx, s: Gen, i: Instr, t: seq<nat>, f: seq<nat>, w: Value)
    requires GenOk(s) && ListsOk(s, t, f, c.o) && (i.Arith? || i.Not?) && Code(s, i).Ok? && Computes(c, s, t, f, i, w)
    requires EntryOk(c, s.nactvar)
    ensures var s', e' := Code(s, i).value, Exp(KReloc(|s.code|), t, f);
            Negates(c, s', e', w) && NilsOk(c, s', e')
  {
    hide GenOk, ListsOk, StopOf, Code, ResultOf;
    EmittedStop(c, s, i, t, f, w);
  }

  lemma EmittedLeaves(c: Ctx, s: Gen, s': Gen, t: seq<nat>, f: seq<nat>, stop: Stop)
    requires ListsOk(s, t, f, c.o) && |s'.code| == |s.code| + 1 &&
             Patched(s.code, s'.code[..|s.code|], s.jpc, |s.code|, NO_REG, |s.code|)
    requires Leaves(c, s.code, t, f, stop)
    ensures Leaves(c, s'.code[..|s.code|], t, f, stop) && stop.pc < |s.code|
  {
    var n, body := |s.code|, s'.code[..|s.code|];
    forall j | j in Elems(t) + Elems(f) + c.o ensures SameJump(s.code, body, j) {
      assert j in t || j in f || j in c.o;
      PatchedFrame(s.code, body, s.jpc, n, NO_REG, n, j);
    }
    LeavesCarry(c, s.code, body, t, f, stop);
  }

  // ----- codenot -----

  function Opposite(out: Outcome): Value
  {
    if out.Gives? then Bool(!Truthy(out.v)) else Nil
  }

  /** The same run, where the value looked for is the negation. */
  function Negated(c: Ctx): Ctx
  {
    if c.out.Gives? then c.(out := Gives(c.out.r0, Opposite(c.out))) else c
  }

  ghost predicate NegationKind(k: Kind)
  {
    k.KTrue? || k.KFalse? || k.KJmp? || k.KReloc?
  }

  lemma NegateRegOk(c: Ctx, s: Gen, e: Exp)
    requires Fit(c, s, e) && (e.kind.KReloc? || e.kind.KNonReloc?) && NegateValue(s, e).Ok?
    ensures var s', e' := NegateValue(s, e).value.0, NegateValue(s, e).value.1;
            Fit(c, s', e') && Advances(c, s, s') && e' == e.(kind := e'.kind) && NegationKind(e'.kind)
  {
    hide Frame, Code, DischargeToAnyReg;
    AnyRegOk(c, s, e);
    var s1, e1 := DischargeToAnyReg(s, e).value.0, DischargeToAnyReg(s, e).value.1;
    var s2 := FreeExp(s1, e1);
    assert s2 == s1.(freereg := s2.freereg);
    RegsPlaced(c, s1, s2, e1);
    EmittedFit(c, s2, Not(0, e1.kind.reg), e.t, e.f);
    FrameLess(s.code, s1.code, Elems(e.t) + Elems(e.f) + c.o, c.o);
    AdvancesTransitive(c, s, s2, Code(s2, Not(0, e1.kind.reg)).value);
  }

  lemma NegateValueOk(c: Ctx, s: Gen, e: Exp)
    requires Fit(c, s, e) && !e.kind.KLocal? && NegateValue(s, e).Ok?
    ensures var s', e' := NegateValue(s, e).value.0, NegateValue(s, e).value.1;
            Fit(c, s', e') && Advances(c, s, s') && e' == e.(kind := e'.kind) && NegationKind(e'.kind)
  {
    if e.kind.KReloc? || e.kind.KNonReloc? {
      NegateRegOk(c, s, e);
    } else if e.kind.KJmp? {
      InvertOk(c, s, e);
      var s' := InvertJump(s, e.kind.pc);
      hide InvertJump;
      FrameLess(s.code, s'.code, Elems(e.t) + Elems(e.f) + c.o, c.o);
    } else {
      AdvancesSelf(c, s, e);
    }
  }

  lemma RegComputes(c: Ctx, s: Gen, s': Gen, e: Exp)
    requires e.kind.KNonReloc? && Denotes(c, s, e) && s'.code == s.code && s'.jpc == s.jpc
    ensures Computes(c, s', e.t, e.f, Not(0, e.kind.reg), Opposite(c.out))
  {
    assert Body(s, e.kind) == s.code;
    assert OpenOf(s', e.t, e.f, c.o) == Open(s, e, c.o);
  }

  lemma NegateRegRun(c: Ctx, s: Gen, e: Exp)
    requires Fit(c, s, e) && Means(c, s, e) && (e.kind.KReloc? || e.kind.KNonReloc?)
    requires NegateValue(s, e).Ok? && NegateValue(s, e).value.0.k <= c.m.k
    ensures var s', e' := NegateValue(s, e).value.0, NegateValue(s, e).value.1;
            Negates(c, s', e', Opposite(c.out)) && NilsOk(c, s', e')
  {
    hide Frame, DischargeToAnyReg, Denotes, NilsOk, Negates, Computes, EntryOk;
    MeansEntry(c, s, e);
    AnyRegOk(c, s, e);
    var s1, e1 := DischargeToAnyReg(s, e).value.0, DischargeToAnyReg(s, e).value.1;
    var s2 := FreeExp(s1, e1);
    assert s2 == s1.(freereg := s2.freereg);
    RegsPlaced(c, s1, s2, e1);
    assert Code(s2, Not(0, e1.kind.reg)).value.k == s2.k;
    hide Code;
    AnyRegRun(c, s, e);
    RegComputes(c, s1, s2, e1);
    EmittedRun(c, s2, Not(0, e1.kind.reg), e.t, e.f, Opposite(c.out));
  }

  lemma NegateConstRun(c: Ctx, s: Gen, e: Exp)
    requires Means(c, s, e) && NegateValue(s, e).Ok? && (e.kind.KK? || IsLiteral(e.kind))
    ensures var s', e' := NegateValue(s, e).value.0, NegateValue(s, e).value.1;
            Negates(c, s', e', Opposite(c.out)) && NilsOk(c, s', e')
  {
    var s', e' := NegateValue(s, e).value.0, NegateValue(s, e).value.1;
    assert Body(s, e.kind) == Body(s', e'.kind);
  }

  lemma NegateJmpRun(c: Ctx, s: Gen, e: Exp)
    requires Fit(c, s, e) && Means(c, s, e) && e.kind.KJmp?
    ensures var s' := InvertJump(s, e.kind.pc);
            Negates(c, s', e, Opposite(c.out)) && NilsOk(c, s', e)
  {
    var s', n := InvertJump(s, e.kind.pc), |s.code|;
    InvertOk(c, s, e);
    JmpFacts(c, s, e);
    hide Fit, Jumped, InvertJump, Run;
    assert Body(s', e.kind) == Body(s, e.kind) && Open(s', e, c.o) == Open(s, e, c.o);
    assert StopOf(c, s', e) == StopOf(c, s, e);
    assert s'.code[n - 1] == s.code[n - 1];
    hide StopOf, Open;
  }

  lemma NegateValueRun(c: Ctx, s: Gen, e: Exp)
    requires Fit(c, s, e) && Means(c, s, e) && !e.kind.KLocal? && NegateValue(s, e).Ok? &&
             NegateValue(s, e).value.0.k <= c.m.k
    ensures var s', e' := NegateValue(s, e).value.0, NegateValue(s, e).value.1;
            Negates(c, s', e', Opposite(c.out)) && NilsOk(c, s', e')
  {
    hide Means, Fit, Negates, NilsOk;
    if e.kind.KReloc? || e.kind.KNonReloc? {
      NegateRegRun(c, s, e);
    } else if e.kind.KJmp? {
      NegateJmpRun(c, s, e);
    } else {
      NegateConstRun(c, s, e);
    }
  }

  // ----- removevalues -----

  function Cleared(s: Gen, e: Exp): Gen
  {
    s.(code := RemoveValues(RemoveValues(s.code, e.t), e.f))
  }

  lemma ClearedCode(m: Machine, s: Gen, e: Exp, o: set<nat>)
    requires Placed(m, s, e, o)
    ensures ValuesRemoved(s.code, Cleared(s, e).code, e.t + e.f)
  {
    var code1 := RemoveValues(s.code, e.t);
    RemoveValuesEffect(s.code, e.t);
    assert AreJumps(code1, e.f);
    RemoveValuesEffect(code1, e.f);
    var code' := Cleared(s, e).code;
    hide RemoveValues;
    forall i | 0 <= i < |s.code|
      ensures code'[i] ==
              if s.code[i].TestSet? && i + 1 in e.t + e.f then Test(s.code[i].b, s.code[i].when) else s.code[i]
    {
      assert i + 1 in e.t + e.f <==> i + 1 in e.t || i + 1 in e.f;
    }
  }

  lemma RemovedSame(code: seq<Instr>, code': seq<Instr>, l: seq<nat>, j: nat)
    requires ValuesRemoved(code, code', l) && j < |code| && code[j].Jmp? && j !in l
    ensures SameJump(code, code', j)
  {
    assert code'[j] == code[j];
    if j >= 1 {
      var p := j - 1;
      assert p + 1 !in l && code'[p] == code[p];
    }
  }

  lemma RemovedThreaded(code: seq<Instr>, code': seq<Instr>, l: seq<nat>, x: seq<nat>)
    requires ValuesRemoved(code, code', l) && Threaded(code, x)
    ensures Threaded(code', x)
  {
  }

  lemma ClearedOk(c: Ctx, s: Gen, e: Exp)
    requires Fit(c, s, e) && NegationKind(e.kind)
    ensures Fit(c, Cleared(s, e), Exp(e.kind, e.f, e.t)) && Advances(c, s, Cleared(s, e))
  {
    hide Cleared, Threaded;
    var s', l := Cleared(s, e), e.t + e.f;
    ClearedCode(c.m, s, e, c.o);
    ClearedFields(s, e);
    RemovedThreaded(s.code, s'.code, l, s.jpc);
    RemovedThreaded(s.code, s'.code, l, e.t);
    RemovedThreaded(s.code, s'.code, l, e.f);
    forall j | j in c.o ensures SameJump(s.code, s'.code, j) && s'.code[j].Jmp? {
      RemovedSame(s.code, s'.code, l, j);
    }
  }

  lemma ClearedFields(s: Gen, e: Exp)
    ensures Cleared(s, e) == s.(code := Cleared(s, e).code)
  {
  }

  /** Once its value is dropped, an exit is reached at its jump instead of its test. */
  lemma RemovedRun(m: Machine, code: seq<Instr>, code': seq<Instr>, open: set<nat>, l: seq<nat>, start: nat,
                   regs: seq<Value>)
    requires ValuesRemoved(code, code', l) && OpenOk(code, open) && Elems(l) <= open &&
             Run(m, code, open, start, regs).pc <= |code|
    ensures var stop := Run(m, code, open, start, regs);
            Run(m, code', open, start, regs) ==
              if 0 <= stop.pc < |code| && code[stop.pc].TestSet? && stop.pc + 1 in l then Stop(stop.pc + 1, stop.regs)
              else stop
  {
    var stop := Run(m, code, open, start, regs);
    ElemsIn(l);
    RemovedContinues(code, code', open, l, start);
    Continue(m, code, open, code', open, start, start, regs);
    RunStops(m, code, open, start, regs);
    hide Continues;
    var p := stop.pc;
    if 0 <= p < |code| {
      assert code'[p] == if code[p].TestSet? && p + 1 in l then Test(code[p].b, code[p].when) else code[p];
    }
  }

  lemma RemovedContinues(code: seq<Instr>, code': seq<Instr>, open: set<nat>, l: seq<nat>, start: nat)
    requires ValuesRemoved(code, code', l) && OpenOk(code, open) && Elems(l) <= open
    ensures Continues(code, open, code', open, start)
  {
    ElemsIn(l);
    forall i | start <= i < |code| && i !in open ensures SameStep(code[i], code'[i], i + 1 in open) {
      if i + 1 in l { assert i + 1 in Elems(l); }
    }
  }

  lemma RemovedPrefix(code: seq<Instr>, code': seq<Instr>, l: seq<nat>, n: nat)
    requires ValuesRemoved(code, code', l) && n <= |code|
    ensures ValuesRemoved(code[..n], code'[..n], l)
  {
  }

  lemma ClearedBody(c: Ctx, s: Gen, e: Exp)
    requires Placed(c.m, s, e, c.o)
    ensures var s', e', open := Cleared(s, e), Exp(e.kind, e.f, e.t), Open(s, e, c.o);
            ValuesRemoved(Body(s, e.kind), Body(s', e.kind), e.t + e.f) && Open(s', e', c.o) == open &&
            OpenOk(Body(s, e.kind), open) && Elems(e.t + e.f) <= open
  {
    var s', l := Cleared(s, e), e.t + e.f;
    hide Cleared;
    ClearedCode(c.m, s, e, c.o);
    ClearedFields(s, e);
    RemovedPrefix(s.code, s'.code, l, |Body(s, e.kind)|);
    OpenJumps(c.m, s, e, c.o);
    ElemsIn(l);
  }

  lemma ClearedStop(c: Ctx, s: Gen, e: Exp)
    requires Fit(c, s, e) && 0 <= StopOf(c, s, e).pc <= |Body(s, e.kind)|
    ensures var s', e', stop, body := Cleared(s, e), Exp(e.kind, e.f, e.t), StopOf(c, s, e), Body(s, e.kind);
            ValuesRemoved(body, Body(s', e.kind), e.t + e.f) && Open(s', e', c.o) == Open(s, e, c.o) &&
            StopOf(Negated(c), s', e') ==
              if stop.pc < |body| && body[stop.pc].TestSet? && stop.pc + 1 in e.t + e.f
                then Stop(stop.pc + 1, stop.regs) else stop
  {
    hide Cleared, ValuesRemoved, Body, Open, OpenOk, Elems, Run, Placed;
    ClearedBody(c, s, e);
    RemovedRun(c.m, Body(s, e.kind), Body(Cleared(s, e), e.kind), Open(s, e, c.o), e.t + e.f, c.start, c.regs);
  }

  lemma NegatesBound(c: Ctx, s: Gen, e: Exp, w: Value)
    requires Placed(c.m, s, e, c.o) && Negates(c, s, e, w)
    ensures 0 <= StopOf(c, s, e).pc <= |Body(s, e.kind)|
    ensures !Falls(Body(s, e.kind), s.jpc, StopOf(c, s, e)) ==> StopOf(c, s, e).pc < |Body(s, e.kind)|
  {
    OpenJumps(c.m, s, e, c.o);
    ElemsIn(s.jpc);
  }

  /** Exits of the expression become exits of its negation, on the other list and without a value. */
  lemma ClearedLeaves(c: Ctx, code: seq<Instr>, code': seq<Instr>, t: seq<nat>, f: seq<nat>, stop: Stop)
    requires ValuesRemoved(code, code', t + f) && Leaves(c, code, t, f, stop)
    requires AreJumps(code, t) && AreJumps(code, f) &&
             (forall j :: j in c.o ==> j < |code| && code[j].Jmp? && j !in t + f)
    ensures var now := if stop.pc < |code| && code[stop.pc].TestSet? &&
            stop.pc + 1 in t + f then Stop(stop.pc + 1, stop.regs) else stop;
            Leaves(Negated(c), code', f, t, now) && JumpOf(code', now.pc) == JumpOf(code, stop.pc)
  {
    var p := stop.pc;
    var now := if code[p].TestSet? && p + 1 in t + f then Stop(p + 1, stop.regs) else stop;
    var j := JumpOf(code, p);
    assert code'[p] == if code[p].TestSet? && p + 1 in t + f then Test(code[p].b, code[p].when) else code[p];
    if c.out.Gives? {
      assert j in t + f;
      assert code'[j] == code[j];
      if j >= 1 {
        var q := j - 1;
        assert code'[q] == if code[q].TestSet? && q + 1 in t + f then Test(code[q].b, code[q].when) else code[q];
      }
      assert !CarriesValue(code', j) && now.pc == j;
      if Exits(code, t, true, stop, c.out.v) {
        assert Exits(code', t, false, now, Opposite(c.out));
      } else {
        assert Exits(code', f, true, now, Opposite(c.out));
      }
    }
  }

  lemma ClearedParts(c: Ctx, s: Gen, e: Exp)
    requires Fit(c, s, e)
    ensures Placed(c.m, s, e, c.o) && Cleared(s, e) == s.(code := Cleared(s, e).code)
    ensures ValuesRemoved(s.code, Cleared(s, e).code, e.t + e.f)
  {
    hide Cleared, ValuesRemoved;
    ClearedFields(s, e);
    ClearedCode(c.m, s, e, c.o);
  }

  lemma ClearedRun(c: Ctx, s: Gen, e: Exp)
    requires Fit(c, s, e) && NegationKind(e.kind) && Negates(c, s, e, Opposite(c.out))
    ensures Denotes(Negated(c), Cleared(s, e), Exp(e.kind, e.f, e.t))
  {
    hide Cleared, StopOf, ValuesRemoved, Fit, Open, Run, Placed, Holds, Exits, Leaves;
    var s', stop, body := Cleared(s, e), StopOf(c, s, e), Body(s, e.kind);
    ClearedParts(c, s, e);
    NegatesBound(c, s, e, Opposite(c.out));
    ClearedStop(c, s, e);
    if c.out.Gives? && Falls(body, s.jpc, stop) {
      ClearedFalls(c, s, s', e, stop);
    } else {
      ClearedOut(c, s, e, Body(s', e.kind), stop);
    }
  }

  lemma ClearedOut(c: Ctx, s: Gen, e: Exp, body': seq<Instr>, stop: Stop)
    requires Placed(c.m, s, e, c.o) && Leaves(c, Body(s, e.kind), e.t, e.f, stop) &&
             ValuesRemoved(Body(s, e.kind), body', e.t + e.f)
    ensures var body := Body(s, e.kind);
            var now := if stop.pc < |body| && body[stop.pc].TestSet? && stop.pc + 1 in e.t + e.f
              then Stop(stop.pc + 1, stop.regs) else stop;
            Leaves(Negated(c), body', e.f, e.t, now) && !Falls(body', s.jpc, now)
  {
    var body := Body(s, e.kind);
    OpenJumps(c.m, s, e, c.o);
    assert AreJumps(body, e.t) && AreJumps(body, e.f) by {
      forall j | j in e.t || j in e.f ensures j < |body| && body[j].Jmp? { assert j in Open(s, e, c.o); }
    }
    assert forall j :: j in c.o ==> j < |body| && body[j].Jmp? && j !in e.t + e.f by {
      forall j | j in c.o ensures j < |body| && body[j].Jmp? && j !in e.t + e.f { assert j in Open(s, e, c.o); }
    }
    ClearedLeaves(c, body, body', e.t, e.f, stop);
    assert JumpOf(body, stop.pc) !in s.jpc;
  }

  lemma ClearedFalls(c: Ctx, s: Gen, s': Gen, e: Exp, stop: Stop)
    requires Fit(c, s, e) && NegationKind(e.kind) && c.out.Gives? && Falls(Body(s, e.kind), s.jpc, stop) &&
             0 <= stop.pc <= |Body(s, e.kind)|
    requires Holds(c.m, s, e.kind, stop.regs, Opposite(c.out)) && s' == s.(code := s'.code) &&
             ValuesRemoved(s.code, s'.code, e.t + e.f)
    ensures Falls(Body(s', e.kind), s'.jpc, stop) && Holds(c.m, s', e.kind, stop.regs, Opposite(c.out))
    ensures stop.pc < |Body(s, e.kind)| && Body(s, e.kind)[stop.pc].TestSet? ==> stop.pc + 1 !in e.t + e.f
  {
    var p, n := stop.pc, |s.code|;
    if p < |Body(s, e.kind)| {
      assert s.code[p].TestSet? ==> p + 1 !in e.t + e.f;
      assert s'.code[p] == s.code[p];
    }
  }

  lemma ClearedLast(c: Ctx, s: Gen, e: Exp)
    requires Fit(c, s, e) && s.code != [] && s.code[|s.code| - 1].LoadNil?
    ensures var s', n, open := Cleared(s, e), |s.code|, Open(s, e, c.o);
            |s'.code| == n &&
            (Run(c.m, s.code[..n - 1], open, c.start, c.regs).pc < n ==>
              Run(c.m, s'.code[..n - 1], open, c.start, c.regs).pc < n)
  {
    var s', n, l, open := Cleared(s, e), |s.code|, e.t + e.f, Open(s, e, c.o);
    ClearedCode(c.m, s, e, c.o);
    hide Cleared;
    OpenJumps(c.m, s, e, c.o);
    assert Elems(l) <= open by { ElemsIn(l); }
    RemovedPrefix(s.code, s'.code, l, n - 1);
    assert OpenOk(s.code[..n - 1], open);
    hide ValuesRemoved, Fit, Open;
    if Run(c.m, s.code[..n - 1], open, c.start, c.regs).pc < n {
      RemovedRun(c.m, s.code[..n - 1], s'.code[..n - 1], open, l, c.start, c.regs);
    }
  }

  lemma ClearedNils(c: Ctx, s: Gen, e: Exp)
    requires Fit(c, s, e) && NilsOk(c, s, e)
    ensures NilsOk(Negated(c), Cleared(s, e), Exp(e.kind, e.f, e.t))
  {
    var s', e', n := Cleared(s, e), Exp(e.kind, e.f, e.t), |s.code|;
    ClearedCode(c.m, s, e, c.o);
    ClearedFields(s, e);
    assert Open(s', e', c.o) == Open(s, e, c.o);
    hide Cleared, Placed, RegsOk, Open;
    if n > 0 {
      assert s'.code[n - 1].LoadNil? ==> s.code[n - 1].LoadNil?;
      if s.code[n - 1].LoadNil? { ClearedLast(c, s, e); }
    }
  }

  lemma CodeNotOk(c: Ctx, s: Gen, e: Exp)
    requires Fit(c, s, e) && CodeNot(s, e).Ok?
    ensures var s', e' := CodeNot(s, e).value.0, CodeNot(s, e).value.1;
            Fit(c, s', e') && Advances(c, s, s')
  {
    var e1 := DischargeVars(e);
    assert !e1.kind.KLocal?;
    VarsOk(c, s, e);
    hide Fit, DischargeVars, NegateValue, Advances, RemoveValues;
    NegateValueOk(c, s, e1);
    var s1, e2 := NegateValue(s, e1).value.0, NegateValue(s, e1).value.1;
    ClearedOk(c, s1, e2);
    AdvancesTransitive(c, s, s1, Cleared(s1, e2));
  }

  /** `codenot`: the code now stands for the negation, with its exits exchanged. */
  lemma CodeNotRun(c: Ctx, s: Gen, e: Exp)
    requires Fit(c, s, e) && Means(c, s, e) && CodeNot(s, e).Ok? && CodeNot(s, e).value.0.k <= c.m.k
    ensures var s', e' := CodeNot(s, e).value.0, CodeNot(s, e).value.1;
            Means(Negated(c), s', e')
  {
    var e1 := DischargeVars(e);
    assert !e1.kind.KLocal?;
    VarsOk(c, s, e);
    VarsRun(c, s, e);
    var s1, e2 := NegateValue(s, e1).value.0, NegateValue(s, e1).value.1;
    ClearedFields(s1, e2);
    hide Fit, DischargeVars, NegateValue, Advances, RemoveValues, Denotes, NilsOk, Negates;
    NegateValueOk(c, s, e1);
    NegateValueRun(c, s, e1);
    ClearedRun(c, s1, e2);
    ClearedNils(c, s1, e2);
  }

  // ----- codearith and codecomp -----

  /** Both operands can be read, and have these values. */
  ghost predicate Both(c: Ctx, s: Gen, x1: nat, v1: Value, x2: nat, v2: Value)
  {
    var stop := Run(c.m, s.code, OpenOf(s, [], [], c.o), c.start, c.regs);
    if c.out.Gives? then
      Falls(s.code, s.jpc, stop) && Keeps(c.out.r0, stop.regs, c.lo, c.hole) &&
      RK(c.m, stop.regs, x1) == v1 && RK(c.m, stop.regs, x2) == v2
    else Leaves(c, s.code, [], [], stop)
  }

  lemma BothBound(c: Ctx, s: Gen, x1: nat, v1: Value, x2: nat, v2: Value)
    requires ListsOk(s, [], [], c.o) && Both(c, s, x1, v1, x2, v2)
    ensures var stop := Run(c.m, s.code, OpenOf(s, [], [], c.o), c.start, c.regs);
            0 <= stop.pc <= |s.code| && (c.out.Left? ==> !Falls(s.code, s.jpc, stop))
  {
    OpenOfJumps(s, [], [], c.o);
    ElemsIn(s.jpc);
  }

  lemma ArithMeans(c: Ctx, s: Gen, op: ArithOp, x1: nat, v1: Value, x2: nat, v2: Value)
    requires GenOk(s) && ListsOk(s, [], [], c.o) && Both(c, s, x1, v1, x2, v2) && Code(s, Arith(op, 0, x1, x2)).Ok?
    requires (c.out.Gives? ==> c.out.v == Operate(c.m, op, v1, v2)) && (IsUnary(op) ==> x1 < BITRK) &&
             EntryOk(c, s.nactvar)
    ensures var s', e' := Code(s, Arith(op, 0, x1, x2)).value, Exp(KReloc(|s.code|), [], []);
            Means(c, s', e')
  {
    var i := Arith(op, 0, x1, x2);
    var w := if c.out.Gives? then c.out.v else Nil;
    BothBound(c, s, x1, v1, x2, v2);
    assert Computes(c, s, [], [], i, w);
    hide Both, Computes, Code;
    EmittedRun(c, s, i, [], [], w);
  }

  lemma CompareFit(c: Ctx, s: Gen, i: Instr)
    requires GenOk(s) && ListsOk(s, [], [], c.o) && i.Compare? && CondJump(s, i).Ok? && s.freereg == c.lo &&
             s.nactvar <= c.lo
    ensures var s', l := CondJump(s, i).value.0, CondJump(s, i).value.1;
            l == [|s.code| + 1] && Fit(c, s', Exp(KJmp(l[0]), [], [])) && Advances(c, s, s')
  {
    CondJumpOk(s, i, [], [], c.o);
    var s' := CondJump(s, i).value.0;
    FrameLess(s.code, s'.code, Elems([]) + Elems([]) + c.o, c.o);
  }

  lemma CompareMeans(c: Ctx, s: Gen, i: Instr, x1: nat, v1: Value, x2: nat, v2: Value)
    requires GenOk(s) && ListsOk(s, [], [], c.o) && Both(c, s, x1, v1, x2, v2) && i.Compare? && CondJump(s, i).Ok? &&
             EntryOk(c, s.nactvar)
    requires (i.b == x1 && i.c == x2) || (i.b == x2 && i.c == x1)
    requires c.out.Gives? ==>
               c.out.v == Bool((if i.b == x1 && i.c == x2 then c.m.compare(i.cmp, v1, v2)
                                else c.m.compare(i.cmp, v2, v1)) == i.cond)
    ensures var s', l := CondJump(s, i).value.0, CondJump(s, i).value.1;
            l == [|s.code| + 1] && Means(c, s', Exp(KJmp(l[0]), [], []))
  {
    hide CondJump, Code, Run, Open, OpenOf, GenOk, ListsOk, Frame;
    var s', n := CondJump(s, i).value.0, |s.code|;
    var stop := Run(c.m, s.code, OpenOf(s, [], [], c.o), c.start, c.regs);
    BothBound(c, s, x1, v1, x2, v2);
    CondJumpOk(s, i, [], [], c.o);
    CompareParts(s, i, c.o);
    CodeStop(c.m, s, i, [], [], c.o, c.start, c.regs);
    if c.out.Left? {
      CompareLeaves(c, s, s', stop);
    }
  }

  /** What of the code comes before the comparison, and what is open there. */
  lemma CompareParts(s: Gen, i: Instr, o: set<nat>)
    requires GenOk(s) && ListsOk(s, [], [], o) && i.Compare? && CondJump(s, i).Ok?
    ensures var s', e' := CondJump(s, i).value.0, Exp(KJmp(|s.code| + 1), [], []);
            Code(s, i).Ok? && |s.code| < |Code(s, i).value.code| <= |s'.code| && var s1 := Code(s, i).value;
            Body(s', e'.kind) == s'.code[..|s.code|] == s1.code[..|s.code|] && Open(s', e', o) == OpenOf(s1, [], [], o)
  {
    CondJumpOk(s, i, [], [], o);
  }

  lemma CompareLeaves(c: Ctx, s: Gen, s': Gen, stop: Stop)
    requires ListsOk(s, [], [], c.o) && |s'.code| == |s.code| + 2 &&
             Patched(s.code, s'.code[..|s.code|], s.jpc, |s.code|, NO_REG, |s.code|)
    requires Leaves(c, s.code, [], [], stop)
    ensures Leaves(c, s'.code[..|s.code|], [], [], stop) && stop.pc < |s.code|
  {
    var s1 := s'.(code := s'.code[..|s.code| + 1]);
    assert s1.code[..|s.code|] == s'.code[..|s.code|];
    EmittedLeaves(c, s, s1, [], [], stop);
  }
}
