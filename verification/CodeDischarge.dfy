/** Putting the value of an expression into a register. */
module CodeDischarge {
  import opened Seqs
  import opened LuaCode
  import opened CodeLists
  import opened CodeGen
  import opened CodeShape
  import opened CodeRuns
  import opened CodeMeaning

  lemma ElemsIn(l: seq<nat>)
    ensures forall j :: j in Elems(l) <==> j in l
  {
  }

  lemma OpenJumps(m: Machine, s: Gen, e: Exp, o: set<nat>)
    requires Placed(m, s, e, o)
    ensures OpenOk(s.code, Open(s, e, o)) && OpenOk(Body(s, e.kind), Open(s, e, o)) && Elems(s.jpc) <= Open(s, e, o)
  {
    forall j | j in Open(s, e, o) ensures j < |s.code| && s.code[j].Jmp? && j < |Body(s, e.kind)| {
      assert j in s.jpc || j in e.t || j in e.f || j in o;
    }
  }

  lemma StopBound(c: Ctx, s: Gen, e: Exp)
    requires Placed(c.m, s, e, c.o) && Denotes(c, s, e)
    ensures 0 <= StopOf(c, s, e).pc <= |Body(s, e.kind)| && c.start <= |Body(s, e.kind)|
    ensures !Falls(Body(s, e.kind), s.jpc, StopOf(c, s, e)) ==> StopOf(c, s, e).pc < |Body(s, e.kind)|
  {
    OpenJumps(c.m, s, e, c.o);
    ElemsIn(s.jpc);
  }

  /** An instruction added to the code of an expression. */
  lemma EmitRun(c: Ctx, s: Gen, e: Exp, i: Instr)
    requires Placed(c.m, s, e, c.o) && Tail(e.kind) == 0 && Denotes(c, s, e) && Code(s, i).Ok?
    ensures var s', n, stop := Code(s, i).value, |s.code|, StopOf(c, s, e);
            Open(s', e, c.o) == Open(s, e, c.o) - Elems(s.jpc) && |s'.code| == n + 1 && s'.code[n] == i &&
            s'.jpc == [] && n !in Open(s', e, c.o) &&
            Run(c.m, s'.code[..n], Open(s', e, c.o), c.start, c.regs) ==
              (if Falls(s.code, s.jpc, stop) then Stop(n, stop.regs) else stop) &&
            Run(c.m, s'.code, Open(s', e, c.o), c.start, c.regs) ==
              (if Falls(s.code, s.jpc, stop) then Run(c.m, s'.code, Open(s', e, c.o), n, stop.regs) else stop) &&
            (!Falls(s.code, s.jpc, stop) ==> Leaves(c, s'.code, e.t, e.f, stop) && stop.pc < n)
  {
    var s', n, stop := Code(s, i).value, |s.code|, StopOf(c, s, e);
    assert Body(s, e.kind) == s.code;
    OpenJumps(c.m, s, e, c.o);
    StopBound(c, s, e);
    CodeOk(s, i, e.t, e.f, c.o);
    CodeRun(c.m, s, i, Open(s, e, c.o), c.start, c.regs);
    assert Open(s', e, c.o) == Open(s, e, c.o) - Elems(s.jpc) by {
      ElemsIn(s.jpc); ElemsIn(e.t); ElemsIn(e.f);
    }
    if !Falls(s.code, s.jpc, stop) {
      LeavesCarry(c, s.code, s'.code, e.t, e.f, stop);
    }
  }

  /** A plain instruction added to the code of an expression. */
  lemma EmitPlain(c: Ctx, s: Gen, e: Exp, i: Instr)
    requires Placed(c.m, s, e, c.o) && Tail(e.kind) == 0 && Denotes(c, s, e) && Code(s, i).Ok? && IsPlain(i) &&
             EntryOk(c, s.nactvar)
    ensures var s', n, stop := Code(s, i).value, |s.code|, StopOf(c, s, e);
            (if Falls(s.code, s.jpc, stop) then
               Run(c.m, s'.code, Open(s', e, c.o), c.start, c.regs) == Stop(n + 1, Effect(c.m, i, stop.regs))
             else
               Run(c.m, s'.code, Open(s', e, c.o), c.start, c.regs) == stop && Leaves(c, s'.code, e.t, e.f, stop) &&
               stop.pc < n) &&
            |s'.code| == n + 1 && s'.jpc == [] && NilsOk(c, s', e)
  {
    StopBound(c, s, e);
    hide Denotes, Placed, Leaves, Open;
    EmitRun(c, s, e, i);
  }

  /** Registers are the same, and constants are only added. */
  ghost predicate Extends(s: Gen, s': Gen)
  {
    s'.freereg == s.freereg && s'.nactvar == s.nactvar && s'.maxstack == s.maxstack && s.k <= s'.k
  }

  lemma AddKOk(s: Gen, v: Value)
    requires GenOk(s) && AddK(s, v).Ok?
    ensures var s', idx := AddK(s, v).value.0, AddK(s, v).value.1;
            GenOk(s') && s' == s.(k := s'.k, h := s'.h) && s.k <= s'.k && idx < |s'.k| && s'.k[idx] == v
  {
  }

  /** The instruction that loads a value of this kind, if that takes one. */
  function Loader(k: Kind, reg: nat, idx: nat): Instr
  {
    match k
    case KFalse => LoadBool(reg, false, false)
    case KTrue => LoadBool(reg, true, false)
    case KK(i) => LoadK(reg, i)
    case KNum(_) => LoadK(reg, idx)
    case KLocal(r) => Move(reg, r)
    case KNonReloc(r) => Move(reg, r)
    case _ => LoadNil(reg, reg)
  }

  predicate Loads(k: Kind)
  {
    k.KNil? || k.KFalse? || k.KTrue? || k.KK? || k.KNum? || k.KLocal? || k.KNonReloc?
  }

  lemma LoaderWorks(c: Ctx, s: Gen, k: Kind, reg: nat, idx: nat, regs: seq<Value>)
    requires Loads(k) && c.out.Gives? && Keeps(c.out.r0, regs, c.lo, c.hole) && Holds(c.m, s, k, regs, c.out.v)
    requires reg < MAXSTACK && (reg >= c.lo || reg == c.hole) && (k.KNum? ==> idx < |c.m.k| && c.m.k[idx] == Num(k.n))
    ensures var regs' := Effect(c.m, Loader(k, reg, idx), regs);
            Keeps(c.out.r0, regs', c.lo, c.hole) && Get(regs', reg) == c.out.v
  {
  }

  lemma LoadOk(c: Ctx, s: Gen, e: Exp, reg: nat, idx: nat)
    requires Placed(c.m, s, e, c.o) && Loads(e.kind) && reg < MAXSTACK
    requires Code(s, Loader(e.kind, reg, idx)).Ok?
    ensures var s' := Code(s, Loader(e.kind, reg, idx)).value;
            Extends(s, s') && Placed(c.m, s', e.(kind := KNonReloc(reg)), c.o) &&
            Frame(s.code, s'.code, Elems(e.t) + Elems(e.f) + c.o)
  {
    CodeOk(s, Loader(e.kind, reg, idx), e.t, e.f, c.o);
  }

  lemma LoadRun(c: Ctx, s: Gen, e: Exp, reg: nat, idx: nat)
    requires Placed(c.m, s, e, c.o) && Loads(e.kind) && Denotes(c, s, e) && (reg >= c.lo || reg == c.hole) &&
             reg < MAXSTACK
    requires EntryOk(c, s.nactvar)
    requires e.kind.KNum? ==> idx < |c.m.k| && c.m.k[idx] == Num(e.kind.n)
    requires Code(s, Loader(e.kind, reg, idx)).Ok?
    ensures var s', e' := Code(s, Loader(e.kind, reg, idx)).value, e.(kind := KNonReloc(reg));
            Denotes(c, s', e') && NilsOk(c, s', e')
  {
    var i := Loader(e.kind, reg, idx);
    var s', e', stop := Code(s, i).value, e.(kind := KNonReloc(reg)), StopOf(c, s, e);
    assert Body(s, e.kind) == s.code && Body(s', e'.kind) == s'.code;
    EmitPlain(c, s, e, i);
    assert Open(s', e', c.o) == Open(s', e, c.o);
    if c.out.Gives? && Falls(s.code, s.jpc, stop) {
      LoaderWorks(c, s, e.kind, reg, idx, stop.regs);
    }
  }

  // ----- luaK_nil -----

  /** Running code is running all but its last instruction first. */
  lemma LastRun(m: Machine, code: seq<Instr>, i: Instr, open: set<nat>, start: nat, regs: seq<Value>)
    requires OpenOk(code, open) && IsPlain(i) && Run(m, code, open, start, regs).pc <= |code|
    ensures var before := Run(m, code, open, start, regs);
            Run(m, code + [i], open, start, regs) ==
              if before.pc == |code| then Stop(|code| + 1, Effect(m, i, before.regs)) else before
  {
    var before := Run(m, code, open, start, regs);
    AppendContinues(code, [i], open, open, start);
    Continue(m, code, open, code + [i], open, start, start, regs);
    hide Continues;
    if 0 <= before.pc < |code| {
      RunStops(m, code, open, start, regs);
      StoppedStays(m, code, [i], open, before);
    }
  }

  lemma NilsWiden(c: Ctx, regs: seq<Value>, a: nat, b: nat, from: nat)
    requires c.out.Gives? && Keeps(c.out.r0, SetNils(regs, a, b), c.lo, c.hole)
    requires a <= from <= b + 1 && from < MAXSTACK && (from >= c.lo || from == c.hole)
    ensures var to := if from > b then from else b;
            Keeps(c.out.r0, SetNils(regs, a, to), c.lo, c.hole) && SetNils(regs, a, to)[from] == Nil
  {
    var to := if from > b then from else b;
    forall i | 0 <= i < c.lo && i < MAXSTACK && i != c.hole ensures SetNils(regs, a, to)[i] == c.out.r0[i] {
      assert SetNils(regs, a, b)[i] == c.out.r0[i];
    }
  }

  /** The code after `luaK_nil` has extended the `LOADNIL` at its end. */
  function Widened(code: seq<Instr>, from: nat): seq<Instr>
    requires code != [] && code[|code| - 1].LoadNil?
  {
    var last := code[|code| - 1];
    code[..|code| - 1] + [LoadNil(last.a, if from > last.b then from else last.b)]
  }

  lemma MergeCode(s: Gen, from: nat)
    requires MergesNil(s, from) && !(|s.code| > s.lasttarget && |s.code| == 0 && from >= s.nactvar)
    ensures CodeNil(s, from) == Ok(s.(code := Widened(s.code, from)))
  {
    var n, last := |s.code|, s.code[|s.code| - 1];
    assert s.code[n - 1 := LoadNil(last.a, from)] == s.code[..n - 1] + [LoadNil(last.a, from)];
    assert s.code == s.code[..n - 1] + [last];
  }

  lemma MergeOk(c: Ctx, s: Gen, e: Exp, from: nat)
    requires Placed(c.m, s, e, c.o) && e.kind.KNil? && MergesNil(s, from) && from < MAXSTACK
    ensures var s' := s.(code := Widened(s.code, from));
            Placed(c.m, s', e.(kind := KNonReloc(from)), c.o) && Frame(s.code, s'.code, Elems(e.t) + Elems(e.f) + c.o)
  {
    var s', n := s.(code := Widened(s.code, from)), |s.code|;
    forall j | j in Elems(s.jpc) + Elems(e.t) + Elems(e.f) + c.o ensures SameJump(s.code, s'.code, j) {
      assert j in s.jpc || j in e.t || j in e.f || j in c.o;
      assert j != n - 1;
    }
    forall j | j in s.jpc || j in e.t || j in e.f || j in c.o ensures SameJump(s.code, s'.code, j) {
      assert j in Elems(s.jpc) + Elems(e.t) + Elems(e.f) + c.o;
    }
    ThreadedFrame(s.code, s'.code, s.jpc);
    ThreadedFrame(s.code, s'.code, e.t);
    ThreadedFrame(s.code, s'.code, e.f);
    forall j | j in c.o ensures j < |s'.code| && s'.code[j].Jmp? {
      assert SameJump(s.code, s'.code, j);
    }
  }

  lemma MergeShape(c: Ctx, s: Gen, e: Exp, from: nat)
    requires Placed(c.m, s, e, c.o) && e.kind.KNil? && MergesNil(s, from)
    ensures var s', e', n := s.(code := Widened(s.code, from)), e.(kind := KNonReloc(from)), |s.code|;
            var pre := s.code[..n - 1];
            s.code == pre + [s.code[n - 1]] && s'.code == pre + [s'.code[n - 1]] && s'.code[..n - 1] == pre &&
            OpenOk(pre, Open(s, e, c.o)) && Body(s, e.kind) == s.code && Body(s', e'.kind) == s'.code &&
            Open(s', e', c.o) == Open(s, e, c.o) && IsPlain(s.code[n - 1]) && IsPlain(s'.code[n - 1])
  {
    OpenJumps(c.m, s, e, c.o);
  }

  lemma MergeStop(c: Ctx, s: Gen, e: Exp, from: nat)
    requires Placed(c.m, s, e, c.o) && e.kind.KNil? && MergesNil(s, from) && Denotes(c, s, e) && NilsOk(c, s, e)
    ensures var s', e', n := s.(code := Widened(s.code, from)), e.(kind := KNonReloc(from)), |s.code|;
            var pre, open := s.code[..n - 1], Open(s, e, c.o);
            var before := Run(c.m, pre, open, c.start, c.regs);
            StopOf(c, s, e) == (if before.pc == n - 1 then Stop(n, Effect(c.m, s.code[n - 1], before.regs))
                                else before) &&
            StopOf(c, s', e') == (if before.pc == n - 1 then Stop(n, Effect(c.m, s'.code[n - 1], before.regs))
                                  else before) &&
            NilsOk(c, s', e') && (before.pc != n - 1 ==> StopOf(c, s, e).pc < n) && s.jpc == []
  {
    hide Denotes, OpenOk, Placed, Run, Open, Body;
    var s', n := s.(code := Widened(s.code, from)), |s.code|;
    var pre, open := s.code[..n - 1], Open(s, e, c.o);
    StopBound(c, s, e);
    MergeShape(c, s, e, from);
    LastRun(c.m, pre, s.code[n - 1], open, c.start, c.regs);
    LastRun(c.m, pre, s'.code[n - 1], open, c.start, c.regs);
  }

  lemma MergeRun(c: Ctx, s: Gen, e: Exp, from: nat)
    requires Placed(c.m, s, e, c.o) && e.kind.KNil? && MergesNil(s, from) && from < MAXSTACK &&
             (from >= c.lo || from == c.hole)
    requires Denotes(c, s, e) && NilsOk(c, s, e)
    ensures var s', e' := s.(code := Widened(s.code, from)), e.(kind := KNonReloc(from));
            Denotes(c, s', e') && NilsOk(c, s', e')
  {
    var s', e', n := s.(code := Widened(s.code, from)), e.(kind := KNonReloc(from)), |s.code|;
    var stop, before := StopOf(c, s, e), Run(c.m, s.code[..n - 1], Open(s, e, c.o), c.start, c.regs);
    MergeStop(c, s, e, from);
    assert Body(s, e.kind) == s.code && Body(s', e'.kind) == s'.code;
    hide StopOf, NilsOk;
    if before.pc == n - 1 {
      if c.out.Gives? { NilsWiden(c, before.regs, s.code[n - 1].a, s.code[n - 1].b, from); }
    } else {
      MergeOk(c, s, e, from);
      LeavesCarry(c, s.code, s'.code, e.t, e.f, stop);
    }
  }

  lemma NilOk(c: Ctx, s: Gen, e: Exp, reg: nat)
    requires Placed(c.m, s, e, c.o) && e.kind.KNil? && reg < MAXSTACK && CodeNil(s, reg).Ok?
    ensures var s' := CodeNil(s, reg).value;
            Extends(s, s') && Placed(c.m, s', e.(kind := KNonReloc(reg)), c.o) &&
            Frame(s.code, s'.code, Elems(e.t) + Elems(e.f) + c.o)
  {
    if |s.code| > s.lasttarget && |s.code| == 0 && reg >= s.nactvar {
    } else if MergesNil(s, reg) {
      MergeCode(s, reg);
      MergeOk(c, s, e, reg);
    } else {
      LoadOk(c, s, e, reg, 0);
    }
  }

  lemma NilRun(c: Ctx, s: Gen, e: Exp, reg: nat)
    requires Placed(c.m, s, e, c.o) && e.kind.KNil? && reg < MAXSTACK && CodeNil(s, reg).Ok?
    requires Denotes(c, s, e) && NilsOk(c, s, e) && (reg >= c.lo || reg == c.hole)
    ensures var s', e' := CodeNil(s, reg).value, e.(kind := KNonReloc(reg));
            Denotes(c, s', e') && NilsOk(c, s', e')
  {
    if |s.code| > s.lasttarget && |s.code| == 0 && reg >= s.nactvar {
      StopBound(c, s, e);
      assert Body(s, KNil) == Body(s, KNonReloc(reg)) == [];
    } else if MergesNil(s, reg) {
      MergeCode(s, reg);
      MergeRun(c, s, e, reg);
    } else {
      LoadRun(c, s, e, reg, 0);
    }
  }

  // ----- discharge2reg -----

  lemma RelocOk(c: Ctx, s: Gen, e: Exp, reg: nat)
    requires Placed(c.m, s, e, c.o) && e.kind.KReloc? && reg < MAXSTACK
    ensures var s' := s.(code := s.code[e.kind.pc := WithA(s.code[e.kind.pc], reg)]);
            Placed(c.m, s', e.(kind := KNonReloc(reg)), c.o) && Frame(s.code, s'.code, Elems(e.t) + Elems(e.f) + c.o)
  {
    var s', n := s.(code := s.code[e.kind.pc := WithA(s.code[e.kind.pc], reg)]), |s.code|;
    forall j | j in Elems(e.t) + Elems(e.f) + c.o ensures SameJump(s.code, s'.code, j) {
      assert j in e.t || j in e.f || j in c.o;
      assert j != n - 1;
    }
    ListsCarry(s, s', e.t, e.f, c.o);
  }

  lemma RelocStop(c: Ctx, s: Gen, e: Exp, reg: nat)
    requires Placed(c.m, s, e, c.o) && e.kind.KReloc? && Denotes(c, s, e)
    ensures var n, i, stop := |s.code|, WithA(s.code[e.kind.pc], reg), StopOf(c, s, e);
            var s', e' := s.(code := s.code[n - 1 := i]), e.(kind := KNonReloc(reg));
            StopOf(c, s', e') == (if stop.pc == n - 1 then Stop(n, Effect(c.m, i, stop.regs)) else stop) &&
            0 <= stop.pc <= n - 1 && Body(s', e'.kind) == s'.code
  {
    hide Placed, Denotes, Run, WithA, Effect;
    RelocFacts(c, s, e);
    var n := |s.code|;
    var i := WithA(s.code[n - 1], reg);
    var s', e' := s.(code := s.code[n - 1 := i]), e.(kind := KNonReloc(reg));
    var pre, open := s.code[..n - 1], Open(s, e, c.o);
    WithAIsPlain(s.code[n - 1], reg);
    assert Body(s, e.kind) == pre && Body(s', e'.kind) == s'.code == pre + [i];
    OpenJumps(c.m, s, e, c.o);
    StopBound(c, s, e);
    assert StopOf(c, s, e) == Run(c.m, pre, open, c.start, c.regs);
    assert StopOf(c, s', e') == Run(c.m, s'.code, open, c.start, c.regs);
    hide Open, OpenOk, Run, Body, StopOf;
    LastRun(c.m, pre, i, open, c.start, c.regs);
  }

  lemma WithAIsPlain(i: Instr, reg: nat)
    requires i.Arith? || i.Not?
    ensures IsPlain(WithA(i, reg))
  {
  }

  lemma RelocFacts(c: Ctx, s: Gen, e: Exp)
    requires Placed(c.m, s, e, c.o) && e.kind.KReloc?
    ensures var n := |s.code|;
            n > 0 && e.kind.pc == n - 1 && (s.code[n - 1].Arith? || s.code[n - 1].Not?) && s.jpc == []
  {
  }

  lemma RelocRun(c: Ctx, s: Gen, e: Exp, reg: nat)
    requires Placed(c.m, s, e, c.o) && e.kind.KReloc? && reg < MAXSTACK && (reg >= c.lo || reg == c.hole) &&
             Denotes(c, s, e)
    requires EntryOk(c, s.nactvar)
    ensures var s', e' := s.(code := s.code[e.kind.pc := WithA(s.code[e.kind.pc], reg)]), e.(kind := KNonReloc(reg));
            Denotes(c, s', e') && NilsOk(c, s', e')
  {
    hide WithA, ResultOf, Effect, Threaded, GenOk, Run, NilsOk, StopOf, Denotes, Placed;
    RelocFacts(c, s, e);
    RelocStop(c, s, e, reg);
    if StopOf(c, s, e).pc < |s.code| - 1 {
      RelocGone(c, s, e, reg);
    } else {
      RelocHere(c, s, e, reg);
    }
    RelocNils(c, s, e, reg);
  }

  /** The run does not come to the instruction. */
  lemma RelocGone(c: Ctx, s: Gen, e: Exp, reg: nat)
    requires Placed(c.m, s, e, c.o) && e.kind.KReloc? && Denotes(c, s, e) && StopOf(c, s, e).pc < |s.code| - 1
    requires var s', e' := s.(code := s.code[e.kind.pc := WithA(s.code[e.kind.pc], reg)]), e.(kind := KNonReloc(reg));
             StopOf(c, s', e') == StopOf(c, s, e)
    ensures Denotes(c, s.(code := s.code[e.kind.pc := WithA(s.code[e.kind.pc], reg)]), e.(kind := KNonReloc(reg)))
  {
    hide WithA, Threaded, GenOk, Run, StopOf, Leaves, Open;
    RelocFacts(c, s, e);
    var s' := s.(code := s.code[e.kind.pc := WithA(s.code[e.kind.pc], reg)]);
    assert !Falls(Body(s, e.kind), s.jpc, StopOf(c, s, e));
    assert Body(s, e.kind) == s.code[..|s.code| - 1] && Body(s', KNonReloc(reg)) == s'.code;
    RelocLeaves(c, s, e, WithA(s.code[e.kind.pc], reg), StopOf(c, s, e));
  }

  /** The run comes to the instruction and executes it. */
  lemma RelocHere(c: Ctx, s: Gen, e: Exp, reg: nat)
    requires Placed(c.m, s, e, c.o) && e.kind.KReloc? && reg < MAXSTACK && (reg >= c.lo || reg == c.hole)
    requires Denotes(c, s, e) && StopOf(c, s, e).pc == |s.code| - 1
    requires var i := WithA(s.code[e.kind.pc], reg);
             var s', e' := s.(code := s.code[e.kind.pc := i]), e.(kind := KNonReloc(reg));
             StopOf(c, s', e') == Stop(|s.code|, Effect(c.m, i, StopOf(c, s, e).regs))
    ensures Denotes(c, s.(code := s.code[e.kind.pc := WithA(s.code[e.kind.pc], reg)]), e.(kind := KNonReloc(reg)))
  {
    hide WithA, Effect, Threaded, GenOk, Run, StopOf, Open, ResultOf;
    if c.out.Gives? { HoldsReloc(c, s, e, reg, StopOf(c, s, e).regs); }
  }

  lemma RelocNils(c: Ctx, s: Gen, e: Exp, reg: nat)
    requires Placed(c.m, s, e, c.o) && e.kind.KReloc? && EntryOk(c, s.nactvar)
    ensures NilsOk(c, s.(code := s.code[e.kind.pc := WithA(s.code[e.kind.pc], reg)]), e.(kind := KNonReloc(reg)))
  {
  }

  lemma HoldsReloc(c: Ctx, s: Gen, e: Exp, reg: nat, regs: seq<Value>)
    requires e.kind.KReloc? && c.out.Gives? && reg < MAXSTACK && (reg >= c.lo || reg == c.hole)
    requires Keeps(c.out.r0, regs, c.lo, c.hole) && Holds(c.m, s, e.kind, regs, c.out.v)
    ensures var regs' := Effect(c.m, WithA(s.code[e.kind.pc], reg), regs);
            Keeps(c.out.r0, regs', c.lo, c.hole) && Get(regs', reg) == c.out.v
  {
  }

  lemma RelocLeaves(c: Ctx, s: Gen, e: Exp, i: Instr, stop: Stop)
    requires Placed(c.m, s, e, c.o) && e.kind.KReloc? && Leaves(c, s.code[..|s.code| - 1], e.t, e.f, stop)
    ensures Leaves(c, s.code[|s.code| - 1 := i], e.t, e.f, stop)
  {
    var n := |s.code|;
    var pre, code' := s.code[..n - 1], s.code[n - 1 := i];
    OpenJumps(c.m, s, e, c.o);
    forall j | j in Elems(e.t) + Elems(e.f) + c.o ensures SameJump(pre, code', j) {
      assert j in Open(s, e, c.o);
    }
    forall j | j in e.t || j in e.f || j in c.o ensures j < |pre| && pre[j].Jmp? {
      assert j in Open(s, e, c.o);
    }
    LeavesCarry(c, pre, code', e.t, e.f, stop);
  }

  predicate InPlace(k: Kind, reg: nat)
  {
    (k.KLocal? || k.KNonReloc?) && k.reg == reg
  }

  /** Constants first: the state in which a number has its place in the table. */
  function Prepared(s: Gen, k: Kind): Result<(Gen, nat)>
  {
    if k.KNum? then AddK(s, Num(k.n)) else Ok((s, 0))
  }

  lemma DischargeCases(s: Gen, e: Exp, reg: nat)
    requires !e.kind.KJmp? && DischargeToReg(s, e, reg).Ok? && (e.kind.KReloc? ==> e.kind.pc < |s.code|)
    ensures var s', e' := DischargeToReg(s, e, reg).value.0, DischargeToReg(s, e, reg).value.1;
            e' == e.(kind := KNonReloc(reg)) &&
            if e.kind.KNil? then CodeNil(s, reg) == Ok(s')
            else if e.kind.KReloc? then s' == s.(code := s.code[e.kind.pc := WithA(s.code[e.kind.pc], reg)])
            else if InPlace(e.kind, reg) then s' == s
            else Prepared(s, e.kind).Ok? &&
                 var (s1, idx) := Prepared(s, e.kind).value; Code(s1, Loader(e.kind, reg, idx)) == Ok(s')
  {
  }

  lemma PreparedOk(c: Ctx, s: Gen, e: Exp)
    requires Placed(c.m, s, e, c.o) && Prepared(s, e.kind).Ok?
    ensures var s1, idx := Prepared(s, e.kind).value.0, Prepared(s, e.kind).value.1;
            Placed(c.m, s1, e, c.o) && s1 == s.(k := s1.k, h := s1.h) && s.k <= s1.k &&
            (e.kind.KNum? ==> idx < |s1.k| && s1.k[idx] == Num(e.kind.n))
  {
    if e.kind.KNum? { AddKOk(s, Num(e.kind.n)); }
  }

  lemma DischargeToRegOk(c: Ctx, s: Gen, e: Exp, reg: nat)
    requires Placed(c.m, s, e, c.o) && !e.kind.KJmp? && reg < MAXSTACK && DischargeToReg(s, e, reg).Ok?
    ensures var s', e' := DischargeToReg(s, e, reg).value.0, DischargeToReg(s, e, reg).value.1;
            e' == e.(kind := KNonReloc(reg)) && Extends(s, s') && Placed(c.m, s', e', c.o) &&
            Frame(s.code, s'.code, Elems(e.t) + Elems(e.f) + c.o)
  {
    DischargeCases(s, e, reg);
    hide DischargeToReg, CodeNil, Frame;
    if e.kind.KNil? {
      NilOk(c, s, e, reg);
    } else if e.kind.KReloc? {
      RelocOk(c, s, e, reg);
    } else if InPlace(e.kind, reg) {
      FrameSelf(s, e, c.o);
    } else {
      PreparedOk(c, s, e);
      hide Prepared, Code;
      LoadOk(c, Prepared(s, e.kind).value.0, e, reg, Prepared(s, e.kind).value.1);
    }
  }

  lemma FrameSelf(s: Gen, e: Exp, o: set<nat>)
    requires ListsOk(s, e.t, e.f, o)
    ensures Frame(s.code, s.code, Elems(e.t) + Elems(e.f) + o)
  {
    forall j | j in Elems(e.t) + Elems(e.f) + o ensures SameJump(s.code, s.code, j) {
      assert j in e.t || j in e.f || j in o;
    }
  }

  /** Constants do not matter to a run, nor does the difference between a local and its register. */
  lemma SameCodeDenotes(c: Ctx, s: Gen, e: Exp, s': Gen, k: Kind)
    requires Denotes(c, s, e) && NilsOk(c, s, e)
    requires s'.code == s.code && s'.jpc == s.jpc && s'.lasttarget == s.lasttarget && s'.nactvar == s.nactvar
    requires k == e.kind || (e.kind.KLocal? && k == KNonReloc(e.kind.reg))
    ensures Denotes(c, s', e.(kind := k)) && NilsOk(c, s', e.(kind := k))
  {
    assert Body(s', k) == Body(s, e.kind);
  }

  /** `discharge2reg` leaves the value in the register; exits are not affected. */
  lemma DischargeToRegRun(c: Ctx, s: Gen, e: Exp, reg: nat)
    requires Placed(c.m, s, e, c.o) && !e.kind.KJmp? && reg < MAXSTACK && (reg >= c.lo || reg == c.hole)
    requires Denotes(c, s, e) && NilsOk(c, s, e)
    requires DischargeToReg(s, e, reg).Ok? && DischargeToReg(s, e, reg).value.0.k <= c.m.k
    ensures var s', e' := DischargeToReg(s, e, reg).value.0, DischargeToReg(s, e, reg).value.1;
            Denotes(c, s', e') && NilsOk(c, s', e')
  {
    DischargeCases(s, e, reg);
    hide DischargeToReg, CodeNil, Denotes, NilsOk;
    if e.kind.KNil? {
      NilRun(c, s, e, reg);
    } else if e.kind.KReloc? {
      RelocRun(c, s, e, reg);
    } else if InPlace(e.kind, reg) {
      SameCodeDenotes(c, s, e, s, KNonReloc(reg));
    } else {
      var s1, idx := Prepared(s, e.kind).value.0, Prepared(s, e.kind).value.1;
      PreparedOk(c, s, e);
      hide Prepared, Placed;
      SameCodeDenotes(c, s, e, s1, e.kind);
      assert Code(s1, Loader(e.kind, reg, idx)).value.k == s1.k;
      hide Code;
      LoadRun(c, s1, e, reg, idx);
    }
  }
}
