/** Conditions: jumping out of an expression when it is true, or when it is false. */
module CodeConds {
  import opened Seqs
  import opened LuaCode
  import opened CodeLists
  import opened CodeGen
  import opened CodeShape
  import opened CodeRuns
  import opened CodeMeaning
  import opened CodeDischarge
  import opened CodeExits
  import opened CodeOperands

  /** A run that comes to the next instruction does so with an expression of this truth; any other has left. */
  ghost predicate Decides(c: Ctx, s: Gen, t: seq<nat>, f: seq<nat>, truth: bool)
  {
    var stop := Run(c.m, s.code, OpenOf(s, t, f, c.o), c.start, c.regs);
    if c.out.Gives? && Falls(s.code, s.jpc, stop) then Keeps(c.out.r0, stop.regs, c.lo, c.hole) && Truthy(c.out.v) ==
      truth
    else Leaves(c, s.code, t, f, stop)
  }

  /** A test and its open jump added to the code. */
  lemma CondRun(m: Machine, s: Gen, i: Instr, t: seq<nat>, f: seq<nat>, o: set<nat>, start: nat, regs: seq<Value>)
    requires GenOk(s) && ListsOk(s, t, f, o) && IsTest(i) && CondJump(s, i).Ok?
    requires 0 <= Run(m, s.code, OpenOf(s, t, f, o), start, regs).pc <= |s.code|
    ensures var s', n, stop := CondJump(s, i).value.0, |s.code|, Run(m, s.code, OpenOf(s, t, f, o), start, regs);
            Run(m, s'.code, OpenOf(s', t, f, o) + {n + 1}, start, regs) ==
              if !Falls(s.code, s.jpc, stop) then stop
              else Stop(if !Passes(m, i, stop.regs) then n + 2 else if i.TestSet? then n else n + 1, stop.regs)
  {
    var s', n, stop := CondJump(s, i).value.0, |s.code|, Run(m, s.code, OpenOf(s, t, f, o), start, regs);
    CondParts(s, i, t, f, o);
    OpenOfJumps(s, t, f, o);
    CodeRun(m, s, i, OpenOf(s, t, f, o), start, regs);
    hide Code, CondJump, GenOk, ListsOk, OpenOf, Run;
    var patched, rest := Code(s, i).value.code[..n], OpenOf(s, t, f, o) - Elems(s.jpc);
    assert rest <= rest + {n + 1};
    AppendRun(m, patched, [i, Jmp(NO_JUMP)], rest, rest + {n + 1}, start, regs);
    TestRuns(m, patched, i, rest + {n + 1}, stop.regs);
  }

  /** A test and its open jump at the end of the code. */
  lemma TestRuns(m: Machine, code: seq<Instr>, i: Instr, open: set<nat>, regs: seq<Value>)
    requires IsTest(i) && |code| !in open && |code| + 1 in open
    ensures var n, longer := |code|, code + [i, Jmp(NO_JUMP)];
            Run(m, longer, open, n, regs) ==
              Stop(if !Passes(m, i, regs) then n + 2 else if i.TestSet? then n else n + 1, regs)
  {
    var n, longer := |code|, code + [i, Jmp(NO_JUMP)];
    assert Run(m, longer, open, n + 2, regs) == Stop(n + 2, regs);
    assert Run(m, longer, open, n + 1, regs) == Stop(n + 1, regs);
  }

  /** The code after a test and its jump: what was there, patched, and the two. */
  lemma CondParts(s: Gen, i: Instr, t: seq<nat>, f: seq<nat>, o: set<nat>)
    requires GenOk(s) && ListsOk(s, t, f, o) && IsTest(i) && CondJump(s, i).Ok?
    ensures Code(s, i).Ok?
    ensures var s', n, rest := CondJump(s, i).value.0, |s.code|, OpenOf(s, t, f, o) - Elems(s.jpc);
            |Code(s, i).value.code| == n + 1 && |s'.code| == n + 2 &&
            var patched := Code(s, i).value.code[..n];
            s'.code == patched + [i, Jmp(NO_JUMP)] && OpenOf(s', t, f, o) == rest && OpenOk(patched, rest) &&
            n + 1 !in rest
  {
    var s', n, s1 := CondJump(s, i).value.0, |s.code|, Code(s, i).value;
    CodeOk(s, i, t, f, o);
    assert s'.code == s1.code + [Jmp(NO_JUMP)];
    CondOpen(s, s', t, f, o);
    OpenOfJumps(s1, t, f, o);
    CondOpen(s, s1, t, f, o);
    hide Code, CondJump, GenOk, ListsOk, OpenOf, Patched, Frame;
    var patched, rest := s1.code[..n], OpenOf(s, t, f, o) - Elems(s.jpc);
    assert s1.code == patched + [i];
    forall j | j in rest ensures j < n && patched[j].Jmp? { assert s1.code[j].Jmp?; }
  }

  lemma CondOpen(s: Gen, s': Gen, t: seq<nat>, f: seq<nat>, o: set<nat>)
    requires ListsOk(s, t, f, o) && s'.jpc == []
    ensures OpenOf(s', t, f, o) == OpenOf(s, t, f, o) - Elems(s.jpc)
  {
    ElemsIn(s.jpc);
    ElemsIn(t);
    ElemsIn(f);
  }

  function WithT(t: seq<nat>, l: seq<nat>, cond: bool): seq<nat>
  {
    if cond then t + l else t
  }

  function WithF(f: seq<nat>, l: seq<nat>, cond: bool): seq<nat>
  {
    if cond then f else f + l
  }

  /** The test tells whether the expression has truth `cond`, and then carries its value. */
  ghost predicate Tests(c: Ctx, s: Gen, t: seq<nat>, f: seq<nat>, i: Instr, cond: bool)
    requires IsTest(i)
  {
    var stop := Run(c.m, s.code, OpenOf(s, t, f, c.o), c.start, c.regs);
    if c.out.Gives? && Falls(s.code, s.jpc, stop) then
      Keeps(c.out.r0, stop.regs, c.lo, c.hole) && (Passes(c.m, i, stop.regs) <==> Truthy(c.out.v) == cond) &&
      (Passes(c.m, i, stop.regs) ==> if i.TestSet? then Get(stop.regs, i.b) == c.out.v else c.out.v == Bool(cond))
    else Leaves(c, s.code, t, f, stop)
  }

  lemma TestsBound(c: Ctx, s: Gen, t: seq<nat>, f: seq<nat>, i: Instr, cond: bool)
    requires ListsOk(s, t, f, c.o) && IsTest(i) && Tests(c, s, t, f, i, cond)
    ensures var stop := Run(c.m, s.code, OpenOf(s, t, f, c.o), c.start, c.regs);
            0 <= stop.pc <= |s.code| && (!Falls(s.code, s.jpc, stop) ==> stop.pc < |s.code|)
  {
    OpenOfJumps(s, t, f, c.o);
    ElemsIn(s.jpc);
  }

  lemma LeavesMore(c: Ctx, code: seq<Instr>, t: seq<nat>, f: seq<nat>, t': seq<nat>, f': seq<nat>, stop: Stop)
    requires Leaves(c, code, t, f, stop) && (forall j :: j in t ==> j in t') && (forall j :: j in f ==> j in f')
    ensures Leaves(c, code, t', f', stop)
  {
  }

  /** After a test with its jump, control goes on only if the expression has the other truth. */
  lemma CondDecides(c: Ctx, s: Gen, t: seq<nat>, f: seq<nat>, i: Instr, cond: bool)
    requires GenOk(s) && ListsOk(s, t, f, c.o) && IsTest(i) && CondJump(s, i).Ok? && Tests(c, s, t, f, i, cond)
    ensures var s', l := CondJump(s, i).value.0, CondJump(s, i).value.1;
            Decides(c, s', WithT(t, l, cond), WithF(f, l, cond), !cond)
  {
    var s', l, n := CondJump(s, i).value.0, CondJump(s, i).value.1, |s.code|;
    var t', f' := WithT(t, l, cond), WithF(f, l, cond);
    var stop := Run(c.m, s.code, OpenOf(s, t, f, c.o), c.start, c.regs);
    TestsBound(c, s, t, f, i, cond);
    CondJumpOk(s, i, t, f, c.o);
    CondRun(c.m, s, i, t, f, c.o, c.start, c.regs);
    assert l == [n + 1];
    hide CondJump, GenOk, Patched;
    MoreOpen(s', t, f, n + 1, c.o, cond);
    var now := Run(c.m, s'.code, OpenOf(s', t', f', c.o), c.start, c.regs);
    hide Run, OpenOf;
    if !Falls(s.code, s.jpc, stop) {
      LeavesCarry(c, s.code, s'.code, t, f, stop);
      LeavesMore(c, s'.code, t, f, t', f', stop);
    } else {
      hide ListsOk, Frame;
      CondExits(c, s', t', f', i, cond, now);
    }
  }

  lemma MoreOpen(s: Gen, t: seq<nat>, f: seq<nat>, j: nat, o: set<nat>, cond: bool)
    ensures OpenOf(s, WithT(t, [j], cond), WithF(f, [j], cond), o) == OpenOf(s, t, f, o) + {j}
  {
    ElemsIn(t);
    ElemsIn(f);
    ElemsIn(WithT(t, [j], cond));
    ElemsIn(WithF(f, [j], cond));
  }

  lemma CondExits(c: Ctx, s: Gen, t: seq<nat>, f: seq<nat>, i: Instr, cond: bool, now: Stop)
    requires |s.code| >= 2 && s.code[|s.code| - 2] == i && s.code[|s.code| - 1].Jmp? && s.jpc == [] && IsTest(i)
    requires |s.code| - 1 in (if cond then t else f)
    requires now.pc == if !Passes(c.m, i, now.regs) then |s.code| else if i.TestSet? then |s.code| - 2 else |s.code| - 1
    requires c.out.Gives?
    requires Keeps(c.out.r0, now.regs, c.lo, c.hole) && (Passes(c.m, i, now.regs) <==> Truthy(c.out.v) == cond) &&
      (Passes(c.m, i, now.regs) ==> if i.TestSet? then Get(now.regs, i.b) == c.out.v else c.out.v == Bool(cond))
    ensures if Falls(s.code, s.jpc, now) then Keeps(c.out.r0, now.regs, c.lo, c.hole) && Truthy(c.out.v) == !cond
            else Leaves(c, s.code, t, f, now)
  {
    if Passes(c.m, i, now.regs) {
      assert Exits(s.code, if cond then t else f, cond, now, c.out.v);
    }
  }

  // ----- jumponcond -----

  lemma NotTests(c: Ctx, s: Gen, e: Exp, cond: bool)
    requires Placed(c.m, s, e, c.o) && IsNotAt(s, e.kind) && Denotes(c, s, e)
    ensures var s0 := s.(code := s.code[..|s.code| - 1]);
            Tests(c, s0, e.t, e.f, Test(s.code[e.kind.pc].b, !cond), cond)
  {
    var s0 := s.(code := s.code[..|s.code| - 1]);
    assert Body(s, e.kind) == s0.code;
    assert OpenOf(s0, e.t, e.f, c.o) == Open(s, e, c.o);
  }

  lemma NotPlaced(c: Ctx, s: Gen, e: Exp)
    requires Placed(c.m, s, e, c.o) && IsNotAt(s, e.kind)
    ensures var s0 := s.(code := s.code[..|s.code| - 1]);
            GenOk(s0) && ListsOk(s0, e.t, e.f, c.o) && Frame(s.code, s0.code, Elems(e.t) + Elems(e.f) + c.o)
  {
    var s0 := s.(code := s.code[..|s.code| - 1]);
    forall j | j in Elems(e.t) + Elems(e.f) + c.o ensures SameJump(s.code, s0.code, j) {
      assert j in e.t || j in e.f || j in c.o;
    }
    ListsCarry(s, s0, e.t, e.f, c.o);
  }

  lemma RegTests(c: Ctx, s: Gen, s': Gen, e: Exp, cond: bool)
    requires e.kind.KNonReloc? && Denotes(c, s, e) && s'.code == s.code && s'.jpc == s.jpc
    ensures Tests(c, s', e.t, e.f, TestSet(NO_REG, e.kind.reg, cond), cond)
  {
    assert Body(s, e.kind) == s.code;
    assert OpenOf(s', e.t, e.f, c.o) == Open(s, e, c.o);
  }

  lemma ReserveOne(c: Ctx, s: Gen, e: Exp)
    requires Fit(c, s, e) && !e.kind.KNonReloc? && ReserveReg(s).Ok?
    ensures var s1 := ReserveReg(s).value;
            s1 == s.(freereg := c.lo + 1, maxstack := s1.maxstack) && c.lo < MAXSTACK && Placed(c.m, s1, e, c.o)
  {
    var s1 := ReserveReg(s).value;
    assert c.lo + 1 == s1.freereg <= s1.maxstack < MAXSTACK;
    RegsPlaced(c, s, s1, e);
  }

  lemma AnyRegOk(c: Ctx, s: Gen, e: Exp)
    requires Fit(c, s, e) && !e.kind.KJmp? && !e.kind.KLocal? && DischargeToAnyReg(s, e).Ok?
    ensures var s', e' := DischargeToAnyReg(s, e).value.0, DischargeToAnyReg(s, e).value.1;
            Fit(c, s', e') && Frame(s.code, s'.code, Elems(e.t) + Elems(e.f) + c.o) && s'.nactvar == s.nactvar &&
            s.k <= s'.k &&
            e'.kind.KNonReloc? && e'.t == e.t && e'.f == e.f && FreeExp(s', e').freereg == c.lo
  {
    hide Frame, DischargeToReg;
    if e.kind.KNonReloc? {
      FrameSelf(s, e, c.o);
    } else {
      ReserveOne(c, s, e);
      var s1 := ReserveReg(s).value;
      hide Placed, ReserveReg;
      DischargeToRegOk(c, s1, e, c.lo);
    }
  }

  lemma AnyRegRun(c: Ctx, s: Gen, e: Exp)
    requires Fit(c, s, e) && Means(c, s, e) && !e.kind.KJmp? && !e.kind.KLocal? && DischargeToAnyReg(s, e).Ok?
    requires DischargeToAnyReg(s, e).value.0.k <= c.m.k
    ensures var s', e' := DischargeToAnyReg(s, e).value.0, DischargeToAnyReg(s, e).value.1;
            Means(c, s', e')
  {
    hide Placed, DischargeToReg, Denotes, NilsOk;
    if !e.kind.KNonReloc? {
      ReserveOne(c, s, e);
      var s1 := ReserveReg(s).value;
      hide ReserveReg;
      RegsDenote(c, s, s1, e);
      DischargeToRegRun(c, s1, e, c.lo);
    }
  }

  /** What a jump out of the expression leaves as it was. */
  ghost predicate Jumped(c: Ctx, s: Gen, e: Exp, s': Gen, l: seq<nat>)
  {
    GenOk(s') && ListsOk(s', e.t, e.f, c.o) && Frame(s.code, s'.code, Elems(e.t) + Elems(e.f) + c.o) &&
    s'.nactvar == s.nactvar && s.k <= s'.k && s'.freereg == c.lo &&
    Threaded(s'.code, l) && Apart(s'.jpc, l) && Apart(l, e.t) && Apart(l, e.f) && forall j :: j in l ==> j !in c.o
  }

  lemma LastThreaded(code: seq<Instr>)
    requires code != [] && code[|code| - 1] == Jmp(NO_JUMP)
    ensures Threaded(code, [|code| - 1])
  {
  }

  lemma CondJumped(c: Ctx, s: Gen, e: Exp, s1: Gen, i: Instr)
    requires GenOk(s1) && ListsOk(s1, e.t, e.f, c.o) && Frame(s.code, s1.code, Elems(e.t) + Elems(e.f) + c.o) &&
             CondJump(s1, i).Ok?
    requires s1.nactvar == s.nactvar && s.k <= s1.k && s1.freereg == c.lo
    ensures Jumped(c, s, e, CondJump(s1, i).value.0, CondJump(s1, i).value.1)
  {
    CondJumpOk(s1, i, e.t, e.f, c.o);
    var s', l := CondJump(s1, i).value.0, CondJump(s1, i).value.1;
    LastThreaded(s'.code);
    FrameTransitive(s.code, s1.code, s'.code, Elems(e.t) + Elems(e.f) + c.o);
    hide GenOk, Frame, CondJump;
    assert forall j :: j in e.t || j in e.f || j in c.o ==> j < |s1.code|;
  }

  lemma JumpOnCondOk(c: Ctx, s: Gen, e: Exp, cond: bool)
    requires Fit(c, s, e) && !e.kind.KJmp? && !e.kind.KLocal? && JumpOnCond(s, e, cond).Ok?
    ensures Jumped(c, s, e, JumpOnCond(s, e, cond).value.0, JumpOnCond(s, e, cond).value.1)
  {
    hide CondJump, DischargeToAnyReg, Jumped, Frame;
    if IsNotAt(s, e.kind) {
      NotPlaced(c, s, e);
      CondJumped(c, s, e, s.(code := s.code[..|s.code| - 1]), Test(s.code[e.kind.pc].b, !cond));
    } else {
      AnyRegOk(c, s, e);
      var s1, e1 := DischargeToAnyReg(s, e).value.0, DischargeToAnyReg(s, e).value.1;
      var s2 := FreeExp(s1, e1);
      assert s2 == s1.(freereg := s2.freereg);
      RegsPlaced(c, s1, s2, e1);
      CondJumped(c, s, e, s2, TestSet(NO_REG, e1.kind.reg, cond));
    }
  }

  lemma JumpOnCondRun(c: Ctx, s: Gen, e: Exp, cond: bool)
    requires Fit(c, s, e) && Means(c, s, e) && !e.kind.KJmp? && !e.kind.KLocal? && JumpOnCond(s, e, cond).Ok?
    requires JumpOnCond(s, e, cond).value.0.k <= c.m.k
    ensures var s', l := JumpOnCond(s, e, cond).value.0, JumpOnCond(s, e, cond).value.1;
            Decides(c, s', WithT(e.t, l, cond), WithF(e.f, l, cond), !cond)
  {
    hide DischargeToAnyReg, Denotes, NilsOk, Tests, Decides;
    if IsNotAt(s, e.kind) {
      NotPlaced(c, s, e);
      NotTests(c, s, e, cond);
      hide CondJump;
      CondDecides(c, s.(code := s.code[..|s.code| - 1]), e.t, e.f, Test(s.code[e.kind.pc].b, !cond), cond);
    } else {
      AnyRegOk(c, s, e);
      var s1, e1 := DischargeToAnyReg(s, e).value.0, DischargeToAnyReg(s, e).value.1;
      var s2 := FreeExp(s1, e1);
      assert s2 == s1.(freereg := s2.freereg);
      RegsPlaced(c, s1, s2, e1);
      CondJumpKeepsK(s2, TestSet(NO_REG, e1.kind.reg, cond));
      hide CondJump;
      AnyRegRun(c, s, e);
      RegTests(c, s1, s2, e1, cond);
      CondDecides(c, s2, e.t, e.f, TestSet(NO_REG, e1.kind.reg, cond), cond);
    }
  }

  lemma CondJumpKeepsK(s: Gen, i: Instr)
    requires CondJump(s, i).Ok?
    ensures CondJump(s, i).value.0.k == s.k
  {
  }

  // ----- luaK_goiftrue and luaK_goiffalse -----

  /** The one shape these operations get wrong: a constant that always leaves, while jumps that carry a value
      are waiting for this position. */
  ghost predicate Clean(s: Gen, e: Exp, cond: bool)
  {
    AlwaysLeaves(e.kind, cond) ==> forall j :: j in s.jpc ==> !CarriesValue(s.code, j)
  }

  lemma InvertOk(c: Ctx, s: Gen, e: Exp)
    requires Fit(c, s, e) && e.kind.KJmp?
    ensures var s', n := InvertJump(s, e.kind.pc), |s.code|;
            s' == s.(code := s.code[n - 2 := Inverted(s.code[n - 2])]) && Fit(c, s', e) &&
            Jumped(c, s, e, s', [e.kind.pc])
  {
    var s', n := InvertJump(s, e.kind.pc), |s.code|;
    assert Control(s.code, n - 1) == n - 2;
    forall j | j in Elems(e.t) + Elems(e.f) + c.o ensures SameJump(s.code, s'.code, j) {
      assert j in e.t || j in e.f || j in c.o;
    }
    ListsCarry(s, s', e.t, e.f, c.o);
    LastThreaded(s'.code);
  }

  lemma LeaveOk(c: Ctx, s: Gen, e: Exp, cond: bool)
    requires Fit(c, s, e) && !e.kind.KLocal? && Leave(s, e, cond).Ok?
    ensures Jumped(c, s, e, Leave(s, e, cond).value.0, Leave(s, e, cond).value.1)
  {
    if NeverLeaves(e.kind, cond) {
      FrameSelf(s, e, c.o);
    } else if AlwaysLeaves(e.kind, cond) {
      JumpOk(s, e.t, e.f, c.o);
    } else if e.kind.KJmp? {
      if cond {
        FrameSelf(s, e, c.o);
        LastThreaded(s.code);
      } else {
        InvertOk(c, s, e);
      }
    } else {
      JumpOnCondOk(c, s, e, cond);
    }
  }

  lemma NeverDecides(c: Ctx, s: Gen, e: Exp, cond: bool)
    requires Denotes(c, s, e) && NeverLeaves(e.kind, cond)
    ensures Decides(c, s, WithT(e.t, [], cond), WithF(e.f, [], cond), !cond)
  {
    assert WithT(e.t, [], cond) == e.t && WithF(e.f, [], cond) == e.f;
    assert Body(s, e.kind) == s.code && OpenOf(s, e.t, e.f, c.o) == Open(s, e, c.o);
  }

  lemma AlwaysStop(c: Ctx, s: Gen, e: Exp, cond: bool)
    requires Placed(c.m, s, e, c.o) && Denotes(c, s, e) && AlwaysLeaves(e.kind, cond) && Jump(s).Ok?
    ensures var s', l := Jump(s).value.0, Jump(s).value.1;
            Run(c.m, s'.code, OpenOf(s', WithT(e.t, l, cond), WithF(e.f, l, cond), c.o), c.start, c.regs) ==
              StopOf(c, s, e) &&
            0 <= StopOf(c, s, e).pc <= |s.code|
  {
    var s', l, n, stop := Jump(s).value.0, Jump(s).value.1, |s.code|, StopOf(c, s, e);
    var open' := OpenOf(s', WithT(e.t, l, cond), WithF(e.f, l, cond), c.o);
    OpenJumps(c.m, s, e, c.o);
    StopBound(c, s, e);
    JumpOk(s, e.t, e.f, c.o);
    assert Body(s, e.kind) == s.code;
    assert s'.code == s.code + [s'.code[n]];
    AlwaysOpen(s, s', e, l, c.o, cond);
    hide *;
    AppendJump(c.m, s.code, s'.code[n], Open(s, e, c.o), c.start, c.regs);
  }

  lemma AppendJump(m: Machine, code: seq<Instr>, jump: Instr, open: set<nat>, start: nat, regs: seq<Value>)
    requires OpenOk(code, open) && (code == [] || !IsTest(code[|code| - 1])) &&
             0 <= Run(m, code, open, start, regs).pc <= |code|
    ensures Run(m, code + [jump], open + {|code|}, start, regs) == Run(m, code, open, start, regs)
  {
    AppendRun(m, code, [jump], open, open + {|code|}, start, regs);
    StopsAtOpen(m, code + [jump], open + {|code|}, |code|, Run(m, code, open, start, regs).regs);
  }

  lemma StopsAtOpen(m: Machine, code: seq<Instr>, open: set<nat>, pc: nat, regs: seq<Value>)
    requires pc in open
    ensures Run(m, code, open, pc, regs) == Stop(pc, regs)
  {
  }

  lemma AlwaysOpen(s: Gen, s': Gen, e: Exp, l: seq<nat>, o: set<nat>, cond: bool)
    requires s'.jpc == [] && l == [|s.code|] + s.jpc
    ensures OpenOf(s', WithT(e.t, l, cond), WithF(e.f, l, cond), o) == Open(s, e, o) + {|s.code|}
  {
    ElemsIn(s.jpc);
    ElemsIn(e.t);
    ElemsIn(e.f);
    ElemsIn(WithT(e.t, l, cond));
    ElemsIn(WithF(e.f, l, cond));
  }

  lemma AlwaysDecides(c: Ctx, s: Gen, e: Exp, cond: bool)
    requires Placed(c.m, s, e, c.o) && Denotes(c, s, e) && AlwaysLeaves(e.kind, cond) && Clean(s, e, cond) &&
             Jump(s).Ok?
    ensures var s', l := Jump(s).value.0, Jump(s).value.1;
            Decides(c, s', WithT(e.t, l, cond), WithF(e.f, l, cond), !cond)
  {
    var s', l, n, stop := Jump(s).value.0, Jump(s).value.1, |s.code|, StopOf(c, s, e);
    var t', f' := WithT(e.t, l, cond), WithF(e.f, l, cond);
    AlwaysStop(c, s, e, cond);
    JumpOk(s, e.t, e.f, c.o);
    assert Body(s, e.kind) == s.code;
    hide Jump, Run, OpenOf, StopOf;
    if c.out.Gives? && Falls(s.code, s.jpc, stop) {
      AlwaysExits(c, s, s', e, l, cond, stop);
    } else {
      LeavesCarry(c, s.code, s'.code, e.t, e.f, stop);
      LeavesMore(c, s'.code, e.t, e.f, t', f', stop);
    }
  }

  lemma AlwaysExits(c: Ctx, s: Gen, s': Gen, e: Exp, l: seq<nat>, cond: bool, stop: Stop)
    requires GenOk(s) && Threaded(s.code, s.jpc) && AlwaysLeaves(e.kind, cond) && Clean(s, e, cond) && c.out.Gives?
    requires |s'.code| == |s.code| + 1 && (forall i :: 0 <= i < |s.code| ==> s'.code[i] == s.code[i]) &&
             s'.code[|s.code|].Jmp?
    requires l == [|s.code|] + s.jpc && Falls(s.code, s.jpc, stop)
    requires Keeps(c.out.r0, stop.regs, c.lo, c.hole) && Holds(c.m, s, e.kind, stop.regs, c.out.v)
    ensures Leaves(c, s'.code, WithT(e.t, l, cond), WithF(e.f, l, cond), stop) && stop.pc < |s'.code|
  {
    var p, n := stop.pc, |s.code|;
    var j := JumpOf(s.code, p);
    assert 0 <= p <= n && j in l && j <= n;
    assert c.out.v == Bool(cond);
    assert j in s.jpc ==> !CarriesValue(s.code, j);
    assert j == n && n > 0 ==> !IsTest(s.code[n - 1]);
    hide Threaded, GenOk, Clean, Holds;
    assert !CarriesValue(s'.code, j) && p == j;
    assert Exits(s'.code, if cond then WithT(e.t, l, cond) else WithF(e.f, l, cond), cond, stop, c.out.v);
  }

  lemma JmpDecides(c: Ctx, s: Gen, e: Exp, cond: bool)
    requires Fit(c, s, e) && e.kind.KJmp? && Denotes(c, s, e)
    ensures var s', l := if cond then s else InvertJump(s, e.kind.pc), [e.kind.pc];
            Decides(c, s', WithT(e.t, l, cond), WithF(e.f, l, cond), !cond)
  {
    var s', l, n, stop := if cond then s else InvertJump(s, e.kind.pc), [e.kind.pc], |s.code|, StopOf(c, s, e);
    var t', f' := WithT(e.t, l, cond), WithF(e.f, l, cond);
    StopBound(c, s, e);
    if !cond { InvertOk(c, s, e); }
    assert Body(s', e.kind) == Body(s, e.kind) && Open(s', e, c.o) == Open(s, e, c.o);
    assert StopOf(c, s', e) == stop;
    CompareRun(c, s', e);
    MoreOpen(s', e.t, e.f, e.kind.pc, c.o, cond);
    var now := Run(c.m, s'.code, OpenOf(s', t', f', c.o), c.start, c.regs);
    assert OpenOf(s', e.t, e.f, c.o) == Open(s', e, c.o);
    hide Run, OpenOf, StopOf, InvertJump;
    if stop.pc == n - 2 {
      if c.out.Gives? {
        JmpExits(c, s, s', e, t', f', cond, stop, now);
      }
    } else {
      JmpLeaves(c, s, s', e, stop);
      LeavesMore(c, s'.code, e.t, e.f, t', f', stop);
    }
  }

  lemma JmpExits(c: Ctx, s: Gen, s': Gen, e: Exp, t: seq<nat>, f: seq<nat>, cond: bool, stop: Stop, now: Stop)
    requires Fit(c, s, e) && e.kind.KJmp? && c.out.Gives? && |s'.code| == |s.code| && s'.jpc == s.jpc
    requires s'.code[|s.code| - 1] == s.code[|s.code| - 1]
    requires s'.code[|s.code| - 2] == if cond then s.code[|s.code| - 2] else Inverted(s.code[|s.code| - 2])
    requires Keeps(c.out.r0, stop.regs, c.lo, c.hole) && Holds(c.m, s, e.kind, stop.regs, c.out.v)
    requires e.kind.pc in (if cond then t else f)
    requires now == Stop(if Passes(c.m, s'.code[|s.code| - 2], stop.regs) then |s.code| - 1 else |s.code|, stop.regs)
    ensures if Falls(s'.code, s'.jpc, now) then Keeps(c.out.r0, now.regs, c.lo, c.hole) && Truthy(c.out.v) == !cond
            else Leaves(c, s'.code, t, f, now)
  {
    if now.pc == |s.code| - 1 {
      assert Exits(s'.code, if cond then t else f, cond, now, c.out.v);
    }
  }

  lemma JmpLeaves(c: Ctx, s: Gen, s': Gen, e: Exp, stop: Stop)
    requires Fit(c, s, e) && e.kind.KJmp? && Leaves(c, Body(s, e.kind), e.t, e.f, stop)
    requires s'.code == s.code || s'.code == s.code[|s.code| - 2 := Inverted(s.code[|s.code| - 2])]
    ensures Leaves(c, s'.code, e.t, e.f, stop)
  {
    var body := Body(s, e.kind);
    OpenJumps(c.m, s, e, c.o);
    forall j | j in Elems(e.t) + Elems(e.f) + c.o ensures SameJump(body, s'.code, j) {
      assert j in Open(s, e, c.o);
    }
    forall j | j in e.t || j in e.f || j in c.o ensures j < |body| && body[j].Jmp? {
      assert j in Open(s, e, c.o);
    }
    LeavesCarry(c, body, s'.code, e.t, e.f, stop);
  }

  /** The jump out of an expression is taken exactly when its truth is `cond`, with its value. */
  lemma LeaveRun(c: Ctx, s: Gen, e: Exp, cond: bool)
    requires Fit(c, s, e) && Means(c, s, e) && !e.kind.KLocal? && Clean(s, e, cond)
    requires Leave(s, e, cond).Ok? && Leave(s, e, cond).value.0.k <= c.m.k
    ensures var s', l := Leave(s, e, cond).value.0, Leave(s, e, cond).value.1;
            Decides(c, s', WithT(e.t, l, cond), WithF(e.f, l, cond), !cond)
  {
    hide Denotes, NilsOk, Decides, Clean, JumpOnCond, Jump, Placed;
    if NeverLeaves(e.kind, cond) {
      NeverDecides(c, s, e, cond);
    } else if AlwaysLeaves(e.kind, cond) {
      AlwaysDecides(c, s, e, cond);
    } else if e.kind.KJmp? {
      JmpDecides(c, s, e, cond);
    } else {
      JumpOnCondRun(c, s, e, cond);
    }
  }

  // ----- joining and holding lists -----

  /** Only links between open jumps differ. */
  ghost predicate Relinked(code: seq<Instr>, code': seq<Instr>)
  {
    |code'| == |code| && forall i :: 0 <= i < |code| ==> code'[i] == code[i] || (code[i].Jmp? && code'[i].Jmp?)
  }

  lemma RelinkedLeaves(c: Ctx, code: seq<Instr>, code': seq<Instr>, t: seq<nat>, f: seq<nat>, stop: Stop)
    requires Relinked(code, code') && Leaves(c, code, t, f, stop)
    ensures Leaves(c, code', t, f, stop) && JumpOf(code', stop.pc) == JumpOf(code, stop.pc)
  {
    var p := stop.pc;
    assert code'[p] == code[p] || (code[p].Jmp? && code'[p].Jmp?);
    if p >= 1 { assert code'[p - 1] == code[p - 1] || (code[p - 1].Jmp? && code'[p - 1].Jmp?); }
    if c.out.Gives? {
      if Exits(code, t, true, stop, c.out.v) {
        assert Exits(code', t, true, stop, c.out.v);
      } else {
        assert Exits(code', f, false, stop, c.out.v);
      }
    }
  }

  lemma DecidesBound(c: Ctx, s: Gen, t: seq<nat>, f: seq<nat>, truth: bool)
    requires ListsOk(s, t, f, c.o) && Decides(c, s, t, f, truth)
    ensures var stop := Run(c.m, s.code, OpenOf(s, t, f, c.o), c.start, c.regs);
            0 <= stop.pc <= |s.code| && (!Falls(s.code, s.jpc, stop) ==> stop.pc < |s.code|)
  {
    OpenOfJumps(s, t, f, c.o);
    ElemsIn(s.jpc);
  }

  /** The lists of an expression hold the same jumps in any order. */
  ghost predicate SameOpen(s: Gen, t: seq<nat>, f: seq<nat>, s': Gen, t': seq<nat>, f': seq<nat>, o: set<nat>)
  {
    Relinked(s.code, s'.code) && OpenOf(s', t', f', o) == OpenOf(s, t, f, o) &&
    OpenOk(s.code, OpenOf(s, t, f, o)) && OpenOk(s'.code, OpenOf(s, t, f, o)) &&
    forall i :: 0 <= i < |s.code| && i !in OpenOf(s, t, f, o) ==> s'.code[i] == s.code[i]
  }

  lemma SameOpenRun(c: Ctx, s: Gen, t: seq<nat>, f: seq<nat>, s': Gen, t': seq<nat>, f': seq<nat>)
    requires SameOpen(s, t, f, s', t', f', c.o) &&
             0 <= Run(c.m, s.code, OpenOf(s, t, f, c.o), c.start, c.regs).pc <= |s.code|
    ensures Run(c.m, s'.code, OpenOf(s', t', f', c.o), c.start, c.regs) ==
            Run(c.m, s.code, OpenOf(s, t, f, c.o), c.start, c.regs)
  {
    LinksRun(c.m, s.code, s'.code, OpenOf(s, t, f, c.o), c.start, c.regs);
  }

  /** `luaK_concat` on an exit list changes nothing about where runs go. */
  lemma JoinDecides(c: Ctx, s: Gen, s': Gen, t: seq<nat>, f: seq<nat>, truth: bool)
    requires SameOpen(s, t, f, s', t, f, c.o) && s'.jpc == s.jpc && Decides(c, s, t, f, truth)
    requires 0 <= Run(c.m, s.code, OpenOf(s, t, f, c.o), c.start, c.regs).pc <= |s.code|
    ensures Decides(c, s', t, f, truth)
  {
    SameOpenRun(c, s, t, f, s', t, f);
    var stop := Run(c.m, s.code, OpenOf(s, t, f, c.o), c.start, c.regs);
    hide Run, OpenOf;
    RelinkedFalls(s.code, s'.code, s.jpc, stop);
    if !(c.out.Gives? && Falls(s.code, s.jpc, stop)) {
      RelinkedLeaves(c, s.code, s'.code, t, f, stop);
    }
  }

  lemma RelinkedFalls(code: seq<Instr>, code': seq<Instr>, jpc: seq<nat>, stop: Stop)
    requires Relinked(code, code')
    ensures Falls(code', jpc, stop) == Falls(code, jpc, stop)
  {
    var p := stop.pc;
    if 0 <= p < |code| { assert code'[p] == code[p] || (code[p].Jmp? && code'[p].Jmp?); }
  }

  /** `luaK_patchtohere` on the other exit list: these exits come to the next instruction. */
  lemma HereDecides(c: Ctx, s: Gen, s': Gen, t: seq<nat>, f: seq<nat>, cond: bool)
    requires SameOpen(s, t, f, s', if cond then t else [], if cond then [] else f, c.o) && Apart(t, f)
    requires s'.jpc == s.jpc + (if cond then f else t) && Decides(c, s, t, f, !cond)
    requires 0 <= Run(c.m, s.code, OpenOf(s, t, f, c.o), c.start, c.regs).pc <= |s.code|
    ensures Decides(c, s', if cond then t else [], if cond then [] else f, !cond)
  {
    var t', f' := if cond then t else [], if cond then [] else f;
    SameOpenRun(c, s, t, f, s', t', f');
    var stop := Run(c.m, s.code, OpenOf(s, t, f, c.o), c.start, c.regs);
    hide Run, OpenOf;
    RelinkedFalls(s.code, s'.code, s'.jpc, stop);
    if c.out.Gives? && !Falls(s.code, s.jpc, stop) {
      HereExits(c, s, s', t, f, cond, stop);
    } else if c.out.Left? {
      RelinkedLeaves(c, s.code, s'.code, t, f, stop);
    }
  }

  lemma HereExits(c: Ctx, s: Gen, s': Gen, t: seq<nat>, f: seq<nat>, cond: bool, stop: Stop)
    requires Relinked(s.code, s'.code) && c.out.Gives? && Leaves(c, s.code, t, f, stop) &&
             s'.jpc == s.jpc + (if cond then f else t)
    requires !Falls(s.code, s.jpc, stop) && Apart(t, f)
    ensures if Falls(s'.code, s'.jpc, stop) then Keeps(c.out.r0, stop.regs, c.lo, c.hole) && Truthy(c.out.v) == !cond
            else Leaves(c, s'.code, if cond then t else [], if cond then [] else f, stop)
  {
    var t', f' := if cond then t else [], if cond then [] else f;
    if Exits(s.code, if cond then f else t, !cond, stop, c.out.v) {
      RelinkedFalls(s.code, s'.code, s'.jpc, stop);
    } else {
      assert Leaves(c, s.code, t', f', stop);
      RelinkedLeaves(c, s.code, s'.code, t', f', stop);
      RelinkedFalls(s.code, s'.code, s'.jpc, stop);
    }
  }

  lemma JoinSameOpen(s: Gen, l1: seq<nat>, l2: seq<nat>, t: seq<nat>, f: seq<nat>, o: set<nat>)
    requires AreJumps(s.code, l1) && Concat(s.code, l1, l2).Ok? &&
             (forall j :: j in l1 ==> j in t || j in f || j in s.jpc)
    requires OpenOk(s.code, OpenOf(s, t, f, o))
    ensures SameOpen(s, t, f, s.(code := Concat(s.code, l1, l2).value), t, f, o)
  {
    var s' := s.(code := Concat(s.code, l1, l2).value);
    ConcatOthers(s.code, l1, l2);
    forall j | j in l1 ensures j in OpenOf(s, t, f, o) {}
    hide Concat;
    forall i | 0 <= i < |s.code| ensures s'.code[i] == s.code[i] || (s.code[i].Jmp? && s'.code[i].Jmp?) {}
  }

  lemma HereSameOpen(s: Gen, t: seq<nat>, f: seq<nat>, cond: bool, o: set<nat>)
    requires ListsOk(s, t, f, o) && PatchToHere(s, if cond then f else t).Ok?
    ensures SameOpen(s, t, f, PatchToHere(s, if cond then f else t).value, if cond then t else [], if cond then []
            else f, o)
  {
    var held := if cond then f else t;
    var s' := PatchToHere(s, held).value;
    OpenOfJumps(s, t, f, o);
    JoinSameOpen(s, s.jpc, held, t, f, o);
    HereOpen(s, s', t, f, cond, o);
  }

  lemma HereOpen(s: Gen, s': Gen, t: seq<nat>, f: seq<nat>, cond: bool, o: set<nat>)
    requires s'.jpc == s.jpc + if cond then f else t
    ensures OpenOf(s', if cond then t else [], if cond then [] else f, o) == OpenOf(s, t, f, o)
  {
    ElemsIn(s.jpc);
    ElemsIn(s'.jpc);
    ElemsIn(t);
    ElemsIn(f);
  }

  /** The state between joining the new exit and holding the other exits. */
  ghost function Joined(s: Gen, e: Exp, l: seq<nat>, cond: bool): Gen
    requires Concat(s.code, if cond then e.t else e.f, l).Ok?
  {
    s.(code := Concat(s.code, if cond then e.t else e.f, l).value)
  }

  lemma JoinedOk(c: Ctx, s: Gen, e: Exp, s1: Gen, l: seq<nat>, cond: bool)
    requires Jumped(c, s, e, s1, l) && Concat(s1.code, if cond then e.t else e.f, l).Ok?
    ensures var s2 := Joined(s1, e, l, cond);
            GenOk(s2) && ListsOk(s2, WithT(e.t, l, cond), WithF(e.f, l, cond), c.o) && Advances(c, s, s2)
  {
    var s2 := Joined(s1, e, l, cond);
    var exits, held := if cond then e.t else e.f, if cond then e.f else e.t;
    ListsSwap(s1, e.t, e.f, c.o);
    JoinOk(s1, exits, l, held, c.o);
    hide Concat, GenOk;
    FrameLess(s.code, s1.code, Elems(e.t) + Elems(e.f) + c.o, c.o);
    FrameLess(s1.code, s2.code, Elems(s1.jpc) + Elems(held) + c.o, c.o);
    hide Frame, ListsOk;
    FrameTransitive(s.code, s1.code, s2.code, c.o);
    ListsSwap(s2, exits + l, held, c.o);
  }

  lemma HeldOk(c: Ctx, s: Gen, t: seq<nat>, f: seq<nat>, cond: bool)
    requires GenOk(s) && ListsOk(s, t, f, c.o) && PatchToHere(s, if cond then f else t).Ok?
    ensures var s' := PatchToHere(s, if cond then f else t).value;
            GenOk(s') && ListsOk(s', if cond then t else [], if cond then [] else f, c.o) && Advances(c, s, s') &&
            s'.lasttarget == |s'.code| == |s.code| && s'.freereg == s.freereg
  {
    var exits, held := if cond then t else f, if cond then f else t;
    var s' := PatchToHere(s, held).value;
    ListsSwap(s, t, f, c.o);
    OneList(s, exits, held, c.o);
    hide Threaded;
    PatchToHereOk(s, held, exits, [], c.o);
    hide PatchToHere, GenOk;
    FrameLess(s.code, s'.code, Elems(exits) + Elems([]) + c.o, c.o);
    hide Frame;
    ListsSwap(s', exits, [], c.o);
  }

  lemma OneList(s: Gen, t: seq<nat>, f: seq<nat>, o: set<nat>)
    requires ListsOk(s, t, f, o)
    ensures ListsOk(s, t, [], o) && Threaded(s.code, f)
  {
  }

  lemma GoIfOk(c: Ctx, s: Gen, e: Exp, cond: bool)
    requires Fit(c, s, e) && GoIf(s, e, cond).Ok?
    ensures var s', e' := GoIf(s, e, cond).value.0, GoIf(s, e, cond).value.1;
            GenOk(s') && ListsOk(s', e'.t, e'.f, c.o) && Advances(c, s, s') && s'.freereg == c.lo &&
            s'.lasttarget == |s'.code| && (if cond then e'.f == [] else e'.t == [])
  {
    var e1 := DischargeVars(e);
    assert !e1.kind.KLocal?;
    VarsOk(c, s, e);
    hide Fit, DischargeVars, Jumped, Leave, GenOk, ListsOk, Frame;
    LeaveOk(c, s, e1, cond);
    var s1, l := Leave(s, e1, cond).value.0, Leave(s, e1, cond).value.1;
    JoinedOk(c, s, e1, s1, l, cond);
    var s2 := Joined(s1, e1, l, cond);
    HeldOk(c, s2, WithT(e1.t, l, cond), WithF(e1.f, l, cond), cond);
    var s3 := PatchToHere(s2, if cond then e1.f else e1.t).value;
    JumpedReg(c, s, e1, s1, l);
    hide PatchToHere, Concat;
    AdvancesTransitive(c, s, s2, s3);
  }

  lemma JumpedReg(c: Ctx, s: Gen, e: Exp, s': Gen, l: seq<nat>)
    requires Jumped(c, s, e, s', l)
    ensures s'.freereg == c.lo && AreJumps(s'.code, e.t) && AreJumps(s'.code, e.f)
    ensures OpenOk(s'.code, OpenOf(s', e.t + l, e.f, c.o)) && OpenOk(s'.code, OpenOf(s', e.t, e.f + l, c.o))
  {
    forall j | j in OpenOf(s', e.t + l, e.f, c.o) || j in OpenOf(s', e.t, e.f + l, c.o)
      ensures j < |s'.code| && s'.code[j].Jmp?
    {
      assert j in s'.jpc || j in e.t || j in l || j in e.f || j in c.o;
    }
  }

  /** After `luaK_goiftrue` control goes on only when the expression is true, and leaves by its list of exits
      for false, each carrying the value, when it is false; after `luaK_goiffalse` the other way round. */
  lemma GoIfRun(c: Ctx, s: Gen, e: Exp, cond: bool)
    requires Fit(c, s, e) && Means(c, s, e) && Clean(s, e, cond) && GoIf(s, e, cond).Ok? &&
             GoIf(s, e, cond).value.0.k <= c.m.k
    ensures var s', e' := GoIf(s, e, cond).value.0, GoIf(s, e, cond).value.1;
            Decides(c, s', e'.t, e'.f, !cond)
  {
    var e1 := DischargeVars(e);
    assert !e1.kind.KLocal? && Clean(s, e1, cond);
    VarsOk(c, s, e);
    VarsRun(c, s, e);
    hide Fit, Means, DischargeVars, Jumped, Leave, GenOk, ListsOk, Frame, Decides, SameOpen, Clean;
    LeaveOk(c, s, e1, cond);
    var s1, l := Leave(s, e1, cond).value.0, Leave(s, e1, cond).value.1;
    var t, f := WithT(e1.t, l, cond), WithF(e1.f, l, cond);
    LeaveRun(c, s, e1, cond);
    JumpedReg(c, s, e1, s1, l);
    JoinedOk(c, s, e1, s1, l, cond);
    var s2 := Joined(s1, e1, l, cond);
    JoinSameOpen(s1, if cond then e1.t else e1.f, l, t, f, c.o);
    JumpedBound(c, s, e1, s1, l, cond);
    JoinDecides(c, s1, s2, t, f, !cond);
    GoIfEnd(c, s2, t, f, cond);
  }

  lemma JumpedBound(c: Ctx, s: Gen, e: Exp, s': Gen, l: seq<nat>, cond: bool)
    requires Jumped(c, s, e, s', l) && Decides(c, s', WithT(e.t, l, cond), WithF(e.f, l, cond), !cond)
    ensures 0 <= Run(c.m, s'.code, OpenOf(s', WithT(e.t, l, cond), WithF(e.f, l, cond), c.o), c.start,
                     c.regs).pc <= |s'.code|
  {
    ElemsIn(s'.jpc);
    hide Run;
  }

  lemma GoIfEnd(c: Ctx, s: Gen, t: seq<nat>, f: seq<nat>, cond: bool)
    requires GenOk(s) && ListsOk(s, t, f, c.o) && PatchToHere(s, if cond then f else t).Ok? &&
             Decides(c, s, t, f, !cond)
    ensures Decides(c, PatchToHere(s, if cond then f else t).value, if cond then t else [], if cond then [] else f,
            !cond)
  {
    DecidesBound(c, s, t, f, !cond);
    HereSameOpen(s, t, f, cond, c.o);
    HereDecides(c, s, PatchToHere(s, if cond then f else t).value, t, f, cond);
  }
}
