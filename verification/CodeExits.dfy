/** `exp2reg`: the value of an expression, with all its exits, is brought into one register. */
module CodeExits {
  import opened Seqs
  import opened LuaCode
  import opened CodeLists
  import opened CodeGen
  import opened CodeShape
  import opened CodeRuns
  import opened CodeMeaning
  import opened CodeDischarge

  function OpenOf(s: Gen, t: seq<nat>, f: seq<nat>, o: set<nat>): set<nat>
  {
    Elems(s.jpc) + Elems(t) + Elems(f) + o
  }

  /** A run comes to the end of the code with the value in the register, or, behind a comparison whose jump
      is not taken, with the value false; or it has left by an exit. */
  ghost predicate Arrives(c: Ctx, s: Gen, t: seq<nat>, f: seq<nat>, reg: nat, jmp: bool)
  {
    var stop := Run(c.m, s.code, OpenOf(s, t, f, c.o), c.start, c.regs);
    if c.out.Gives? && Falls(s.code, s.jpc, stop) then
      Keeps(c.out.r0, stop.regs, c.lo, c.hole) &&
      (if jmp then c.out.v == Bool(false) else Get(stop.regs, reg) == c.out.v)
    else Leaves(c, s.code, t, f, stop)
  }

  lemma ArrivesIsDenotes(c: Ctx, s: Gen, t: seq<nat>, f: seq<nat>, reg: nat)
    ensures Arrives(c, s, t, f, reg, false) <==> Denotes(c, s, Exp(KNonReloc(reg), t, f))
  {
    assert Body(s, KNonReloc(reg)) == s.code;
    assert OpenOf(s, t, f, c.o) == Open(s, Exp(KNonReloc(reg), t, f), c.o);
  }

  lemma OpenOfJumps(s: Gen, t: seq<nat>, f: seq<nat>, o: set<nat>)
    requires ListsOk(s, t, f, o)
    ensures OpenOk(s.code, OpenOf(s, t, f, o)) && Elems(s.jpc) <= OpenOf(s, t, f, o)
  {
    forall j | j in OpenOf(s, t, f, o) ensures j < |s.code| && s.code[j].Jmp? {
      assert j in s.jpc || j in t || j in f || j in o;
    }
  }

  lemma ArrivesBound(c: Ctx, s: Gen, t: seq<nat>, f: seq<nat>, reg: nat, jmp: bool)
    requires ListsOk(s, t, f, c.o) && Arrives(c, s, t, f, reg, jmp)
    ensures var stop := Run(c.m, s.code, OpenOf(s, t, f, c.o), c.start, c.regs);
            0 <= stop.pc <= |s.code| && (!Falls(s.code, s.jpc, stop) ==> stop.pc < |s.code|)
  {
    OpenOfJumps(s, t, f, c.o);
    ElemsIn(s.jpc);
  }

  // ----- patching one of the two exit lists -----

  /** Where exits without a value go: to a load of their truth value at the end of the code; or there are none. */
  ghost predicate TargetOk(code: seq<Instr>, l: seq<nat>, truth: bool, reg: nat, dtarget: int)
  {
    var n := |code|;
    (n >= 2 && code[n - 2] == LoadBool(reg, false, true) && code[n - 1] == LoadBool(reg, true, false) &&
     dtarget == if truth then n - 1 else n - 2) || !NeedValue(code, l)
  }

  lemma TargetsAhead(code: seq<Instr>, l: seq<nat>, truth: bool, reg: nat, dtarget: int)
    requires AreJumps(code, l) && TargetOk(code, l, truth, reg, dtarget)
    ensures forall j :: j in l ==> j < if CarriesValue(code, j) then |code| else dtarget
  {
    forall j | j in l ensures j < if CarriesValue(code, j) then |code| else dtarget {
      var i :| 0 <= i < |l| && l[i] == j;
    }
  }

  lemma PatchExitOk(c: Ctx, s: Gen, l: seq<nat>, other: seq<nat>, reg: nat, dtarget: int)
    requires GenOk(s) && ListsOk(s, l, other, c.o) && PatchList(s.code, l, |s.code|, reg, dtarget).Ok?
    ensures var s' := s.(code := PatchList(s.code, l, |s.code|, reg, dtarget).value);
            Patched(s.code, s'.code, l, |s.code|, reg, dtarget) &&
            Frame(s.code, s'.code, Elems(s.jpc) + Elems(other) + c.o) &&
            ListsOk(s', [], other, c.o) && ListsOk(s', other, [], c.o) && GenOk(s')
  {
    var n := |s.code|;
    var s' := s.(code := PatchList(s.code, l, n, reg, dtarget).value);
    PatchListEffect(s.code, l, n, reg, dtarget);
    forall j | j in s.jpc || j in other || j in c.o ensures SameJump(s.code, s'.code, j) {
      PatchedFrame(s.code, s'.code, l, n, reg, dtarget, j);
    }
    ThreadedFrame(s.code, s'.code, s.jpc);
    ThreadedFrame(s.code, s'.code, other);
    forall j | j in c.o ensures j < |s'.code| && s'.code[j].Jmp? {
      assert SameJump(s.code, s'.code, j);
    }
    if n > 0 { assert s'.code[n - 1] == PatchedInstr(s.code, l, n, reg, dtarget, n - 1); }
  }

  /** An exit that is patched stores the value and comes to the end. */
  lemma ExitArrives(c: Ctx, code: seq<Instr>, code': seq<Instr>, open: set<nat>, l: seq<nat>, truth: bool, reg: nat,
                    dtarget: int, stop: Stop)
    requires c.out.Gives? && Keeps(c.out.r0, stop.regs, c.lo, c.hole) && Exits(code, l, truth, stop, c.out.v)
    requires reg < MAXSTACK && (reg >= c.lo || reg == c.hole) && TargetOk(code, l, truth, reg, dtarget)
    requires Patched(code, code', l, |code|, reg, dtarget) && AreJumps(code, l) && OpenOk(code, open)
    ensures var now := if code[stop.pc].TestSet? then Run(c.m, code', open, |code|,
                                                          Stored(code[stop.pc], reg, stop.regs))
                       else if dtarget >= 0 then Run(c.m, code', open, dtarget, stop.regs) else stop;
            now.pc == |code| && Keeps(c.out.r0, now.regs, c.lo, c.hole) && Get(now.regs, reg) == c.out.v
  {
    var p, n := stop.pc, |code|;
    if code[p].TestSet? {
    } else {
      assert NeedValue(code, l);
      assert code'[n - 1] == PatchedInstr(code, l, n, reg, dtarget, n - 1) &&
             code'[n - 2] == PatchedInstr(code, l, n, reg, dtarget, n - 2);
      assert n - 1 !in l && n - 2 !in l;
      assert n - 1 !in open && n - 2 !in open;
    }
  }

  lemma JumpOfSame(code: seq<Instr>, code': seq<Instr>, p: int)
    requires 0 <= p < |code| && 0 <= JumpOf(code, p) < |code| && SameJump(code, code', JumpOf(code, p))
    ensures JumpOf(code', p) == JumpOf(code, p)
  {
  }

  /** A run that stopped elsewhere is not affected by patching list `l`. */
  lemma PatchPasses(c: Ctx, s: Gen, code': seq<Instr>, t: seq<nat>, f: seq<nat>, truth: bool, reg: nat, stop: Stop)
    requires ListsOk(s, t, f, c.o) && |code'| == |s.code| && JumpOf(s.code, stop.pc) !in (if truth then t else f)
    requires Frame(s.code, code', Elems(s.jpc) + Elems(if truth then f else t) + c.o)
    requires 0 <= stop.pc <= |s.code|
    requires if c.out.Gives? && Falls(s.code, s.jpc, stop)
             then Keeps(c.out.r0, stop.regs, c.lo, c.hole) && Get(stop.regs, reg) == c.out.v
             else Leaves(c, s.code, t, f, stop)
    ensures if c.out.Gives? && Falls(code', s.jpc, stop)
            then Keeps(c.out.r0, stop.regs, c.lo, c.hole) && Get(stop.regs, reg) == c.out.v
            else Leaves(c, code', if truth then [] else t, if truth then f else [], stop)
  {
    var p := stop.pc;
    hide ListsOk;
    ListsBound(s, t, f, c.o);
    if Falls(s.code, s.jpc, stop) {
      if p < |s.code| {
        var j := JumpOf(s.code, p);
        assert j in Elems(s.jpc) + Elems(if truth then f else t) + c.o;
        assert SameJump(s.code, code', j);
        JumpOfSame(s.code, code', p);
      }
      FallsGives(c, s, t, f, stop);
    } else {
      LeavesPatched(c, s, code', t, f, truth, stop);
    }
  }

  lemma ListsBound(s: Gen, t: seq<nat>, f: seq<nat>, o: set<nat>)
    requires ListsOk(s, t, f, o)
    ensures forall j :: j in s.jpc || j in t || j in f || j in o ==> j < |s.code|
  {
  }

  lemma FallsGives(c: Ctx, s: Gen, t: seq<nat>, f: seq<nat>, stop: Stop)
    requires ListsOk(s, t, f, c.o) && Falls(s.code, s.jpc, stop) && (c.out.Left? ==> Leaves(c, s.code, t, f, stop))
    ensures c.out.Gives?
  {
  }

  lemma ListsApart(s: Gen, t: seq<nat>, f: seq<nat>, o: set<nat>)
    requires ListsOk(s, t, f, o)
    ensures forall j :: j in t || j in f ==> j !in s.jpc && j !in o && !(j in t && j in f)
  {
  }

  lemma LeavesPatched(c: Ctx, s: Gen, code': seq<Instr>, t: seq<nat>, f: seq<nat>, truth: bool, stop: Stop)
    requires ListsOk(s, t, f, c.o) && |code'| == |s.code| && JumpOf(s.code, stop.pc) !in (if truth then t else f)
    requires Frame(s.code, code', Elems(s.jpc) + Elems(if truth then f else t) + c.o)
    requires Leaves(c, s.code, t, f, stop) && !Falls(s.code, s.jpc, stop)
    ensures Leaves(c, code', if truth then [] else t, if truth then f else [], stop) && !Falls(code', s.jpc, stop)
  {
    var other := if truth then f else t;
    var p := stop.pc;
    var j := JumpOf(s.code, p);
    hide Threaded;
    assert Leaves(c, s.code, if truth then [] else t, if truth then f else [], stop);
    assert j in Elems(s.jpc) + Elems(other) + c.o;
    assert SameJump(s.code, code', j);
    JumpOfSame(s.code, code', p);
    hide Leaves, Frame, SameJump;
    LeavesOther(c, s, code', t, f, truth, stop);
  }

  lemma LeavesOther(c: Ctx, s: Gen, code': seq<Instr>, t: seq<nat>, f: seq<nat>, truth: bool, stop: Stop)
    requires ListsOk(s, t, f, c.o) && Leaves(c, s.code, if truth then [] else t, if truth then f else [], stop)
    requires Frame(s.code, code', Elems(s.jpc) + Elems(if truth then f else t) + c.o)
    ensures Leaves(c, code', if truth then [] else t, if truth then f else [], stop)
  {
    var t', f' := if truth then [] else t, if truth then f else [];
    forall j | j in Elems(t') + Elems(f') + c.o ensures SameJump(s.code, code', j) {
      assert j in Elems(s.jpc) + Elems(if truth then f else t) + c.o;
    }
    LeavesCarry(c, s.code, code', t', f', stop);
  }

  lemma OpenWithout(s: Gen, t: seq<nat>, f: seq<nat>, o: set<nat>, truth: bool)
    requires ListsOk(s, t, f, o)
    ensures var l, open := if truth then t else f, OpenOf(s, t, f, o);
            OpenOf(s, if truth then [] else t, if truth then f else [], o) == open - Elems(l) && Elems(l) <= open
  {
    ElemsIn(s.jpc);
    ElemsIn(t);
    ElemsIn(f);
    hide Threaded;
    forall j | j in OpenOf(s, t, f, o) && j !in (if truth then t else f)
      ensures j in OpenOf(s, if truth then [] else t, if truth then f else [], o)
    {
    }
  }

  /** Where a run stops once one of the exit lists is patched. */
  lemma PatchExitStop(c: Ctx, s: Gen, t: seq<nat>, f: seq<nat>, truth: bool, reg: nat, dtarget: int)
    requires GenOk(s) && ListsOk(s, t, f, c.o) && Arrives(c, s, t, f, reg, false)
    requires TargetOk(s.code, if truth then t else f, truth, reg, dtarget)
    requires PatchList(s.code, if truth then t else f, |s.code|, reg, dtarget).Ok?
    ensures var l, stop := if truth then t else f, Run(c.m, s.code, OpenOf(s, t, f, c.o), c.start, c.regs);
            var s' := s.(code := PatchList(s.code, l, |s.code|, reg, dtarget).value);
            var open' := OpenOf(s', if truth then [] else t, if truth then f else [], c.o);
            var now := Run(c.m, s'.code, open', c.start, c.regs);
            0 <= stop.pc <= |s.code| && OpenOk(s.code, open') &&
            if JumpOf(s.code, stop.pc) !in l then now == stop
            else if stop.pc < |s.code| && s.code[stop.pc].TestSet? then
              now == Run(c.m, s'.code, open', |s.code|, Stored(s.code[stop.pc], reg, stop.regs))
            else
              var target := if CarriesValue(s.code, stop.pc) then |s.code| else dtarget;
              target >= 0 && now == Run(c.m, s'.code, open', target, stop.regs)
  {
    var l := if truth then t else f;
    var n, open := |s.code|, OpenOf(s, t, f, c.o);
    var s' := s.(code := PatchList(s.code, l, n, reg, dtarget).value);
    OpenOfJumps(s, t, f, c.o);
    ArrivesBound(c, s, t, f, reg, false);
    TargetsAhead(s.code, l, truth, reg, dtarget);
    PatchListEffect(s.code, l, n, reg, dtarget);
    hide Patched, PatchList, GenOk, Arrives;
    OpenWithout(s, t, f, c.o, truth);
    assert OpenOf(s', if truth then [] else t, if truth then f else [], c.o) ==
           OpenOf(s, if truth then [] else t, if truth then f else [], c.o);
    hide ListsOk, OpenOf, TargetOk;
    PatchRun(c.m, s.code, s'.code, open, l, n, reg, dtarget, c.start, c.regs);
  }

  lemma PatchExitRun(c: Ctx, s: Gen, t: seq<nat>, f: seq<nat>, truth: bool, reg: nat, dtarget: int)
    requires GenOk(s) && ListsOk(s, t, f, c.o) && Arrives(c, s, t, f, reg, false)
    requires reg < MAXSTACK && (reg >= c.lo || reg == c.hole) &&
             TargetOk(s.code, if truth then t else f, truth, reg, dtarget)
    requires PatchList(s.code, if truth then t else f, |s.code|, reg, dtarget).Ok?
    ensures var s' := s.(code := PatchList(s.code, if truth then t else f, |s.code|, reg, dtarget).value);
            Arrives(c, s', if truth then [] else t, if truth then f else [], reg, false)
  {
    var l, other := if truth then t else f, if truth then f else t;
    var n := |s.code|;
    var s' := s.(code := PatchList(s.code, l, n, reg, dtarget).value);
    var t', f' := if truth then [] else t, if truth then f else [];
    var open' := OpenOf(s', t', f', c.o);
    var stop := Run(c.m, s.code, OpenOf(s, t, f, c.o), c.start, c.regs);
    PatchExitStop(c, s, t, f, truth, reg, dtarget);
    ListsSwap(s, t, f, c.o);
    PatchExitOk(c, s, l, other, reg, dtarget);
    assert AreJumps(s.code, l);
    hide Patched, Frame, Run, TargetOk, GenOk, ListsOk, PatchList, OpenOf, OpenOk, AreJumps;
    if JumpOf(s.code, stop.pc) !in l {
      PatchPasses(c, s, s'.code, t, f, truth, reg, stop);
    } else {
      PatchedExit(c, s, t, f, truth, reg, stop);
      ExitArrives(c, s.code, s'.code, open', l, truth, reg, dtarget, stop);
    }
  }

  lemma ListsSwap(s: Gen, t: seq<nat>, f: seq<nat>, o: set<nat>)
    requires ListsOk(s, t, f, o)
    ensures ListsOk(s, f, t, o)
  {
  }

  lemma PatchedExit(c: Ctx, s: Gen, t: seq<nat>, f: seq<nat>, truth: bool, reg: nat, stop: Stop)
    requires ListsOk(s, t, f, c.o) && 0 <= stop.pc <= |s.code| && JumpOf(s.code, stop.pc) in (if truth then t else f)
    requires if c.out.Gives? && Falls(s.code, s.jpc, stop)
             then Keeps(c.out.r0, stop.regs, c.lo, c.hole) && Get(stop.regs, reg) == c.out.v
             else Leaves(c, s.code, t, f, stop)
    ensures c.out.Gives? && Keeps(c.out.r0, stop.regs, c.lo, c.hole) &&
            Exits(s.code, if truth then t else f, truth, stop, c.out.v)
    ensures stop.pc < |s.code| && (!s.code[stop.pc].TestSet? ==> !CarriesValue(s.code, stop.pc))
  {
    hide ListsOk, Keeps, Get;
    ListsBound(s, t, f, c.o);
    ListsApart(s, t, f, c.o);
    var j := JumpOf(s.code, stop.pc);
    assert j !in s.jpc && j !in c.o && j !in (if truth then f else t) && j < |s.code|;
    assert !Falls(s.code, s.jpc, stop);
    if c.out.Gives? {
      if truth {
        assert !Exits(s.code, f, false, stop, c.out.v);
      } else {
        assert !Exits(s.code, t, true, stop, c.out.v);
      }
    }
  }

  // ----- the loads of false and true -----

  /** Code put behind: runs that had come to the end go on with it. */
  lemma AppendRun(m: Machine, code: seq<Instr>, tail: seq<Instr>, open: set<nat>, open': set<nat>, start: nat,
                  regs: seq<Value>)
    requires OpenOk(code, open) && open <= open' && (|code| !in open' || code == [] || !IsTest(code[|code| - 1]))
    requires (forall i :: i in open' && i < |code| ==> i in open) && 0 <= Run(m, code, open, start, regs).pc <= |code|
    ensures var stop := Run(m, code, open, start, regs);
            Run(m, code + tail, open', start, regs) ==
              if stop.pc == |code| then Run(m, code + tail, open', |code|, stop.regs) else stop
  {
    var stop := Run(m, code, open, start, regs);
    AppendContinues(code, tail, open, open', start);
    Continue(m, code, open, code + tail, open', start, start, regs);
    hide Continues;
    if stop.pc < |code| {
      RunStops(m, code, open, start, regs);
      assert code[stop.pc].TestSet? ==> stop.pc !in open';
      StoppedStays(m, code, tail, open', stop);
    }
  }

  lemma LoadBoolsCode(s: Gen, e: Exp, reg: nat)
    requires LoadBools(s, e, reg).Ok? && (e.kind.KJmp? ==> s.jpc == [])
    ensures var s', n, loads := LoadBools(s, e, reg).value, |s.code|,
                [LoadBool(reg, false, true), LoadBool(reg, true, false)];
            if e.kind.KJmp? then s' == s.(code := s.code + loads, lasttarget := n + 2)
            else Jump(s).Ok? && var code := Jump(s).value.0.code;
                 s' == s.(code := code + loads, jpc := [n] + s.jpc, lasttarget := |code| + 2)
  {
    var s1 := if e.kind.KJmp? then s else Jump(s).value.0;
    assert s1.jpc == [];
    assert s1.code + [LoadBool(reg, false, true)] + [LoadBool(reg, true, false)] ==
           s1.code + [LoadBool(reg, false, true), LoadBool(reg, true, false)];
  }

  /** Lists are not affected by code put behind. */
  lemma AppendOk(s: Gen, tail: seq<Instr>, l: seq<nat>, t: seq<nat>, f: seq<nat>, o: set<nat>)
    requires ListsOk(s, t, f, o) && s.jpc == [] && Threaded(s.code, l) && Apart(l, t) && Apart(l, f) &&
             (forall j :: j in l ==> j !in o)
    ensures ListsOk(s.(code := s.code + tail, jpc := l), t, f, o)
  {
    ThreadedFrame(s.code, s.code + tail, l);
    ThreadedFrame(s.code, s.code + tail, t);
    ThreadedFrame(s.code, s.code + tail, f);
  }

  lemma AppendFrame(code: seq<Instr>, code1: seq<Instr>, tail: seq<Instr>, o: set<nat>)
    requires Frame(code, code1, o)
    ensures Frame(code, code1 + tail, o)
  {
    forall j | j in o ensures SameJump(code, code1 + tail, j) {
      assert SameJump(code, code1, j);
    }
  }

  lemma LoadBoolsOk(c: Ctx, s: Gen, e: Exp, reg: nat)
    requires GenOk(s) && ListsOk(s, e.t, e.f, c.o) && (e.kind.KJmp? ==> s.jpc == []) && LoadBools(s, e, reg).Ok?
    ensures var s' := LoadBools(s, e, reg).value;
            GenOk(s') && ListsOk(s', e.t, e.f, c.o) && Extends(s, s') && s'.lasttarget == |s'.code| &&
            |s'.code| >= 2 + |s.code| &&
            s'.code[|s'.code| - 2] == LoadBool(reg, false, true) &&
            s'.code[|s'.code| - 1] == LoadBool(reg, true, false) &&
            Frame(s.code, s'.code, Elems(e.t) + Elems(e.f) + c.o)
  {
    LoadBoolsCode(s, e, reg);
    var s', loads := LoadBools(s, e, reg).value, [LoadBool(reg, false, true), LoadBool(reg, true, false)];
    if e.kind.KJmp? {
      FrameSelf(s, e, c.o);
      hide ListsOk, LoadBools, Frame, Jump;
      EmptyThreaded(s.code);
      AppendOk(s, loads, [], e.t, e.f, c.o);
      AppendFrame(s.code, s.code, loads, Elems(e.t) + Elems(e.f) + c.o);
      SameLists(s.(code := s.code + loads, jpc := []), s', e.t, e.f, c.o);
    } else {
      JumpOk(s, e.t, e.f, c.o);
      var s1, l := Jump(s).value.0, Jump(s).value.1;
      hide ListsOk, LoadBools, Frame, Jump;
      AppendOk(s1, loads, l, e.t, e.f, c.o);
      AppendFrame(s.code, s1.code, loads, Elems(e.t) + Elems(e.f) + c.o);
      SameLists(s1.(code := s1.code + loads, jpc := l), s', e.t, e.f, c.o);
    }
  }

  lemma EmptyThreaded(code: seq<Instr>)
    ensures Threaded(code, [])
  {
  }

  lemma SameLists(s: Gen, s': Gen, t: seq<nat>, f: seq<nat>, o: set<nat>)
    requires ListsOk(s, t, f, o) && s'.code == s.code && s'.jpc == s.jpc
    ensures ListsOk(s', t, f, o)
  {
  }

  lemma LoadBoolsStop(c: Ctx, s: Gen, s': Gen, e: Exp, reg: nat, tail: seq<Instr>)
    requires GenOk(s) && ListsOk(s, e.t, e.f, c.o) && Frame(s.code, s'.code, Elems(e.t) + Elems(e.f) + c.o)
    requires Arrives(c, s, e.t, e.f, reg, e.kind.KJmp?) && reg < MAXSTACK && (reg >= c.lo || reg == c.hole)
    requires s'.code == s.code + tail
    requires var loads := [LoadBool(reg, false, true), LoadBool(reg, true, false)];
             if e.kind.KJmp? then tail == loads && s.jpc == s'.jpc == []
             else |tail| == 3 && tail[0].Jmp? && tail[1..] == loads && s'.jpc == [|s.code|] + s.jpc
    ensures Arrives(c, s', e.t, e.f, reg, false)
  {
    var n, open, open' := |s.code|, OpenOf(s, e.t, e.f, c.o), OpenOf(s', e.t, e.f, c.o);
    var stop := Run(c.m, s.code, open, c.start, c.regs);
    OpenOfJumps(s, e.t, e.f, c.o);
    ArrivesBound(c, s, e.t, e.f, reg, e.kind.KJmp?);
    assert open' == if e.kind.KJmp? then open else open + {n} by {
      ElemsIn(s.jpc); ElemsIn(s'.jpc);
    }
    assert n !in open;
    AppendRun(c.m, s.code, tail, open, open', c.start, c.regs);
    if stop.pc == n {
      if e.kind.KJmp? {
        assert s'.code[n] == tail[0];
        var regs' := Set(stop.regs, reg, Bool(false));
        assert Run(c.m, s'.code, open', n, stop.regs) == Run(c.m, s'.code, open', n + 2, regs');
      } else {
        assert Run(c.m, s'.code, open', n, stop.regs) == stop && JumpOf(s'.code, n) == n && n in s'.jpc;
      }
    } else {
      assert JumpOf(s'.code, stop.pc) == JumpOf(s.code, stop.pc);
      LoadBoolsLeft(c, s, s', e, reg, stop);
    }
  }

  lemma LoadBoolsLeft(c: Ctx, s: Gen, s': Gen, e: Exp, reg: nat, stop: Stop)
    requires GenOk(s) && ListsOk(s, e.t, e.f, c.o) && Frame(s.code, s'.code, Elems(e.t) + Elems(e.f) + c.o)
    requires if c.out.Gives? && Falls(s.code, s.jpc, stop) then
               Keeps(c.out.r0, stop.regs, c.lo, c.hole) &&
               (if e.kind.KJmp? then c.out.v == Bool(false) else Get(stop.regs, reg) == c.out.v)
             else Leaves(c, s.code, e.t, e.f, stop)
    requires 0 <= stop.pc < |s.code| <= |s'.code| - 2 && JumpOf(s'.code, stop.pc) == JumpOf(s.code, stop.pc)
    requires if e.kind.KJmp? then s.jpc == s'.jpc == [] else s'.jpc == [|s.code|] + s.jpc
    ensures if c.out.Gives? && Falls(s'.code, s'.jpc, stop)
            then Keeps(c.out.r0, stop.regs, c.lo, c.hole) && Get(stop.regs, reg) == c.out.v
            else Leaves(c, s'.code, e.t, e.f, stop)
  {
    if !Falls(s.code, s.jpc, stop) {
      LeavesCarry(c, s.code, s'.code, e.t, e.f, stop);
    }
  }

  lemma LoadBoolsRun(c: Ctx, s: Gen, e: Exp, reg: nat)
    requires GenOk(s) && ListsOk(s, e.t, e.f, c.o) && (e.kind.KJmp? ==> s.jpc == []) && LoadBools(s, e, reg).Ok?
    requires Arrives(c, s, e.t, e.f, reg, e.kind.KJmp?) && reg < MAXSTACK && (reg >= c.lo || reg == c.hole)
    ensures Arrives(c, LoadBools(s, e, reg).value, e.t, e.f, reg, false)
  {
    var s', n, loads := LoadBools(s, e, reg).value, |s.code|, [LoadBool(reg, false, true), LoadBool(reg, true, false)];
    LoadBoolsCode(s, e, reg);
    LoadBoolsOk(c, s, e, reg);
    if !e.kind.KJmp? { JumpOk(s, e.t, e.f, c.o); }
    var tail := if e.kind.KJmp? then loads else [Jump(s).value.0.code[n]] + loads;
    hide LoadBools, Jump, Arrives, Frame, ListsOk, GenOk;
    assert s'.code == s.code + tail;
    LoadBoolsStop(c, s, s', e, reg, tail);
  }

  // ----- exp2reg -----

  /** The jump of a comparison joins the exits for true. */
  lemma GatherOk(c: Ctx, s: Gen, e: Exp)
    requires Placed(c.m, s, e, c.o) && e.kind.KJmp? && Concat(s.code, e.t, [e.kind.pc]).Ok?
    ensures var s', t := s.(code := Concat(s.code, e.t, [e.kind.pc]).value), e.t + [e.kind.pc];
            GenOk(s') && ListsOk(s', t, e.f, c.o) && |s'.code| == |s.code| &&
            Frame(s.code, s'.code, Elems(e.f) + c.o) &&
            (forall i :: 0 <= i < |s.code| && i !in e.t ==> s'.code[i] == s.code[i])
  {
    JoinOk(s, e.t, [e.kind.pc], e.f, c.o);
    ElemsIn(s.jpc);
    assert Elems(s.jpc) + Elems(e.f) + c.o == Elems(e.f) + c.o;
  }

  /** Running a comparison at the end of the code, with its jump open. */
  lemma CompareRun(c: Ctx, s: Gen, e: Exp)
    requires Placed(c.m, s, e, c.o) && e.kind.KJmp? && 0 <= StopOf(c, s, e).pc <= |s.code| - 2
    ensures var t, n, stop := e.t + [e.kind.pc], |s.code|, StopOf(c, s, e);
            Run(c.m, s.code, Open(s, e, c.o) + {e.kind.pc}, c.start, c.regs) ==
              if stop.pc == n - 2 then Stop(if Passes(c.m, s.code[n - 2], stop.regs) then n - 1 else n, stop.regs)
              else stop
  {
    hide *;
    var n, pc, stop := |s.code|, e.kind.pc, StopOf(c, s, e);
    var body, open := Body(s, e.kind), Open(s, e, c.o);
    OpenJumps(c.m, s, e, c.o);
    JmpFacts(c, s, e);
    StopIsRun(c, s, e);
    AppendTwo(c.m, body, s.code[n - 2], s.code[n - 1], open, c.start, c.regs);
    TwoLast(c.m, s.code, open + {pc}, stop.regs);
  }

  lemma AppendTwo(m: Machine, code: seq<Instr>, i: Instr, jump: Instr, open: set<nat>, start: nat, regs: seq<Value>)
    requires OpenOk(code, open) && 0 <= Run(m, code, open, start, regs).pc <= |code|
    ensures var stop := Run(m, code, open, start, regs);
            |code| !in open + {|code| + 1} && Run(m, code + [i, jump], open + {|code| + 1}, start, regs) ==
              if stop.pc == |code| then Run(m, code + [i, jump], open + {|code| + 1}, |code|, stop.regs) else stop
  {
    hide Run;
    AppendRun(m, code, [i, jump], open, open + {|code| + 1}, start, regs);
  }

  lemma TwoLast(m: Machine, code: seq<Instr>, open: set<nat>, regs: seq<Value>)
    requires |code| >= 2 && code[|code| - 2].Compare? && |code| - 1 in open && |code| - 2 !in open
    ensures Run(m, code, open, |code| - 2, regs) ==
            Stop(if Passes(m, code[|code| - 2], regs) then |code| - 1 else |code|, regs)
  {
    assert Run(m, code, open, |code|, regs) == Stop(|code|, regs);
    assert Run(m, code, open, |code| - 1, regs) == Stop(|code| - 1, regs);
  }

  lemma GatherRun(c: Ctx, s: Gen, e: Exp)
    requires Placed(c.m, s, e, c.o) && e.kind.KJmp? && Denotes(c, s, e)
    ensures var t, n, stop := e.t + [e.kind.pc], |s.code|, StopOf(c, s, e);
            0 <= stop.pc <= n - 2 && OpenOk(s.code, OpenOf(s, t, e.f, c.o)) && Elems(e.t) <= OpenOf(s, t, e.f, c.o) &&
            Run(c.m, s.code, OpenOf(s, t, e.f, c.o), c.start, c.regs) ==
              if stop.pc == n - 2 then Stop(if Passes(c.m, s.code[n - 2], stop.regs) then n - 1 else n, stop.regs)
              else stop
  {
    var t := e.t + [e.kind.pc];
    OpenJumps(c.m, s, e, c.o);
    StopBound(c, s, e);
    CompareRun(c, s, e);
    hide Denotes, StopOf, Run;
    assert OpenOf(s, t, e.f, c.o) == Open(s, e, c.o) + {e.kind.pc} by {
      ElemsIn(e.t); ElemsIn(t);
    }
  }

  lemma GatherLinks(c: Ctx, s: Gen, e: Exp)
    requires Placed(c.m, s, e, c.o) && e.kind.KJmp? && Concat(s.code, e.t, [e.kind.pc]).Ok? && Denotes(c, s, e)
    ensures var s', t := s.(code := Concat(s.code, e.t, [e.kind.pc]).value), e.t + [e.kind.pc];
            Run(c.m, s'.code, OpenOf(s', t, e.f, c.o), c.start, c.regs) ==
            Run(c.m, s.code, OpenOf(s, t, e.f, c.o), c.start, c.regs)
  {
    var s', t := s.(code := Concat(s.code, e.t, [e.kind.pc]).value), e.t + [e.kind.pc];
    var open := OpenOf(s, t, e.f, c.o);
    GatherRun(c, s, e);
    GatherOk(c, s, e);
    assert OpenOf(s', t, e.f, c.o) == open;
    OpenOfJumps(s', t, e.f, c.o);
    hide Placed, Denotes, Concat, OpenOf, ListsOk, OpenOk, Frame, GenOk;
    ElemsIn(e.t);
    assert forall i :: 0 <= i < |s.code| && i !in open ==> i !in Elems(e.t);
    LinksRun(c.m, s.code, s'.code, open, c.start, c.regs);
  }

  lemma GatherArrives(c: Ctx, s: Gen, e: Exp, reg: nat)
    requires Placed(c.m, s, e, c.o) && e.kind.KJmp? && Concat(s.code, e.t, [e.kind.pc]).Ok? && Denotes(c, s, e)
    ensures var s', t := s.(code := Concat(s.code, e.t, [e.kind.pc]).value), e.t + [e.kind.pc];
            Arrives(c, s', t, e.f, reg, true)
  {
    var n, stop := |s.code|, StopOf(c, s, e);
    var s', t := s.(code := Concat(s.code, e.t, [e.kind.pc]).value), e.t + [e.kind.pc];
    hide *;
    GatherRun(c, s, e);
    GatherLinks(c, s, e);
    GatherOk(c, s, e);
    JmpFacts(c, s, e);
    DenotesJmp(c, s, e);
    if stop.pc == n - 2 {
      assert s'.code[n - 2] == s.code[n - 2] && s'.code[n - 1] == s.code[n - 1];
      GatherFalls(c, s', t, e.f, reg, stop);
    } else {
      GatherLeaves(c, s, e, s', stop);
      GatherLeft(c, s', t, e.f, reg, stop);
    }
  }

  lemma DenotesJmp(c: Ctx, s: Gen, e: Exp)
    requires Denotes(c, s, e) && e.kind.KJmp? && |s.code| >= 2 && e.kind.pc == |s.code| - 1 && s.jpc == []
    ensures var n, stop := |s.code|, StopOf(c, s, e);
            if stop.pc == n - 2 then
              c.out.Gives? && Keeps(c.out.r0, stop.regs, c.lo, c.hole) && s.code[n - 2].Compare? &&
              c.out.v == Bool(Passes(c.m, s.code[n - 2], stop.regs))
            else Leaves(c, Body(s, e.kind), e.t, e.f, stop)
  {
    hide Run;
  }

  lemma GatherFalls(c: Ctx, s: Gen, t: seq<nat>, f: seq<nat>, reg: nat, stop: Stop)
    requires var n := |s.code|; n >= 2 && s.code[n - 1].Jmp? && s.code[n - 2].Compare? && n - 1 in t && s.jpc == []
    requires c.out.Gives? && Keeps(c.out.r0, stop.regs, c.lo, c.hole) &&
             c.out.v == Bool(Passes(c.m, s.code[|s.code| - 2], stop.regs))
    requires Run(c.m, s.code, OpenOf(s, t, f, c.o), c.start, c.regs) ==
             Stop(if Passes(c.m, s.code[|s.code| - 2], stop.regs) then |s.code| - 1 else |s.code|, stop.regs)
    ensures Arrives(c, s, t, f, reg, true)
  {
    hide Run;
    GatherExit(s.code, t, Run(c.m, s.code, OpenOf(s, t, f, c.o), c.start, c.regs));
  }

  lemma GatherLeft(c: Ctx, s: Gen, t: seq<nat>, f: seq<nat>, reg: nat, stop: Stop)
    requires Leaves(c, s.code, t, f, stop) && stop.pc < |s.code| && s.jpc == []
    requires Run(c.m, s.code, OpenOf(s, t, f, c.o), c.start, c.regs) == stop
    ensures Arrives(c, s, t, f, reg, true)
  {
    hide Run;
  }

  lemma GatherExit(code: seq<Instr>, t: seq<nat>, now: Stop)
    requires |code| >= 2 && code[|code| - 1].Jmp? && code[|code| - 2].Compare? && |code| - 1 in t
    ensures now.pc == |code| - 1 ==> Exits(code, t, true, now, Bool(true))
  {
  }

  lemma GatherLeaves(c: Ctx, s: Gen, e: Exp, s': Gen, stop: Stop)
    requires Placed(c.m, s, e, c.o) && e.kind.KJmp? && Leaves(c, Body(s, e.kind), e.t, e.f, stop)
    requires |s'.code| == |s.code| && ListsOk(s', e.t + [e.kind.pc], e.f, c.o) && stop.pc < |s.code| - 2
    requires (forall i :: 0 <= i < |s.code| && i !in e.t ==> s'.code[i] == s.code[i]) && s'.jpc == []
    ensures Leaves(c, s'.code, e.t + [e.kind.pc], e.f, stop)
  {
    var p, body, code', t := stop.pc, Body(s, e.kind), s'.code, e.t + [e.kind.pc];
    forall i | 0 <= i < |body| ensures code'[i] == body[i] || (code'[i].Jmp? && body[i].Jmp?) {
      if i in e.t { assert i in t; }
    }
    assert code'[p].TestSet? ==> code'[p] == body[p];
    assert CarriesValue(code', p) == CarriesValue(body, p) by {
      if p >= 1 { assert code'[p - 1] == body[p - 1] || (code'[p - 1].Jmp? && body[p - 1].Jmp?); }
    }
    if c.out.Gives? && Exits(body, e.t, true, stop, c.out.v) {
      assert Exits(code', t, true, stop, c.out.v);
    }
  }

  lemma PatchExitsOk(c: Ctx, s: Gen, e: Exp, reg: nat, pf: int, pt: int)
    requires GenOk(s) && ListsOk(s, e.t, e.f, c.o) && PatchExits(s, e, reg, pf, pt).Ok?
    ensures var s' := PatchExits(s, e, reg, pf, pt).value;
            GenOk(s') && ListsOk(s', [], [], c.o) && Extends(s, s') && |s'.code| == |s.code| == s'.lasttarget &&
            Frame(s.code, s'.code, c.o)
  {
    var n := |s.code|;
    var s1 := s.(code := PatchList(s.code, e.f, n, reg, pf).value);
    ListsSwap(s, e.t, e.f, c.o);
    PatchExitOk(c, s, e.f, e.t, reg, pf);
    PatchExitOk(c, s1, e.t, [], reg, pt);
    var s2 := s1.(code := PatchList(s1.code, e.t, n, reg, pt).value);
    hide PatchList, Patched, GenOk;
    FrameLess(s.code, s1.code, Elems(s.jpc) + Elems(e.t) + c.o, c.o);
    FrameLess(s1.code, s2.code, Elems(s.jpc) + Elems([]) + c.o, c.o);
    FrameTransitive(s.code, s1.code, s2.code, c.o);
    hide Frame, ListsOk;
    var s' := PatchExits(s, e, reg, pf, pt).value;
    SameLists(s2, s', [], [], c.o);
    LabelOk(s2);
  }

  lemma LabelOk(s: Gen)
    requires GenOk(s)
    ensures GenOk(GetLabel(s))
  {
  }

  lemma FrameLess(code: seq<Instr>, code': seq<Instr>, o: set<nat>, o': set<nat>)
    requires Frame(code, code', o) && o' <= o
    ensures Frame(code, code', o')
  {
  }

  lemma PatchExitsRun(c: Ctx, s: Gen, e: Exp, reg: nat, pf: int, pt: int)
    requires GenOk(s) && ListsOk(s, e.t, e.f, c.o) && PatchExits(s, e, reg, pf, pt).Ok? &&
             Arrives(c, s, e.t, e.f, reg, false)
    requires TargetOk(s.code, e.f, false, reg, pf) && TargetOk(s.code, e.t, true, reg, pt)
    requires reg < MAXSTACK && (reg >= c.lo || reg == c.hole)
    ensures Arrives(c, PatchExits(s, e, reg, pf, pt).value, [], [], reg, false)
  {
    var n := |s.code|;
    var s1 := s.(code := PatchList(s.code, e.f, n, reg, pf).value);
    var s2 := s1.(code := PatchList(s1.code, e.t, n, reg, pt).value);
    ListsSwap(s, e.t, e.f, c.o);
    PatchExitOk(c, s, e.f, e.t, reg, pf);
    TargetCarries(c, s, s1, e, reg, pf, pt);
    hide PatchList, Patched, GenOk, ListsOk, Arrives, TargetOk, Frame;
    PatchExitRun(c, s, e.t, e.f, false, reg, pf);
    PatchExitRun(c, s1, e.t, [], true, reg, pt);
    SameArrives(c, s2, PatchExits(s, e, reg, pf, pt).value, reg);
  }

  lemma SameArrives(c: Ctx, s: Gen, s': Gen, reg: nat)
    requires Arrives(c, s, [], [], reg, false) && s'.code == s.code && s'.jpc == s.jpc
    ensures Arrives(c, s', [], [], reg, false)
  {
  }

  lemma TargetCarries(c: Ctx, s: Gen, s1: Gen, e: Exp, reg: nat, pf: int, pt: int)
    requires ListsOk(s, e.t, e.f, c.o) && Patched(s.code, s1.code, e.f, |s.code|, reg, pf)
    requires Frame(s.code, s1.code, Elems(s.jpc) + Elems(e.t) + c.o) && TargetOk(s.code, e.t, true, reg, pt)
    ensures TargetOk(s1.code, e.t, true, reg, pt)
  {
    var n := |s.code|;
    if !NeedValue(s.code, e.t) {
      hide ListsOk, Patched;
      forall j | j in e.t ensures CarriesValue(s1.code, j) {
        assert j in Elems(s.jpc) + Elems(e.t) + c.o;
        assert SameJump(s.code, s1.code, j) && CarriesValue(s.code, j);
      }
    } else {
      assert n - 1 !in e.f && n - 2 !in e.f;
      hide ListsOk, Frame, NeedValue;
      assert s1.code[n - 1] == PatchedInstr(s.code, e.f, n, reg, pf, n - 1) &&
             s1.code[n - 2] == PatchedInstr(s.code, e.f, n, reg, pf, n - 2);
    }
  }

  lemma HeadsDiffer(t: seq<nat>, f: seq<nat>)
    requires Apart(t, f)
    ensures t != [] || f != [] ==> Head(t) != Head(f)
  {
    if t != [] { assert t[0] in t; }
  }

  lemma NoJumps(m: Machine, s: Gen, e: Exp, o: set<nat>)
    requires ListsOk(s, e.t, e.f, o) && !HasJumps(e)
    ensures e.t == [] && e.f == []
  {
    HeadsDiffer(e.t, e.f);
  }

  lemma CloseExitsOk(c: Ctx, s: Gen, e: Exp, reg: nat)
    requires GenOk(s) && ListsOk(s, e.t, e.f, c.o) && (e.kind.KJmp? ==> s.jpc == []) && CloseExits(s, e, reg).Ok?
    ensures var s' := CloseExits(s, e, reg).value;
            GenOk(s') && ListsOk(s', [], [], c.o) && Extends(s, s') && Frame(s.code, s'.code, c.o)
  {
    hide GenOk, ListsOk, Frame, LoadBools, PatchExits;
    if !HasJumps(e) {
      NoJumps(c.m, s, e, c.o);
      FrameSelf(s, e, c.o);
      FrameLess(s.code, s.code, Elems(e.t) + Elems(e.f) + c.o, c.o);
    } else if NeedValue(s.code, e.t) || NeedValue(s.code, e.f) {
      LoadBoolsOk(c, s, e, reg);
      var s1 := LoadBools(s, e, reg).value;
      PatchExitsOk(c, s1, e, reg, |s1.code| - 2, |s1.code| - 1);
      FrameLess(s.code, s1.code, Elems(e.t) + Elems(e.f) + c.o, c.o);
      FrameTransitive(s.code, s1.code, PatchExits(s1, e, reg, |s1.code| - 2, |s1.code| - 1).value.code, c.o);
    } else {
      PatchExitsOk(c, s, e, reg, NO_JUMP, NO_JUMP);
    }
  }

  lemma CloseExitsRun(c: Ctx, s: Gen, e: Exp, reg: nat)
    requires GenOk(s) && ListsOk(s, e.t, e.f, c.o) && (e.kind.KJmp? ==> s.jpc == [] && NeedValue(s.code, e.t)) &&
             CloseExits(s, e, reg).Ok?
    requires Arrives(c, s, e.t, e.f, reg, e.kind.KJmp?) && reg < MAXSTACK && (reg >= c.lo || reg == c.hole)
    ensures Arrives(c, CloseExits(s, e, reg).value, [], [], reg, false)
  {
    hide LoadBools, GenOk, ListsOk, Arrives, PatchExits, CarriesValue;
    if !HasJumps(e) {
      NoJumps(c.m, s, e, c.o);
    } else if NeedValue(s.code, e.t) || NeedValue(s.code, e.f) {
      LoadBoolsOk(c, s, e, reg);
      LoadBoolsRun(c, s, e, reg);
      var s1 := LoadBools(s, e, reg).value;
      hide NeedValue;
      PatchExitsRun(c, s1, e, reg, |s1.code| - 2, |s1.code| - 1);
    } else {
      PatchExitsRun(c, s, e, reg, NO_JUMP, NO_JUMP);
    }
  }

  lemma JmpFacts(c: Ctx, s: Gen, e: Exp)
    requires Placed(c.m, s, e, c.o) && e.kind.KJmp?
    ensures var n := |s.code|;
            n >= 2 && e.kind.pc == n - 1 && s.code[n - 1] == Jmp(NO_JUMP) && s.code[n - 2].Compare? && s.jpc == [] &&
            n - 1 !in Open(s, e, c.o) && n - 1 !in e.t && n - 2 !in e.t && Body(s, e.kind) == s.code[..n - 2] &&
            s.code == Body(s, e.kind) + [s.code[n - 2], s.code[n - 1]]
  {
  }

  lemma StopIsRun(c: Ctx, s: Gen, e: Exp)
    ensures StopOf(c, s, e) == Run(c.m, Body(s, e.kind), Open(s, e, c.o), c.start, c.regs)
  {
  }

  lemma GatherNeeds(c: Ctx, s: Gen, e: Exp)
    requires Placed(c.m, s, e, c.o) && e.kind.KJmp? && Concat(s.code, e.t, [e.kind.pc]).Ok?
    ensures s.jpc == [] && NeedValue(Concat(s.code, e.t, [e.kind.pc]).value, e.t + [e.kind.pc])
  {
    var code', t := Concat(s.code, e.t, [e.kind.pc]).value, e.t + [e.kind.pc];
    JmpFacts(c, s, e);
    GatherOk(c, s, e);
    hide Placed, Concat, ListsOk, GenOk, Frame;
    assert e.kind.pc in t && !CarriesValue(code', e.kind.pc);
  }

  lemma GatherExitsOk(c: Ctx, s: Gen, e: Exp, reg: nat)
    requires Placed(c.m, s, e, c.o) && reg < MAXSTACK && GatherExits(s, e, reg).Ok?
    ensures var s', e' := GatherExits(s, e, reg).value.0, GatherExits(s, e, reg).value.1;
            GenOk(s') && ListsOk(s', e'.t, e'.f, c.o) && Extends(s, s') && Frame(s.code, s'.code, c.o) &&
            e'.kind == (if e.kind.KJmp? then e.kind else KNonReloc(reg)) &&
            (e.kind.KJmp? ==> s'.jpc == [] && NeedValue(s'.code, e'.t))
  {
    hide Frame, ListsOk, GenOk, Concat, Placed;
    if e.kind.KJmp? {
      GatherOk(c, s, e);
      GatherNeeds(c, s, e);
      var s' := s.(code := Concat(s.code, e.t, [e.kind.pc]).value);
      FrameLess(s.code, s'.code, Elems(e.f) + c.o, c.o);
    } else {
      DischargeToRegOk(c, s, e, reg);
      hide DischargeToReg;
      FrameLess(s.code, DischargeToReg(s, e, reg).value.0.code, Elems(e.t) + Elems(e.f) + c.o, c.o);
      PlacedLists(c.m, DischargeToReg(s, e, reg).value.0, DischargeToReg(s, e, reg).value.1, c.o);
    }
  }

  lemma PlacedLists(m: Machine, s: Gen, e: Exp, o: set<nat>)
    requires Placed(m, s, e, o)
    ensures GenOk(s) && ListsOk(s, e.t, e.f, o)
  {
  }

  lemma GatherExitsRun(c: Ctx, s: Gen, e: Exp, reg: nat)
    requires Placed(c.m, s, e, c.o) && reg < MAXSTACK && (reg >= c.lo || reg == c.hole) && GatherExits(s, e, reg).Ok?
    requires Denotes(c, s, e) && NilsOk(c, s, e) && GatherExits(s, e, reg).value.0.k <= c.m.k
    ensures var s', e' := GatherExits(s, e, reg).value.0, GatherExits(s, e, reg).value.1;
            Arrives(c, s', e'.t, e'.f, reg, e.kind.KJmp?) && (!e.kind.KJmp? ==> NilsOk(c, s', e'))
  {
    hide Placed, Denotes, NilsOk;
    if e.kind.KJmp? {
      GatherArrives(c, s, e, reg);
    } else {
      DischargeToRegNonJmp(s, e, reg);
      DischargeToRegRun(c, s, e, reg);
      var s', e' := DischargeToReg(s, e, reg).value.0, DischargeToReg(s, e, reg).value.1;
      hide DischargeToReg;
      ArrivesIsDenotes(c, s', e'.t, e'.f, reg);
      assert e' == Exp(KNonReloc(reg), e'.t, e'.f);
    }
  }

  lemma DischargeToRegNonJmp(s: Gen, e: Exp, reg: nat)
    requires !e.kind.KJmp? && DischargeToReg(s, e, reg).Ok?
    ensures DischargeToReg(s, e, reg).value.1 == e.(kind := KNonReloc(reg))
  {
  }

  lemma ExpToRegOk(c: Ctx, s: Gen, e: Exp, reg: nat)
    requires Placed(c.m, s, e, c.o) && reg < MAXSTACK && ExpToReg(s, e, reg).Ok?
    ensures var s', e' := ExpToReg(s, e, reg).value.0, ExpToReg(s, e, reg).value.1;
            e' == Exp(KNonReloc(reg), [], []) && Placed(c.m, s', e', c.o) && Extends(s, s') &&
            Frame(s.code, s'.code, c.o)
  {
    hide Placed, GatherExits, CloseExits, GenOk, ListsOk, Frame, NeedValue;
    GatherExitsOk(c, s, e, reg);
    var s1, e1 := GatherExits(s, e, reg).value.0, GatherExits(s, e, reg).value.1;
    CloseExitsOk(c, s1, e1, reg);
    var s' := CloseExits(s1, e1, reg).value;
    FrameTransitive(s.code, s1.code, s'.code, c.o);
    PlacedInReg(c.m, s', reg, c.o);
  }

  lemma PlacedInReg(m: Machine, s: Gen, reg: nat, o: set<nat>)
    requires GenOk(s) && ListsOk(s, [], [], o) && reg < MAXSTACK
    ensures Placed(m, s, Exp(KNonReloc(reg), [], []), o)
  {
  }

  /** `exp2reg` brings the value of the expression into the register, whichever way its code is left: control
      comes to the next instruction and no other register in use has changed. */
  lemma ExpToRegRun(c: Ctx, s: Gen, e: Exp, reg: nat)
    requires Placed(c.m, s, e, c.o) && reg < MAXSTACK && (reg >= c.lo || reg == c.hole) && ExpToReg(s, e, reg).Ok?
    requires Denotes(c, s, e) && NilsOk(c, s, e) && ExpToReg(s, e, reg).value.0.k <= c.m.k
    ensures var s', e' := ExpToReg(s, e, reg).value.0, ExpToReg(s, e, reg).value.1;
            Denotes(c, s', e') && NilsOk(c, s', e')
  {
    GatherExitsOk(c, s, e, reg);
    var s1, e1 := GatherExits(s, e, reg).value.0, GatherExits(s, e, reg).value.1;
    var s' := CloseExits(s1, e1, reg).value;
    CloseExitsOk(c, s1, e1, reg);
    hide GatherExits, GenOk, ListsOk, Denotes, Arrives, NilsOk, Placed;
    GatherExitsRun(c, s, e, reg);
    CloseExitsRun(c, s1, e1, reg);
    ArrivesIsDenotes(c, s', [], [], reg);
    CloseExitsNils(c, s1, e1, reg);
  }

  lemma CloseExitsNils(c: Ctx, s: Gen, e: Exp, reg: nat)
    requires GenOk(s) && ListsOk(s, e.t, e.f, c.o) && (e.kind.KJmp? ==> s.jpc == [] && NeedValue(s.code, e.t)) &&
             CloseExits(s, e, reg).Ok?
    requires EntryOk(c, s.nactvar) && (!e.kind.KJmp? ==> NilsOk(c, s, e))
    ensures NilsOk(c, CloseExits(s, e, reg).value, Exp(KNonReloc(reg), [], []))
  {
    hide GenOk, LoadBools, PatchExits;
    if !HasJumps(e) {
      NoJumps(c.m, s, e, c.o);
    } else if NeedValue(s.code, e.t) || NeedValue(s.code, e.f) {
      LoadBoolsOk(c, s, e, reg);
      var s1 := LoadBools(s, e, reg).value;
      PatchExitsOk(c, s1, e, reg, |s1.code| - 2, |s1.code| - 1);
    } else {
      assert s.code != [];
      PatchExitsOk(c, s, e, reg, NO_JUMP, NO_JUMP);
    }
  }
}
