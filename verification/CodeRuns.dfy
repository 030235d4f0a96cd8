/** How running the code changes when the code generator adds to it or patches it. */
module CodeRuns {
  import opened Seqs
  import opened LuaCode
  import opened CodeLists
  import opened CodeGen
  import opened CodeShape

  /** A run stops at the end, at an open jump, or at a `TESTSET` about to take an open jump. */
  lemma {:induction false} RunStops(m: Machine, code: seq<Instr>, open: set<nat>, pc: nat, regs: seq<Value>)
    ensures var o := Run(m, code, open, pc, regs);
            o.pc >= |code| || o.pc == STUCK || o.pc in open ||
            (0 <= o.pc && code[o.pc].TestSet? && o.pc + 1 in open && Passes(m, code[o.pc], o.regs))
    decreases |code| - pc
  {
    if pc < |code| && pc !in open {
      var i := code[pc];
      if IsPlain(i) {
        RunStops(m, code, open, pc + 1, Effect(m, i, regs));
      } else if i.LoadBool? {
        RunStops(m, code, open, pc + 2, Effect(m, i, regs));
      } else if i.Jmp? {
        if i.sbx >= 0 { RunStops(m, code, open, pc + 1 + i.sbx, regs); }
      } else if i.Compare? || i.Test? {
        RunStops(m, code, open, if Passes(m, i, regs) then pc + 1 else pc + 2, regs);
      } else if i.TestSet? {
        RunStops(m, code, open, pc + 2, regs);
        RunStops(m, code, open, pc + 1, Set(regs, i.a, Get(regs, i.b)));
      }
    }
  }

  /** The open jump at which a run has stopped. */
  function JumpOf(code: seq<Instr>, pc: int): int
  {
    if 0 <= pc < |code| && code[pc].TestSet? then pc + 1 else pc
  }

  /** A run that has come to the next instruction, at the end of the code or by a pending jump. */
  ghost predicate Falls(code: seq<Instr>, jpc: seq<nat>, stop: Stop)
  {
    stop.pc == |code| || JumpOf(code, stop.pc) in jpc
  }

  ghost predicate OpenOk(code: seq<Instr>, open: set<nat>)
  {
    forall j :: j in open ==> j < |code| && code[j].Jmp?
  }

  /** The registers after a patched exit has stored the value it carries. */
  function Stored(i: Instr, reg: nat, regs: seq<Value>): seq<Value>
    requires i.TestSet?
  {
    if reg != NO_REG && reg != i.b then Set(regs, reg, Get(regs, i.b)) else regs
  }

  lemma PatchContinues(code: seq<Instr>, code': seq<Instr>, open: set<nat>, l: seq<nat>, vtarget: int, reg: nat,
                       dtarget: int,
                       start: nat)
    requires OpenOk(code, open) && Elems(l) <= open && Patched(code, code', l, vtarget, reg, dtarget)
    ensures Continues(code, open, code', open - Elems(l), start)
  {
    forall i | start <= i < |code| && i !in open ensures SameStep(code[i], code'[i], i + 1 in open) {
      assert code'[i] == PatchedInstr(code, l, vtarget, reg, dtarget, i);
      assert i in Elems(l) <==> i in l;
      if i + 1 in l { assert i + 1 in Elems(l); }
    }
  }

  /** Patching a list sends the runs that stopped at one of its members on to its target. */
  lemma PatchRun(m: Machine, code: seq<Instr>, code': seq<Instr>, open: set<nat>, l: seq<nat>, vtarget: int, reg: nat,
                 dtarget: int, start: nat, regs: seq<Value>)
    requires OpenOk(code, open) && Elems(l) <= open && Patched(code, code', l, vtarget, reg, dtarget)
    requires forall j :: j in l ==> j < if CarriesValue(code, j) then vtarget else dtarget
    requires 0 <= Run(m, code, open, start, regs).pc <= |code|
    ensures var stop, now := Run(m, code, open, start, regs), Run(m, code', open - Elems(l), start, regs);
            if JumpOf(code, stop.pc) !in l then now == stop
            else if stop.pc < |code| && code[stop.pc].TestSet? then
              vtarget >= 0 && now == Run(m, code', open - Elems(l), vtarget, Stored(code[stop.pc], reg, stop.regs))
            else
              var target := if CarriesValue(code, stop.pc) then vtarget else dtarget;
              target >= 0 && now == Run(m, code', open - Elems(l), target, stop.regs)
  {
    var stop, open' := Run(m, code, open, start, regs), open - Elems(l);
    PatchContinues(code, code', open, l, vtarget, reg, dtarget, start);
    Continue(m, code, open, code', open', start, start, regs);
    RunStops(m, code, open, start, regs);
    hide Continues;
    assert JumpOf(code, stop.pc) in l ==> stop.pc < |code| by {
      if stop.pc in l { assert stop.pc in Elems(l); }
    }
    if stop.pc < |code| {
      PatchStop(m, code, code', open, l, vtarget, reg, dtarget, stop);
    }
  }

  lemma PatchStop(m: Machine, code: seq<Instr>, code': seq<Instr>, open: set<nat>, l: seq<nat>, vtarget: int, reg: nat,
                  dtarget: int, stop: Stop)
    requires OpenOk(code, open) && Elems(l) <= open && Patched(code, code', l, vtarget, reg, dtarget)
    requires forall j :: j in l ==> j < if CarriesValue(code, j) then vtarget else dtarget
    requires 0 <= stop.pc < |code|
    requires stop.pc in open || (code[stop.pc].TestSet? && stop.pc + 1 in open && Passes(m, code[stop.pc], stop.regs))
    ensures var now := Run(m, code', open - Elems(l), stop.pc, stop.regs);
            if JumpOf(code, stop.pc) !in l then now == stop
            else if code[stop.pc].TestSet? then
              vtarget >= 0 && now == Run(m, code', open - Elems(l), vtarget, Stored(code[stop.pc], reg, stop.regs))
            else
              var target := if CarriesValue(code, stop.pc) then vtarget else dtarget;
              target >= 0 && now == Run(m, code', open - Elems(l), target, stop.regs)
  {
    var open' := open - Elems(l);
    var p := stop.pc;
    var i := code[p];
    assert code'[p] == PatchedInstr(code, l, vtarget, reg, dtarget, p);
    if i.TestSet? {
      assert p !in l && p !in open;
      var j := p + 1;
      assert code'[j] == PatchedInstr(code, l, vtarget, reg, dtarget, j);
      if j in l {
        assert j in Elems(l);
        assert CarriesValue(code, j);
        assert code'[j] == Jmp(vtarget - (j + 1));
        assert code'[p] == Settled(i, reg);
        assert p !in open' && j !in open';
        var regs' := Stored(i, reg, stop.regs);
        assert Run(m, code', open', p, stop.regs) == Run(m, code', open', j, regs');
        assert Run(m, code', open', j, regs') == Run(m, code', open', vtarget, regs');
      }
    } else if p in l {
      assert p in Elems(l);
    }
  }

  lemma AppendContinues(code: seq<Instr>, tail: seq<Instr>, open: set<nat>, open': set<nat>, start: nat)
    requires OpenOk(code, open) && (|code| !in open' || code == [] || !IsTest(code[|code| - 1]))
    requires forall i :: i in open' && i < |code| ==> i in open
    ensures Continues(code, open, code + tail, open', start)
  {
  }

  /** Emitting an instruction: runs that had come to the next position execute it, the others stop where they
      did. */
  lemma CodeRun(m: Machine, s: Gen, i: Instr, open: set<nat>, start: nat, regs: seq<Value>)
    requires Threaded(s.code, s.jpc) && Code(s, i).Ok? && OpenOk(s.code, open) && Elems(s.jpc) <= open
    requires 0 <= Run(m, s.code, open, start, regs).pc <= |s.code|
    ensures var s', stop, rest := Code(s, i).value, Run(m, s.code, open, start, regs), open - Elems(s.jpc);
            Run(m, s'.code, rest, start, regs) ==
              if Falls(s.code, s.jpc, stop) then Run(m, s'.code, rest, |s.code|, stop.regs) else stop
    ensures var s', stop, rest := Code(s, i).value, Run(m, s.code, open, start, regs), open - Elems(s.jpc);
            |s'.code| == |s.code| + 1 && Run(m, s'.code[..|s.code|], rest, start, regs) ==
              if Falls(s.code, s.jpc, stop) then Stop(|s.code|, stop.regs) else stop
  {
    var s', n := Code(s, i).value, |s.code|;
    var stop, rest := Run(m, s.code, open, start, regs), open - Elems(s.jpc);
    CodeEffect(s, i);
    var patched := s'.code[..n];
    assert s'.code == patched + [i];
    forall j | j in s.jpc ensures j < n { var x :| 0 <= x < |s.jpc| && s.jpc[x] == j; }
    PatchRun(m, s.code, patched, open, s.jpc, n, NO_REG, n, start, regs);
    assert Run(m, patched, rest, start, regs) == if Falls(s.code, s.jpc, stop) then Stop(n, stop.regs) else stop;
    assert OpenOk(patched, rest) by {
      forall j | j in rest ensures j < |patched| && patched[j].Jmp? {
        assert patched[j] == PatchedInstr(s.code, s.jpc, n, NO_REG, n, j);
        assert j in Elems(s.jpc) <==> j in s.jpc;
      }
    }
    hide Patched;
    AppendContinues(patched, [i], rest, rest, start);
    Continue(m, patched, rest, s'.code, rest, start, start, regs);
    if !Falls(s.code, s.jpc, stop) {
      RunStops(m, patched, rest, start, regs);
      StoppedStays(m, patched, [i], rest, stop);
    }
  }

  lemma StoppedStays(m: Machine, code: seq<Instr>, tail: seq<Instr>, open: set<nat>, stop: Stop)
    requires 0 <= stop.pc < |code|
    requires stop.pc in open || (code[stop.pc].TestSet? && stop.pc + 1 in open && Passes(m, code[stop.pc], stop.regs))
    ensures Run(m, code + tail, open, stop.pc, stop.regs) == stop
  {
  }

  /** Changing the links of open jumps changes no run. */
  lemma LinksRun(m: Machine, code: seq<Instr>, code': seq<Instr>, open: set<nat>, start: nat, regs: seq<Value>)
    requires |code'| == |code| && forall i :: 0 <= i < |code| && i !in open ==> code'[i] == code[i]
    requires OpenOk(code, open) && OpenOk(code', open) && Run(m, code, open, start, regs).pc <= |code|
    ensures Run(m, code', open, start, regs) == Run(m, code, open, start, regs)
  {
    var stop := Run(m, code, open, start, regs);
    Continue(m, code, open, code', open, start, start, regs);
    RunStops(m, code, open, start, regs);
  }
}
