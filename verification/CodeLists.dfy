/** Lists of open jumps, threaded through the `sBx` fields of the jumps themselves. */
module CodeLists {
  import opened Seqs
  import opened LuaCode

  function Head(l: seq<nat>): int
  {
    if l == [] then NO_JUMP else l[0]
  }

  function Link(l: seq<nat>, i: nat): int
    requires i < |l|
  {
    if i + 1 < |l| then l[i + 1] - (l[i] + 1) else NO_JUMP
  }

  predicate AreJumps(code: seq<Instr>, l: seq<nat>)
  {
    forall i :: 0 <= i < |l| ==> l[i] < |code| && code[l[i]].Jmp?
  }

  /** The jumps of `l`, in this order, are one list in the code. */
  predicate Threaded(code: seq<Instr>, l: seq<nat>)
  {
    Distinct(l) && AreJumps(code, l) && forall i :: 0 <= i < |l| ==> code[l[i]].sbx == Link(l, i)
  }

  /** `getjump`. */
  function GetJump(code: seq<Instr>, pc: nat): int
    requires pc < |code| && code[pc].Jmp?
  {
    if code[pc].sbx == NO_JUMP then NO_JUMP else pc + 1 + code[pc].sbx
  }

  /** Following the list visits the members of `l` in order, each once, and then ends. */
  lemma GetJumpNext(code: seq<Instr>, l: seq<nat>, i: nat)
    requires Threaded(code, l) && i < |l|
    ensures GetJump(code, l[i]) == Head(l[i + 1..])
  {
    assert l[i] in l;
    if i + 1 < |l| { assert l[i] != l[i + 1]; }
  }

  /** `fixjump`, which gives up when the destination is too far. */
  function FixJump(code: seq<Instr>, pc: nat, dest: int): Result<seq<Instr>>
  {
    var offset := dest - (pc + 1);
    if offset > MAXARG_SBX || offset < -MAXARG_SBX then Err
    else Ok(if pc < |code| then code[pc := Jmp(offset)] else code)
  }

  /** `luaK_concat`, as a change of the code: the list that results is `l1 + l2`. */
  function Concat(code: seq<Instr>, l1: seq<nat>, l2: seq<nat>): Result<seq<Instr>>
  {
    if l1 == [] || l2 == [] then Ok(code) else FixJump(code, l1[|l1| - 1], l2[0])
  }

  /** `luaK_concat` appends: afterwards the two lists are one. */
  lemma ConcatAppends(code: seq<Instr>, l1: seq<nat>, l2: seq<nat>)
    requires Threaded(code, l1) && Threaded(code, l2) && Apart(l1, l2) && Concat(code, l1, l2).Ok?
    ensures Threaded(Concat(code, l1, l2).value, l1 + l2) && Head(l1 + l2) == if l1 == [] then Head(l2) else Head(l1)
  {
    DistinctConcat(l1, l2);
    if l1 == [] {
      assert l1 + l2 == l2;
    } else if l2 == [] {
      assert l1 + l2 == l1;
    } else {
      var l, code' := l1 + l2, Concat(code, l1, l2).value;
      var last := l1[|l1| - 1];
      forall i | 0 <= i < |l| ensures code'[l[i]].Jmp? && code'[l[i]].sbx == Link(l, i) {
        if i < |l1| - 1 {
          assert l[i] == l1[i] && l[i + 1] == l1[i + 1] && l1[i] != last && l1[i] in l1;
        } else if i == |l1| - 1 {
          assert l[i] == last && l[i + 1] == l2[0];
        } else {
          assert l[|l1| - 1] == last && l[i] == l2[i - |l1|];
          assert l[i] != last && l2[i - |l1|] in l2;
        }
      }
    }
  }

  lemma ConcatOthers(code: seq<Instr>, l1: seq<nat>, l2: seq<nat>)
    requires AreJumps(code, l1) && Concat(code, l1, l2).Ok?
    ensures var code' := Concat(code, l1, l2).value;
            |code'| == |code| &&
            forall i :: 0 <= i < |code| ==> (code'[i] == code[i] || (i in l1 && code[i].Jmp? && code'[i].Jmp?))
  {
  }

  /** `getjumpcontrol`: the position of the instruction that decides whether the jump at `pc` is taken. */
  function Control(code: seq<Instr>, pc: nat): nat
    requires pc < |code|
  {
    if pc >= 1 && IsTest(code[pc - 1]) then pc - 1 else pc
  }

  predicate CarriesValue(code: seq<Instr>, j: nat)
  {
    1 <= j < |code| && code[j - 1].TestSet?
  }

  /** `need_value`. */
  predicate NeedValue(code: seq<Instr>, l: seq<nat>)
  {
    exists j :: j in l && !CarriesValue(code, j)
  }

  /** What `patchtestreg` makes of a `TESTSET`. */
  function Settled(i: Instr, reg: nat): Instr
    requires i.TestSet?
  {
    if reg != NO_REG && reg != i.b then TestSet(reg, i.b, i.when) else Test(i.b, i.when)
  }

  /** `patchtestreg`, as a change of the code; it reports whether there was a value to patch. */
  function PatchTestReg(code: seq<Instr>, node: nat, reg: nat): seq<Instr>
  {
    if CarriesValue(code, node) then code[node - 1 := Settled(code[node - 1], reg)] else code
  }

  /** `patchlistaux`. */
  function PatchList(code: seq<Instr>, l: seq<nat>, vtarget: int, reg: nat, dtarget: int): Result<seq<Instr>>
    decreases |l|
  {
    if l == [] then Ok(code)
    else
      var code1 :- FixJump(PatchTestReg(code, l[0], reg), l[0], if CarriesValue(code, l[0]) then vtarget else dtarget);
      PatchList(code1, l[1..], vtarget, reg, dtarget)
  }

  function PatchedInstr(code: seq<Instr>, l: seq<nat>, vtarget: int, reg: nat, dtarget: int, i: nat): Instr
    requires i < |code|
  {
    if i in l then Jmp((if CarriesValue(code, i) then vtarget else dtarget) - (i + 1))
    else if code[i].TestSet? && i + 1 in l then Settled(code[i], reg)
    else code[i]
  }

  /** The effect of patching a list: each member is aimed at its target, each `TESTSET` in control of one is
      settled, and every other instruction is what it was. */
  ghost predicate Patched(code: seq<Instr>, code': seq<Instr>, l: seq<nat>, vtarget: int, reg: nat, dtarget: int)
  {
    |code'| == |code| &&
    forall i :: 0 <= i < |code| ==> code'[i] == PatchedInstr(code, l, vtarget, reg, dtarget, i)
  }

  lemma PatchOne(code: seq<Instr>, j: nat, vtarget: int, reg: nat, dtarget: int)
    requires j < |code| && code[j].Jmp?
    ensures var fixed := FixJump(PatchTestReg(code, j, reg), j, if CarriesValue(code, j) then vtarget else dtarget);
            fixed.Ok? ==> Patched(code, fixed.value, [j], vtarget, reg, dtarget)
  {
  }

  lemma PatchBoth(code: seq<Instr>, code1: seq<Instr>, code2: seq<Instr>, l: seq<nat>, vtarget: int, reg: nat,
                  dtarget: int)
    requires l != [] && Distinct(l) && AreJumps(code, l)
    requires Patched(code, code1, [l[0]], vtarget, reg, dtarget) && Patched(code1, code2, l[1..], vtarget, reg, dtarget)
    ensures Patched(code, code2, l, vtarget, reg, dtarget)
  {
    forall i | 0 <= i < |code|
      ensures code2[i] == PatchedInstr(code, l, vtarget, reg, dtarget, i)
    {
      PatchBothAt(code, code1, code2, l, vtarget, reg, dtarget, i);
    }
  }

  lemma PatchBothAt(code: seq<Instr>, code1: seq<Instr>, code2: seq<Instr>, l: seq<nat>, vtarget: int, reg: nat,
                    dtarget: int,
                    i: nat)
    requires l != [] && Distinct(l) && AreJumps(code, l) && i < |code|
    requires Patched(code, code1, [l[0]], vtarget, reg, dtarget) && Patched(code1, code2, l[1..], vtarget, reg, dtarget)
    ensures code2[i] == PatchedInstr(code, l, vtarget, reg, dtarget, i)
  {
    var j := l[0];
    assert i in l <==> i == j || i in l[1..];
    assert i + 1 in l <==> i + 1 == j || i + 1 in l[1..];
    assert j !in l[1..];
    assert i in [j] <==> i == j;
    assert i + 1 in [j] <==> i + 1 == j;
    if i in l[1..] {
      assert code[i].Jmp?;
      if i >= 1 {
        var p := i - 1;
        assert p + 1 !in [j] && (p in [j] <==> p == j);
        assert code1[p].TestSet? == code[p].TestSet?;
      }
    }
  }

  lemma {:induction false} PatchListEffect(code: seq<Instr>, l: seq<nat>, vtarget: int, reg: nat, dtarget: int)
    requires AreJumps(code, l) && Distinct(l) && PatchList(code, l, vtarget, reg, dtarget).Ok?
    ensures Patched(code, PatchList(code, l, vtarget, reg, dtarget).value, l, vtarget, reg, dtarget)
    decreases |l|
  {
    if l != [] {
      var j := l[0];
      PatchOne(code, j, vtarget, reg, dtarget);
      var code1 := FixJump(PatchTestReg(code, j, reg), j, if CarriesValue(code, j) then vtarget else dtarget).value;
      hide Patched;
      PatchListEffect(code1, l[1..], vtarget, reg, dtarget);
      PatchBoth(code, code1, PatchList(code, l, vtarget, reg, dtarget).value, l, vtarget, reg, dtarget);
    }
  }

  /** `removevalues`. */
  function RemoveValues(code: seq<Instr>, l: seq<nat>): seq<Instr>
    decreases |l|
  {
    if l == [] then code
    else
      RemoveValues(PatchTestReg(code, l[0], NO_REG), l[1..])
  }

  ghost predicate ValuesRemoved(code: seq<Instr>, code': seq<Instr>, l: seq<nat>)
  {
    |code'| == |code| && forall i :: 0 <= i < |code| ==>
      code'[i] == if code[i].TestSet? && i + 1 in l then Test(code[i].b, code[i].when) else code[i]
  }

  lemma {:induction false} RemoveValuesEffect(code: seq<Instr>, l: seq<nat>)
    requires AreJumps(code, l)
    ensures ValuesRemoved(code, RemoveValues(code, l), l)
    decreases |l|
  {
    if l != [] {
      var code1 := PatchTestReg(code, l[0], NO_REG);
      RemoveValuesEffect(code1, l[1..]);
      var code' := RemoveValues(code, l);
      forall i | 0 <= i < |code|
        ensures code'[i] == if code[i].TestSet? && i + 1 in l then Test(code[i].b, code[i].when) else code[i]
      {
        assert i + 1 in l <==> i + 1 == l[0] || i + 1 in l[1..];
      }
    }
  }
}
