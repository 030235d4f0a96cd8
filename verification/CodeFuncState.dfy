/** The code generator in its own form: fields updated in place, and lists followed through the code.

    Every method is the operation of the same name on `Gen`: it succeeds when that one does, and then leaves
    the state that it gives.  The ghost field `g` is that state, in which lists are sequences. */
module CodeFuncState {
  import opened Seqs
  import opened LuaCode
  import opened CodeLists
  import opened CodeGen
  import opened CodeShape
  import opened CodeMeaning
  import opened CodeExits
  import opened CodeOperands
  import opened CodeConds
  import opened CodeOps
  import opened CodeExpr
  import opened CodeCompile
  import opened CodeTheorem

  /** `expdesc`, whose lists are the positions of their first jumps. */
  datatype ExpDesc = ExpDesc(kind: Kind, t: int, f: int)

  function Desc(e: Exp): ExpDesc
  {
    ExpDesc(e.kind, Head(e.t), Head(e.f))
  }

  lemma HeadOfConcat(a: seq<nat>, b: seq<nat>)
    ensures Head(a + b) == if a == [] then Head(b) else Head(a)
  {
  }

  /** The members of a list that are still to come stay linked while those before are patched. */
  lemma {:induction false} PatchRest(code: seq<Instr>, l: seq<nat>, vtarget: int, reg: nat, dtarget: int)
    requires l != [] && Threaded(code, l)
    ensures var fixed := FixJump(PatchTestReg(code, l[0], reg), l[0], if CarriesValue(code, l[0]) then vtarget
                else dtarget);
            PatchList(code, l, vtarget, reg, dtarget) ==
              (if fixed.Err? then Err else PatchList(fixed.value, l[1..], vtarget, reg, dtarget)) &&
            (fixed.Ok? ==> Threaded(fixed.value, l[1..]))
  {
    var fixed := FixJump(PatchTestReg(code, l[0], reg), l[0], if CarriesValue(code, l[0]) then vtarget else dtarget);
    if fixed.Ok? {
      PatchOne(code, l[0], vtarget, reg, dtarget);
      var rest := l[1..];
      forall i | 0 <= i < |rest|
        ensures rest[i] < |code| && fixed.value[rest[i]].Jmp? && fixed.value[rest[i]].sbx == Link(rest, i)
      {
        assert rest[i] == l[i + 1] && l[i + 1] != l[0];
        PatchedFrame(code, fixed.value, [l[0]], vtarget, reg, dtarget, rest[i]);
      }
    }
  }

  lemma RemoveRest(code: seq<Instr>, l: seq<nat>)
    requires l != [] && Threaded(code, l)
    ensures var code' := PatchTestReg(code, l[0], NO_REG);
            RemoveValues(code, l) == RemoveValues(code', l[1..]) && Threaded(code', l[1..])
  {
    var code', rest := PatchTestReg(code, l[0], NO_REG), l[1..];
    forall i | 0 <= i < |rest| ensures rest[i] < |code'| && code'[rest[i]].Jmp? && code'[rest[i]].sbx == Link(rest, i) {
      assert rest[i] == l[i + 1];
    }
  }

  lemma PlacedThreaded(m: Machine, s: Gen, e: Exp, o: set<nat>)
    requires Placed(m, s, e, o)
    ensures Threaded(s.code, s.jpc) && Threaded(s.code, e.t) && Threaded(s.code, e.f) &&
            (e.kind.KJmp? ==> Threaded(s.code, [e.kind.pc]))
  {
  }

  lemma ListsThreaded(s: Gen, t: seq<nat>, f: seq<nat>, o: set<nat>)
    requires ListsOk(s, t, f, o)
    ensures Threaded(s.code, s.jpc) && Threaded(s.code, t) && Threaded(s.code, f)
  {
  }

  class FuncState {
    var code: seq<Instr>
    var jpc: int
    var lasttarget: int
    var freereg: nat
    var nactvar: nat
    var maxstack: nat
    var k: seq<Value>
    var h: map<Value, nat>
    ghost var g: Gen

    ghost predicate Valid()
      reads this
    {
      g == Gen(code, g.jpc, lasttarget, freereg, nactvar, maxstack, k, h) && jpc == Head(g.jpc)
    }

    // ----- jump lists -----

    method FixJump(pc: nat, dest: int) returns (ok: bool)
      requires Valid() && pc < |code|
      modifies this`code, this`g
      ensures ok <==> CodeLists.FixJump(old(code), pc, dest).Ok?
      ensures if ok then code == CodeLists.FixJump(old(code), pc, dest).value && g == old(g).(code := code) && Valid()
              else code == old(code) && g == old(g)
    {
      var offset := dest - (pc + 1);
      ok := -MAXARG_SBX <= offset <= MAXARG_SBX;
      if ok {
        code := code[pc := Jmp(offset)];
        g := g.(code := code);
      }
    }

    /** `need_value`. */
    method NeedsValue(list: int, ghost l: seq<nat>) returns (b: bool)
      requires Threaded(code, l) && list == Head(l)
      ensures b == NeedValue(code, l)
    {
      var p := list;
      ghost var i := 0;
      while p != NO_JUMP
        invariant 0 <= i <= |l| && p == Head(l[i..]) && forall j :: 0 <= j < i ==> CarriesValue(code, l[j])
        decreases |l| - i
      {
        assert l[i..][0] == l[i];
        if !(p >= 1 && code[p - 1].TestSet?) {
          assert l[i] in l && !CarriesValue(code, l[i]);
          return true;
        }
        GetJumpNext(code, l, i);
        p := GetJump(code, p);
        i := i + 1;
      }
      return false;
    }

    /** `patchtestreg`. */
    method PatchTest(node: nat, reg: nat) returns (b: bool)
      requires Valid() && node < |code|
      modifies this`code, this`g
      ensures b == CarriesValue(old(code), node) && code == PatchTestReg(old(code), node, reg) &&
              g == old(g).(code := code) && Valid()
    {
      b := node >= 1 && code[node - 1].TestSet?;
      if b {
        var i := code[node - 1];
        code := code[node - 1 := if reg != NO_REG && reg != i.b then TestSet(reg, i.b, i.when) else Test(i.b, i.when)];
        g := g.(code := code);
      }
    }

    /** `patchlistaux`. */
    method PatchListAux(list: int, vtarget: int, reg: nat, dtarget: int, ghost l: seq<nat>) returns (ok: bool)
      requires Valid() && Threaded(code, l) && list == Head(l)
      modifies this`code, this`g
      ensures ok <==> PatchList(old(code), l, vtarget, reg, dtarget).Ok?
      ensures ok ==>
                code == PatchList(old(code), l, vtarget, reg, dtarget).value && g == old(g).(code := code) && Valid()
    {
      var p := list;
      ghost var rest := l;
      while p != NO_JUMP
        invariant Threaded(code, rest) && p == Head(rest) && Valid() && g == old(g).(code := code)
        invariant PatchList(old(code), l, vtarget, reg, dtarget) == PatchList(code, rest, vtarget, reg, dtarget)
        decreases |rest|
      {
        GetJumpNext(code, rest, 0);
        PatchRest(code, rest, vtarget, reg, dtarget);
        var next := GetJump(code, p);
        var b := PatchTest(p, reg);
        ok := FixJump(p, if b then vtarget else dtarget);
        if !ok { return; }
        p := next;
        rest := rest[1..];
      }
      ok := true;
    }

    /** `removevalues`. */
    method RemoveAll(list: int, ghost l: seq<nat>)
      requires Valid() && Threaded(code, l) && list == Head(l)
      modifies this`code, this`g
      ensures code == RemoveValues(old(code), l) && g == old(g).(code := code) && Valid()
    {
      var p := list;
      ghost var rest := l;
      while p != NO_JUMP
        invariant Threaded(code, rest) && p == Head(rest) && Valid() && g == old(g).(code := code)
        invariant RemoveValues(old(code), l) == RemoveValues(code, rest)
        decreases |rest|
      {
        RemoveRest(code, rest);
        GetJumpNext(code, rest, 0);
        var next := GetJump(code, p);
        var b := PatchTest(p, NO_REG);
        rest := rest[1..];
        p := next;
      }
    }

    /** `luaK_concat`: the jumps of the second list are appended to the first. */
    method Append(l1: int, l2: int, ghost a: seq<nat>, ghost b: seq<nat>) returns (ok: bool, list: int)
      requires Valid() && Threaded(code, a) && l1 == Head(a) && l2 == Head(b)
      modifies this`code, this`g
      ensures ok <==> Concat(old(code), a, b).Ok?
      ensures ok ==>
                code == Concat(old(code), a, b).value && g == old(g).(code := code) && Valid() && list == Head(a + b)
    {
      HeadOfConcat(a, b);
      list := l1;
      ok := true;
      if l2 == NO_JUMP {
        assert b == [] && a + b == a;
      } else if l1 == NO_JUMP {
        list := l2;
      } else {
        var p := l1;
        ghost var i := 0;
        GetJumpNext(code, a, 0);
        var next := GetJump(code, p);
        while next != NO_JUMP
          invariant 0 <= i < |a| && p == a[i] && next == Head(a[i + 1..]) && code == old(code) && g == old(g)
          decreases |a| - i
        {
          i := i + 1;
          p := next;
          GetJumpNext(code, a, i);
          next := GetJump(code, p);
        }
        ok := FixJump(p, l2);
      }
    }

    // ----- emitting code -----

    /** `luaK_code`. */
    method Emit(i: Instr) returns (ok: bool)
      requires Valid() && Threaded(code, g.jpc)
      modifies this`code, this`jpc, this`g
      ensures ok <==> Code(old(g), i).Ok?
      ensures ok ==> Valid() && g == Code(old(g), i).value
    {
      ok := PatchListAux(jpc, |code|, NO_REG, |code|, g.jpc);
      if ok {
        jpc := NO_JUMP;
        code := code + [i];
        g := g.(code := code, jpc := []);
      }
    }

    /** `luaK_jump`. */
    method EmitJump() returns (ok: bool, list: int)
      requires Valid() && Threaded(code, g.jpc)
      modifies this`code, this`jpc, this`g
      ensures ok <==> Jump(old(g)).Ok?
      ensures ok ==> Valid() && g == Jump(old(g)).value.0 && list == Head(Jump(old(g)).value.1)
    {
      var held, j := jpc, |code|;
      ghost var l := g.jpc;
      jpc := NO_JUMP;
      g := g.(jpc := []);
      ok := Emit(Jmp(NO_JUMP));
      assert ok && code == old(code) + [Jmp(NO_JUMP)];
      ok, list := Append(j, held, [j], l);
    }

    /** `condjump`. */
    method EmitCondJump(i: Instr) returns (ok: bool, list: int)
      requires Valid() && Threaded(code, g.jpc)
      modifies this`code, this`jpc, this`g
      ensures ok <==> CondJump(old(g), i).Ok?
      ensures ok ==> Valid() && g == CondJump(old(g), i).value.0 && list == Head(CondJump(old(g), i).value.1)
    {
      list := NO_JUMP;
      ok := Emit(i);
      if ok {
        ok, list := EmitJump();
      }
    }

    /** `luaK_getlabel`. */
    method MarkLabel()
      requires Valid()
      modifies this`lasttarget, this`g
      ensures Valid() && g == GetLabel(old(g))
    {
      lasttarget := |code|;
      g := g.(lasttarget := lasttarget);
    }

    /** `luaK_patchtohere`. */
    method HoldHere(list: int, ghost l: seq<nat>) returns (ok: bool)
      requires Valid() && Threaded(code, g.jpc) && list == Head(l)
      modifies this`code, this`jpc, this`lasttarget, this`g
      ensures ok <==> PatchToHere(old(g), l).Ok?
      ensures ok ==> Valid() && g == PatchToHere(old(g), l).value
    {
      MarkLabel();
      var joined;
      ok, joined := Append(jpc, list, g.jpc, l);
      if ok {
        jpc := joined;
        g := g.(jpc := g.jpc + l);
      }
    }

    /** `code_label`. */
    method EmitLabel(reg: nat, v: bool, skip: bool) returns (ok: bool)
      requires Valid() && Threaded(code, g.jpc)
      modifies this`code, this`jpc, this`lasttarget, this`g
      ensures ok <==> CodeLabel(old(g), reg, v, skip).Ok?
      ensures ok ==> Valid() && g == CodeLabel(old(g), reg, v, skip).value
    {
      MarkLabel();
      ok := Emit(LoadBool(reg, v, skip));
    }

    /** `luaK_nil`. */
    method EmitNil(from: nat) returns (ok: bool)
      requires Valid() && Threaded(code, g.jpc)
      modifies this`code, this`jpc, this`g
      ensures ok <==> CodeNil(old(g), from).Ok?
      ensures ok ==> Valid() && g == CodeNil(old(g), from).value
    {
      if |code| > lasttarget {
        if |code| == 0 {
          if from >= nactvar { return true; }
        } else {
          var last := code[|code| - 1];
          if last.LoadNil? && last.a <= from <= last.b + 1 {
            if from > last.b {
              code := code[|code| - 1 := LoadNil(last.a, from)];
              g := g.(code := code);
            }
            return true;
          }
        }
      }
      ok := Emit(LoadNil(from, from));
    }

    // ----- registers and constants -----

    /** `luaK_reserveregs`, for one register. */
    method Reserve() returns (ok: bool)
      requires Valid()
      modifies this`freereg, this`maxstack, this`g
      ensures ok <==> ReserveReg(old(g)).Ok?
      ensures ok <==> old(freereg) < old(maxstack) || old(freereg) + 1 < 250
      ensures ok ==> Valid() && g == ReserveReg(old(g)).value
    {
      var newstack := freereg + 1;
      if newstack > maxstack {
        if newstack >= MAXSTACK { return false; }
        maxstack := newstack;
      }
      freereg := newstack;
      g := g.(freereg := freereg, maxstack := maxstack);
      ok := true;
    }

    /** `freeexp`. */
    method Free(d: ExpDesc, ghost e: Exp)
      requires Valid() && d == Desc(e)
      modifies this`freereg, this`g
      ensures Valid() && g == FreeExp(old(g), e)
    {
      if d.kind.KNonReloc? && d.kind.reg < BITRK && d.kind.reg >= nactvar && freereg > 0 {
        freereg := freereg - 1;
        g := g.(freereg := freereg);
      }
    }

    /** `addk`. */
    method AddConstant(v: Value) returns (ok: bool, idx: nat)
      requires Valid()
      modifies this`k, this`h, this`g
      ensures ok <==> AddK(old(g), v).Ok?
      ensures ok <==> v in old(h) || |old(k)| < 262143
      ensures ok ==> Valid() && g == AddK(old(g), v).value.0 && idx == AddK(old(g), v).value.1
    {
      if v in h {
        return true, h[v];
      }
      if |k| >= MAXARG_BX {
        return false, 0;
      }
      idx := |k|;
      k, h := k + [v], h[v := idx];
      g := g.(k := k, h := h);
      ok := true;
    }

    // ----- putting a value somewhere -----

    /** `discharge2reg`. */
    method DischargeTo(d: ExpDesc, reg: nat, ghost e: Exp) returns (ok: bool, d': ExpDesc)
      requires Valid() && Threaded(code, g.jpc) && d == Desc(e)
      modifies this`code, this`jpc, this`k, this`h, this`g
      ensures ok <==> DischargeToReg(old(g), e, reg).Ok?
      ensures ok ==>
                Valid() && g == DischargeToReg(old(g), e, reg).value.0 &&
                d' == Desc(DischargeToReg(old(g), e, reg).value.1)
    {
      d' := d.(kind := KNonReloc(reg));
      match d.kind
      case KNil => ok := EmitNil(reg);
      case KFalse => ok := Emit(LoadBool(reg, false, false));
      case KTrue => ok := Emit(LoadBool(reg, true, false));
      case KK(idx) => ok := Emit(LoadK(reg, idx));
      case KNum(n) =>
        var idx;
        ok, idx := AddConstant(Num(n));
        if ok { ok := Emit(LoadK(reg, idx)); }
      case KReloc(pc) =>
        if pc < |code| {
          code := code[pc := WithA(code[pc], reg)];
          g := g.(code := code);
        }
        ok := true;
      case KNonReloc(r) =>
        ok := true;
        if r != reg { ok := Emit(Move(reg, r)); }
      case KLocal(r) =>
        ok := true;
        if r != reg { ok := Emit(Move(reg, r)); }
      case KJmp(_) =>
        d' := d;
        ok := true;
    }

    /** `discharge2anyreg`. */
    method DischargeToAny(d: ExpDesc, ghost e: Exp) returns (ok: bool, d': ExpDesc)
      requires Valid() && Threaded(code, g.jpc) && d == Desc(e)
      modifies this
      ensures ok <==> DischargeToAnyReg(old(g), e).Ok?
      ensures ok ==>
                Valid() && g == DischargeToAnyReg(old(g), e).value.0 && d' == Desc(DischargeToAnyReg(old(g), e).value.1)
    {
      d', ok := d, true;
      if !d.kind.KNonReloc? {
        ok := Reserve();
        if ok {
          ok, d' := DischargeTo(d, freereg - 1, e);
        }
      }
    }

    /** The first half of `exp2reg`. */
    method Gather(d: ExpDesc, reg: nat, ghost c: Ctx, ghost e: Exp) returns (ok: bool, d': ExpDesc)
      requires Valid() && d == Desc(e) && Placed(c.m, g, e, c.o) && reg < MAXSTACK
      modifies this`code, this`jpc, this`k, this`h, this`g
      ensures ok <==> GatherExits(old(g), e, reg).Ok?
      ensures ok ==>
                Valid() && g == GatherExits(old(g), e, reg).value.0 && d' == Desc(GatherExits(old(g), e, reg).value.1)
    {
      PlacedThreaded(c.m, g, e, c.o);
      hide Placed;
      ok, d' := DischargeTo(d, reg, e);
      if ok && d'.kind.KJmp? {
        ghost var e1 := DischargeToReg(old(g), e, reg).value.1;
        assert e1 == e && g == old(g);
        var list;
        ok, list := Append(d'.t, d'.kind.pc, e.t, [e.kind.pc]);
        d' := d'.(t := list);
      }
    }

    /** The loads of false and true in `exp2reg`. */
    method LoadFalseTrue(d: ExpDesc, reg: nat, ghost c: Ctx, ghost e: Exp) returns (ok: bool)
      requires Valid() && d == Desc(e) && GenOk(g) && ListsOk(g, e.t, e.f, c.o) && (e.kind.KJmp? ==> g.jpc == [])
      modifies this`code, this`jpc, this`lasttarget, this`g
      ensures ok <==> LoadBools(old(g), e, reg).Ok?
      ensures ok ==> Valid() && g == LoadBools(old(g), e, reg).value
    {
      ghost var s0 := g;
      ListsThreaded(g, e.t, e.f, c.o);
      var fj := NO_JUMP;
      ghost var l: seq<nat> := [];
      if !d.kind.KJmp? {
        ok, fj := EmitJump();
        if !ok { return; }
        l := Jump(s0).value.1;
        JumpOk(s0, e.t, e.f, c.o);
      }
      ghost var s1 := g;
      hide GenOk, ListsOk, Jump;
      ListsThreaded(s1, e.t, e.f, c.o);
      ok := EmitLabel(reg, false, true);
      if !ok { return; }
      ghost var s2 := g;
      NoPending(s1, GetLabel(s1), LoadBool(reg, false, true));
      ok := EmitLabel(reg, true, false);
      if !ok { return; }
      NoPending(s2, GetLabel(s2), LoadBool(reg, true, false));
      hide CodeLabel;
      ok := HoldHere(fj, l);
    }

    /** The exits patched in `exp2reg`. */
    method PatchBothLists(d: ExpDesc, reg: nat, pf: int, pt: int, ghost c: Ctx, ghost e: Exp) returns (ok: bool)
      requires Valid() && d == Desc(e) && GenOk(g) && ListsOk(g, e.t, e.f, c.o)
      modifies this`code, this`lasttarget, this`g
      ensures ok <==> PatchExits(old(g), e, reg, pf, pt).Ok?
      ensures ok ==> Valid() && g == PatchExits(old(g), e, reg, pf, pt).value
    {
      ghost var s0 := g;
      ListsThreaded(g, e.t, e.f, c.o);
      MarkLabel();
      var final := |code|;
      ok := PatchListAux(d.f, final, reg, pf, e.f);
      if !ok { return; }
      ListsSwap(s0, e.t, e.f, c.o);
      PatchExitOk(c, s0, e.f, e.t, reg, pf);
      ok := PatchListAux(d.t, final, reg, pt, e.t);
    }

    /** The second half of `exp2reg`. */
    method Close(d: ExpDesc, reg: nat, ghost c: Ctx, ghost e: Exp) returns (ok: bool)
      requires Valid() && d == Desc(e) && GenOk(g) && ListsOk(g, e.t, e.f, c.o) && (e.kind.KJmp? ==> g.jpc == [])
      modifies this`code, this`jpc, this`lasttarget, this`g
      ensures ok <==> CloseExits(old(g), e, reg).Ok?
      ensures ok ==> Valid() && g == CloseExits(old(g), e, reg).value
    {
      ok := true;
      CloseSpec(g, e, reg);
      hide CloseExits, GenOk, ListsOk, LoadBools, PatchExits, NeedValue;
      if d.t != d.f {
        ghost var s0 := g;
        ListsThreaded(g, e.t, e.f, c.o);
        hide Threaded;
        var needed := NeedsValue(d.t, e.t);
        if !needed { needed := NeedsValue(d.f, e.f); }
        assert needed == (NeedValue(s0.code, e.t) || NeedValue(s0.code, e.f));
        if needed {
          ok := LoadFalseTrue(d, reg, c, e);
          if !ok { return; }
          LoadBoolsOk(c, s0, e, reg);
          ok := PatchBothLists(d, reg, |code| - 2, |code| - 1, c, e);
        } else {
          ok := PatchBothLists(d, reg, NO_JUMP, NO_JUMP, c, e);
        }
      }
    }

    /** `exp2reg`. */
    method ToReg(d: ExpDesc, reg: nat, ghost c: Ctx, ghost e: Exp) returns (ok: bool, d': ExpDesc)
      requires Valid() && d == Desc(e) && Placed(c.m, g, e, c.o) && reg < MAXSTACK
      modifies this`code, this`jpc, this`lasttarget, this`k, this`h, this`g
      ensures ok <==> ExpToReg(old(g), e, reg).Ok?
      ensures ok ==> Valid() && g == ExpToReg(old(g), e, reg).value.0 && d' == Desc(ExpToReg(old(g), e, reg).value.1)
    {
      ghost var s0 := g;
      var d1;
      hide Placed, GatherExits, CloseExits, GenOk, ListsOk, NeedValue;
      ok, d1 := Gather(d, reg, c, e);
      if ok {
        GatherExitsOk(c, s0, e, reg);
        ok := Close(d1, reg, c, GatherExits(s0, e, reg).value.1);
      }
      d' := ExpDesc(KNonReloc(reg), NO_JUMP, NO_JUMP);
    }

    /** `luaK_dischargevars`. */
    method Vars(d: ExpDesc, ghost e: Exp) returns (d': ExpDesc)
      requires d == Desc(e)
      ensures d' == Desc(DischargeVars(e))
    {
      d' := if d.kind.KLocal? then d.(kind := KNonReloc(d.kind.reg)) else d;
    }

    /** `luaK_exp2nextreg`. */
    method ToNextReg(d: ExpDesc, ghost c: Ctx, ghost e: Exp) returns (ok: bool, d': ExpDesc)
      requires Valid() && d == Desc(e) && Fit(c, g, e)
      modifies this
      ensures ok <==> ExpToNextReg(old(g), e).Ok?
      ensures ok ==> Valid() && g == ExpToNextReg(old(g), e).value.0 && d' == Desc(ExpToNextReg(old(g), e).value.1)
    {
      hide Fit, DischargeVars, ExpToReg, ExpToNextReg, FreeExp, ReserveReg, Advances, Placed;
      ghost var s0, e1 := g, DischargeVars(e);
      NextRegFit(c, g, e);
      NextRegSpec(g, e);
      var d1 := Vars(d, e);
      Free(d1, e1);
      ok := Reserve();
      d' := d1;
      if ok {
        NextRegIs(c, s0, e1);
        FitPlaced(c, s0, e1);
        RegsPlaced(c, s0, g, e1);
        ok, d' := ToReg(d1, freereg - 1, c, e1);
      }
    }

    /** `luaK_exp2anyreg`. */
    method ToAnyReg(d: ExpDesc, ghost c: Ctx, ghost e: Exp) returns (ok: bool, d': ExpDesc)
      requires Valid() && d == Desc(e) && (Fit(c, g, e) || (IsOperand(e) && e.kind.KNonReloc?))
      modifies this
      ensures ok <==> ExpToAnyReg(old(g), e).Ok?
      ensures ok ==> Valid() && g == ExpToAnyReg(old(g), e).value.0 && d' == Desc(ExpToAnyReg(old(g), e).value.1)
    {
      ghost var e1 := DischargeVars(e);
      d' := Vars(d, e);
      ok := true;
      if d'.kind.KNonReloc? && d'.t == d'.f {
        return;
      }
      VarsOk(c, g, e);
      FitPlaced(c, g, e1);
      hide Fit, DischargeVars, ExpToReg, ExpToNextReg, Advances, Placed;
      if d'.kind.KNonReloc? && d'.kind.reg >= nactvar {
        ok, d' := ToReg(d', d'.kind.reg, c, e1);
      } else {
        ok, d' := ToNextReg(d', c, e1);
      }
    }

    /** `luaK_exp2val`. */
    method ToVal(d: ExpDesc, ghost c: Ctx, ghost e: Exp) returns (ok: bool, d': ExpDesc)
      requires Valid() && d == Desc(e) && (Fit(c, g, e) || IsOperand(e))
      modifies this
      ensures ok <==> ExpToVal(old(g), e).Ok?
      ensures ok ==> Valid() && g == ExpToVal(old(g), e).value.0 && d' == Desc(ExpToVal(old(g), e).value.1)
    {
      hide Fit, ExpToAnyReg, DischargeVars;
      if d.t != d.f {
        ok, d' := ToAnyReg(d, c, e);
      } else {
        ok := true;
        d' := Vars(d, e);
      }
    }

    /** `luaK_exp2RK`; the operand is `RKOf`. */
    method ToRK(d: ExpDesc, ghost c: Ctx, ghost e: Exp) returns (ok: bool, d': ExpDesc)
      requires Valid() && d == Desc(e) && (Fit(c, g, e) || IsOperand(e))
      modifies this
      ensures ok <==> ExpToRK(old(g), e).Ok?
      ensures ok ==> Valid() && g == ExpToRK(old(g), e).value.0 && d' == Desc(ExpToRK(old(g), e).value.1)
    {
      ghost var s0 := g;
      hide Fit, ExpToVal, ExpToAnyReg, Advances;
      ok, d' := ToVal(d, c, e);
      if !ok { return; }
      ghost var e1 := ExpToVal(s0, e).value.1;
      if IsLiteral(d'.kind) && |k| <= MAXINDEXRK {
        var idx;
        ok, idx := AddConstant(LiteralOf(d'.kind));
        d' := d'.(kind := KK(idx));
      } else if d'.kind.KK? && d'.kind.idx <= MAXINDEXRK {
      } else {
        if !IsOperand(e) { ExpToValOk(c, s0, e); } else { OperandVal(s0, e); }
        ok, d' := ToAnyReg(d', c, e1);
      }
    }

    // ----- conditions -----

    /** `invertjump`. */
    method Invert(pc: nat)
      requires Valid() && pc < |code|
      modifies this`code, this`g
      ensures Valid() && g == InvertJump(old(g), pc)
    {
      var c := if pc >= 1 && IsTest(code[pc - 1]) then pc - 1 else pc;
      code := code[c := Inverted(code[c])];
      g := g.(code := code);
    }

    /** `jumponcond`. */
    method JumpIf(d: ExpDesc, cond: bool, ghost c: Ctx, ghost e: Exp) returns (ok: bool, list: int)
      requires Valid() && d == Desc(e) && Fit(c, g, e) && !e.kind.KJmp? && !e.kind.KLocal?
      modifies this
      ensures ok <==> JumpOnCond(old(g), e, cond).Ok?
      ensures ok ==>
                Valid() && g == JumpOnCond(old(g), e, cond).value.0 && list == Head(JumpOnCond(old(g), e, cond).value.1)
    {
      ghost var s0 := g;
      FitPlaced(c, g, e);
      PlacedThreaded(c.m, g, e, c.o);
      list := NO_JUMP;
      hide CondJump, DischargeToAnyReg, Fit;
      if d.kind.KReloc? && d.kind.pc < |code| && code[d.kind.pc].Not? {
        var i := code[d.kind.pc];
        NotPlaced(c, g, e);
        code := code[..|code| - 1];
        g := g.(code := code);
        ListsThreaded(g, e.t, e.f, c.o);
        ok, list := EmitCondJump(Test(i.b, !cond));
      } else {
        var d1;
        ok, d1 := DischargeToAny(d, e);
        if ok {
          AnyRegOk(c, s0, e);
          ghost var e1 := DischargeToAnyReg(s0, e).value.1;
          FitPlaced(c, g, e1);
          PlacedThreaded(c.m, g, e1, c.o);
          hide Placed, Threaded;
          Free(d1, e1);
          ok, list := EmitCondJump(TestSet(NO_REG, d1.kind.reg, cond));
        }
      }
    }

    /** The switch of `luaK_goiftrue` and of `luaK_goiffalse`. */
    method LeaveIf(d: ExpDesc, cond: bool, ghost c: Ctx, ghost e: Exp) returns (ok: bool, list: int)
      requires Valid() && d == Desc(e) && Fit(c, g, e) && !e.kind.KLocal?
      modifies this
      ensures ok <==> Leave(old(g), e, cond).Ok?
      ensures ok ==> Valid() && g == Leave(old(g), e, cond).value.0 && list == Head(Leave(old(g), e, cond).value.1)
    {
      FitPlaced(c, g, e);
      PlacedThreaded(c.m, g, e, c.o);
      hide JumpOnCond, Jump;
      ok, list := true, NO_JUMP;
      if NeverLeaves(d.kind, cond) {
      } else if AlwaysLeaves(d.kind, cond) {
        ok, list := EmitJump();
      } else if d.kind.KJmp? {
        if !cond { Invert(d.kind.pc); }
        list := d.kind.pc;
      } else {
        ok, list := JumpIf(d, cond, c, e);
      }
    }

    /** `luaK_goiftrue`. */
    method GoIfTrue(d: ExpDesc, ghost c: Ctx, ghost e: Exp) returns (ok: bool, d': ExpDesc)
      requires Valid() && d == Desc(e) && Fit(c, g, e)
      modifies this
      ensures ok <==> GoIf(old(g), e, false).Ok?
      ensures ok ==> Valid() && g == GoIf(old(g), e, false).value.0 && d' == Desc(GoIf(old(g), e, false).value.1)
    {
      ghost var s0, e1 := g, DischargeVars(e);
      assert !e1.kind.KLocal?;
      VarsOk(c, g, e);
      GoIfSpec(g, e, false);
      hide Fit, DischargeVars, Leave, GoIf, PatchToHere, Advances, Jumped;
      d' := Vars(d, e);
      var list;
      ok, list := LeaveIf(d', false, c, e1);
      if !ok { return; }
      LeaveOk(c, s0, e1, false);
      ghost var l := Leave(s0, e1, false).value.1;
      JumpedThreaded(c, s0, e1, g, l);
      hide Threaded;
      var f;
      ok, f := Append(d'.f, list, e1.f, l);
      if !ok { return; }
      JoinedThreaded(c, s0, e1, Leave(s0, e1, false).value.0, l, false);
      ok := HoldHere(d'.t, e1.t);
      d' := d'.(t := NO_JUMP, f := f);
    }

    /** `luaK_goiffalse`. */
    method GoIfFalse(d: ExpDesc, ghost c: Ctx, ghost e: Exp) returns (ok: bool, d': ExpDesc)
      requires Valid() && d == Desc(e) && Fit(c, g, e)
      modifies this
      ensures ok <==> GoIf(old(g), e, true).Ok?
      ensures ok ==> Valid() && g == GoIf(old(g), e, true).value.0 && d' == Desc(GoIf(old(g), e, true).value.1)
    {
      ghost var s0, e1 := g, DischargeVars(e);
      assert !e1.kind.KLocal?;
      VarsOk(c, g, e);
      GoIfSpec(g, e, true);
      hide Fit, DischargeVars, Leave, GoIf, PatchToHere, Advances, Jumped;
      d' := Vars(d, e);
      var list;
      ok, list := LeaveIf(d', true, c, e1);
      if !ok { return; }
      LeaveOk(c, s0, e1, true);
      ghost var l := Leave(s0, e1, true).value.1;
      JumpedThreaded(c, s0, e1, g, l);
      hide Threaded;
      var t;
      ok, t := Append(d'.t, list, e1.t, l);
      if !ok { return; }
      JoinedThreaded(c, s0, e1, Leave(s0, e1, true).value.0, l, true);
      ok := HoldHere(d'.f, e1.f);
      d' := d'.(t := t, f := NO_JUMP);
    }

    // ----- operators -----

    /** `codenot`. */
    method NotOf(d: ExpDesc, ghost c: Ctx, ghost e: Exp) returns (ok: bool, d': ExpDesc)
      requires Valid() && d == Desc(e) && Fit(c, g, e)
      modifies this
      ensures ok <==> CodeNot(old(g), e).Ok?
      ensures ok ==> Valid() && g == CodeNot(old(g), e).value.0 && d' == Desc(CodeNot(old(g), e).value.1)
    {
      ghost var s0, e1 := g, DischargeVars(e);
      assert !e1.kind.KLocal?;
      VarsOk(c, g, e);
      hide Fit, DischargeVars, NegateValue, Advances, RemoveValues;
      d' := Vars(d, e);
      ok, d' := Negate(d', c, e1);
      if !ok { return; }
      NegateValueOk(c, s0, e1);
      ghost var e2 := NegateValue(s0, e1).value.1;
      FitPlaced(c, g, e2);
      PlacedThreaded(c.m, g, e2, c.o);
      hide Placed;
      d' := d'.(t := d'.f, f := d'.t);
      RemoveAll(d'.f, e2.t);
      RemoveKeepsThreads(NegateValue(s0, e1).value.0.code, e2.t, e2.f);
      RemoveAll(d'.t, e2.f);
    }

    /** The switch of `codenot`. */
    method Negate(d: ExpDesc, ghost c: Ctx, ghost e: Exp) returns (ok: bool, d': ExpDesc)
      requires Valid() && d == Desc(e) && Fit(c, g, e) && !e.kind.KLocal?
      modifies this
      ensures ok <==> NegateValue(old(g), e).Ok?
      ensures ok ==> Valid() && g == NegateValue(old(g), e).value.0 && d' == Desc(NegateValue(old(g), e).value.1)
    {
      ghost var s0 := g;
      FitPlaced(c, g, e);
      PlacedThreaded(c.m, g, e, c.o);
      ok, d' := true, d;
      hide DischargeToAnyReg, Code, Fit;
      if d.kind.KNil? || d.kind.KFalse? {
        d' := d.(kind := KTrue);
      } else if d.kind.KK? || d.kind.KNum? || d.kind.KTrue? {
        d' := d.(kind := KFalse);
      } else if d.kind.KJmp? {
        Invert(d.kind.pc);
      } else {
        ok, d' := DischargeToAny(d, e);
        if ok {
          AnyRegOk(c, s0, e);
          ghost var e1 := DischargeToAnyReg(s0, e).value.1;
          FitPlaced(c, g, e1);
          PlacedThreaded(c.m, g, e1, c.o);
          hide Placed, Threaded;
          Free(d', e1);
          var pc := |code|;
          ok := Emit(Not(0, d'.kind.reg));
          d' := d'.(kind := KReloc(pc));
        }
      }
    }

    /** `codearith`. */
    method ArithOf(m: Machine, op: ArithOp, d1: ExpDesc, d2: ExpDesc, ghost c: Ctx, ghost e1: Exp, ghost e2: Exp,
                   ghost lo2: nat)
      returns (ok: bool, d': ExpDesc)
      requires Valid() && d1 == Desc(e1) && d2 == Desc(e2) && c.m == m
      requires if IsUnary(op) then Fit(c, g, e1) && e2 ==
               Exp(KNum(0.0), [], []) && (IsNumeral(e1) || IsOperand(e1)) && (e1.kind.KNum? ==> Fold(m, op, e1, e2).Ok?)
                                   && (IsOperand(e1) ==> e1.kind.KNonReloc?)
               else First(c, g, e1, lo2) && Fit(Within(c, lo2, c.o), g, e2)
      modifies this
      ensures ok <==> CodeArith(m, old(g), op, e1, e2).Ok?
      ensures ok ==>
                Valid() && g == CodeArith(m, old(g), op, e1, e2).value.0 &&
                d' == Desc(CodeArith(m, old(g), op, e1, e2).value.1)
    {
      if d1.kind.KNum? && d1.t == NO_JUMP && d1.f == NO_JUMP && d2.kind.KNum? && d2.t == NO_JUMP && d2.f ==
        NO_JUMP && !op.Len? &&
         !((op.Div? || op.Mod?) && d2.kind.n == 0.0) {
        var r := m.fold(op, d1.kind.n, d2.kind.n);
        if !m.isNan(r) {
          return true, d1.(kind := KNum(r));
        }
      }
      if IsUnary(op) {
        ok, d' := UnaryArith(m, op, d1, c, e1);
      } else {
        ok, d' := BinaryArith(m, op, d1, d2, c, e1, e2, lo2);
      }
    }

    method UnaryArith(m: Machine, op: ArithOp, d: ExpDesc, ghost c: Ctx, ghost e: Exp) returns (ok: bool, d': ExpDesc)
      requires Valid() && d == Desc(e) && Fit(c, g, e) && IsUnary(op) && IsOperand(e) && e.kind.KNonReloc?
      modifies this
      ensures ok <==> CodeArith(m, old(g), op, e, Exp(KNum(0.0), [], [])).Ok?
      ensures ok ==> Valid() && g == CodeArith(m, old(g), op, e, Exp(KNum(0.0), [], [])).value.0 &&
                     d' == Desc(CodeArith(m, old(g), op, e, Exp(KNum(0.0), [], [])).value.1)
    {
      ghost var s0 := g;
      UnarySpec(m, g, op, e);
      FreedOk(c, g, e);
      ListsThreaded(FreeExp(g, e), e.t, e.f, c.o);
      FitPlaced(c, g, e);
      OperandStays(g, e);
      hide CodeArith, Code, ExpToRK, Fit, FreeExp, Placed;
      ok, d' := ToRK(d, c, e);
      Free(d', e);
      var pc := |code|;
      ok := Emit(Arith(op, 0, d'.kind.reg, 0));
      d' := d'.(kind := KReloc(pc));
    }

    method BinaryArith(m: Machine, op: ArithOp, d1: ExpDesc, d2: ExpDesc, ghost c: Ctx, ghost e1: Exp, ghost e2: Exp,
                       ghost lo2: nat)
      returns (ok: bool, d': ExpDesc)
      requires Valid() && d1 == Desc(e1) && d2 == Desc(e2) && First(c, g, e1, lo2) && Fit(Within(c, lo2, c.o), g, e2)
      requires c.m == m && !IsUnary(op) && Fold(m, op, e1, e2).Err?
      modifies this
      ensures ok <==> CodeArith(m, old(g), op, e1, e2).Ok?
      ensures ok ==>
                Valid() && g == CodeArith(m, old(g), op, e1, e2).value.0 &&
                d' == Desc(CodeArith(m, old(g), op, e1, e2).value.1)
    {
      hide CodeArith, Code, ExpToRK, Fit, FreeExp, Fold, First, BothRegs, GenOk, ListsOk, Threaded, FreesTop, Advances,
           Frame;
      ghost var s0, c2 := g, Within(c, lo2, c.o);
      BinarySpec(m, g, op, e1, e2);
      var r2;
      ok, r2 := ToRK(d2, c2, e2);
      d' := d1;
      if !ok { return; }
      ExpToRKOk(c2, s0, e2);
      ghost var x2 := ExpToRK(s0, e2).value.1;
      ghost var s2 := g;
      FirstStays(c, s0, s2, e1, lo2);
      if !IsOperand(e1) { FirstNumber(c, s2, e1, x2, lo2); }
      ok, d' := ToRK(d1, Within(c, s2.freereg, c.o), e1);
      if !ok { return; }
      ghost var x1 := ExpToRK(s2, e1).value.1;
      FirstToRK(c, s2, e1, x2, lo2);
      ListsThreaded(g, [], [], c.o);
      FreeBothOk(g, x1, x2, c.lo);
      var o1, o2 := RKOf(Exp(d'.kind, [], [])), RKOf(Exp(r2.kind, [], []));
      assert o1 == RKOf(x1) && o2 == RKOf(x2);
      if o1 > o2 {
        Free(d', x1);
        Free(r2, x2);
      } else {
        Free(r2, x2);
        Free(d', x1);
      }
      var pc := |code|;
      ok := Emit(Arith(op, 0, o1, o2));
      d' := d'.(kind := KReloc(pc));
    }

    /** `codecomp`. */
    method CompareOf(cmp: CmpOp, cond: bool, d1: ExpDesc, d2: ExpDesc, ghost c: Ctx, ghost e1: Exp, ghost e2: Exp,
                     ghost lo2: nat)
      returns (ok: bool, d': ExpDesc)
      requires Valid() && d1 == Desc(e1) && d2 == Desc(e2) && First(c, g, e1, lo2) && IsOperand(e1) &&
               Fit(Within(c, lo2, c.o), g, e2)
      modifies this
      ensures ok <==> CodeComp(old(g), cmp, cond, e1, e2).Ok?
      ensures ok ==>
                Valid() && g == CodeComp(old(g), cmp, cond, e1, e2).value.0 &&
                d' == Desc(CodeComp(old(g), cmp, cond, e1, e2).value.1)
    {
      ghost var s0, c2 := g, Within(c, lo2, c.o);
      CompSpec(g, cmp, cond, e1, e2);
      OperandStays(g, e1);
      hide CodeComp, CondJump, ExpToRK, Fit, FreeExp, First;
      var r2;
      ok, d' := ToRK(d1, c, e1);
      ok, r2 := ToRK(d2, c2, e2);
      if !ok { return; }
      ExpToRKOk(c2, s0, e2);
      ghost var x2 := ExpToRK(s0, e2).value.1;
      FirstStays(c, s0, g, e1, lo2);
      CompRegs(c, g, e1, x2, lo2);
      ListsThreaded(FreeExp(FreeExp(g, x2), e1), [], [], c.o);
      hide GenOk, ListsOk, Threaded, FreesTop;
      var o1, o2 := RKOf(Exp(d'.kind, [], [])), RKOf(Exp(r2.kind, [], []));
      assert o1 == RKOf(e1) && o2 == RKOf(x2);
      Free(r2, x2);
      Free(d', e1);
      var list;
      ok, list := EmitCondJump(if !cond && cmp != Eq then Compare(cmp, true, o2, o1) else Compare(cmp, cond, o1, o2));
      if ok { d' := d'.(kind := KJmp(list)); }
    }

    /** `luaK_prefix`. */
    method PrefixOf(m: Machine, op: UnOp, d: ExpDesc, ghost c: Ctx, ghost e: Exp) returns (ok: bool, d': ExpDesc)
      requires Valid() && d == Desc(e) && Fit(c, g, e) && c.m == m && Lawful(m)
      modifies this
      ensures ok <==> Prefix(m, old(g), op, e).Ok?
      ensures ok ==> Valid() && g == Prefix(m, old(g), op, e).value.0 && d' == Desc(Prefix(m, old(g), op, e).value.1)
    {
      ghost var s0, zero := g, Exp(KNum(0.0), [], []);
      hide CodeArith, CodeNot, ExpToAnyReg, Advances;
      match op
      case OprNot => ok, d' := NotOf(d, c, e);
      case OprMinus =>
        ok, d' := true, d;
        ghost var e1 := e;
        if !(d.kind.KNum? && d.t == NO_JUMP && d.f == NO_JUMP) {
          ok, d' := ToAnyReg(d, c, e);
          if !ok { return; }
          e1 := ExpToAnyReg(s0, e).value.1;
          ExpToAnyRegOk(c, s0, e);
        } else {
          MinusFolds(m, e);
        }
        ok, d' := ArithOf(m, Unm, d', ExpDesc(KNum(0.0), NO_JUMP, NO_JUMP), c, e1, zero, 0);
      case OprLen =>
        ok, d' := ToAnyReg(d, c, e);
        if !ok { return; }
        ExpToAnyRegOk(c, s0, e);
        ok, d' := ArithOf(m, Len, d', ExpDesc(KNum(0.0), NO_JUMP, NO_JUMP), c, ExpToAnyReg(s0, e).value.1, zero, 0);
    }

    /** `luaK_infix`. */
    method InfixOf(op: BinOp, d: ExpDesc, ghost c: Ctx, ghost e: Exp) returns (ok: bool, d': ExpDesc)
      requires Valid() && d == Desc(e) && Fit(c, g, e)
      modifies this
      ensures ok <==> Infix(old(g), op, e).Ok?
      ensures ok ==> Valid() && g == Infix(old(g), op, e).value.0 && d' == Desc(Infix(old(g), op, e).value.1)
    {
      hide Fit, GoIf, ExpToRK;
      match op
      case OprAnd => ok, d' := GoIfTrue(d, c, e);
      case OprOr => ok, d' := GoIfFalse(d, c, e);
      case OprArith(_) =>
        if d.kind.KNum? && d.t == NO_JUMP && d.f == NO_JUMP {
          ok, d' := true, d;
        } else {
          ok, d' := ToRK(d, c, e);
        }
      case OprCmp(_, _) => ok, d' := ToRK(d, c, e);
    }

    /** `luaK_posfix` for `and` and `or`. */
    method JoinExits(cond: bool, d1: ExpDesc, d2: ExpDesc, ghost c: Ctx, ghost e2: Exp, ghost l: seq<nat>)
      returns (ok: bool, d': ExpDesc)
      requires Valid() && d2 == Desc(e2) && (if cond then d1.t else d1.f) == Head(l) && Fit(c, g, e2)
      modifies this
      ensures ok <==> LogicCode(old(g), e2, l, cond).Ok?
      ensures ok ==>
                Valid() && g == LogicCode(old(g), e2, l, cond).value.0 &&
                d' == Desc(LogicCode(old(g), e2, l, cond).value.1)
    {
      ghost var e := DischargeVars(e2);
      FitPlaced(c, g, e2);
      PlacedThreaded(c.m, g, e2, c.o);
      d' := Vars(d2, e2);
      hide Fit, Placed, Threaded;
      var list;
      if cond {
        ok, list := Append(d'.t, d1.t, e.t, l);
        d' := d'.(t := list);
      } else {
        ok, list := Append(d'.f, d1.f, e.f, l);
        d' := d'.(f := list);
      }
    }

    /** What the parser does with an expression: `subexpr`, `simpleexp` and `prefixexp` driving the generator. */
    method CompileExpr(m: Machine, x: Expr, ghost c: Ctx) returns (ok: bool, d: ExpDesc)
      requires Valid() && Ready(c, g, x) && c.m == m
      modifies this
      ensures ok <==> Compile(m, old(g), x).Ok?
      ensures ok ==> Valid() && g == Compile(m, old(g), x).value.0 && d == Desc(Compile(m, old(g), x).value.1) &&
                     Fit(c, g, Compile(m, old(g), x).value.1)
      decreases x
    {
      ghost var s0 := g;
      hide Fit, Advances, Ready, DischargeVars, Compile;
      match x {
        case Paren(y) => ok, d := CompileParen(m, y, c);
        case Unary(op, y) => ok, d := CompileUnary(m, op, y, c);
        case Binary(op, y, z) =>
          if op.OprAnd? || op.OprOr? {
            ok, d := CompileLogic(m, op.OprOr?, y, z, c);
          } else {
            ok, d := CompileOperator(m, op, y, z, c);
          }
        case _ => ok, d := Simple(m, x);
      }
      if ok { CompileOk(c, s0, x); }
    }

    /** An expression put into the next free register: by `ExpressionValue`, running the code leaves its value there. */
    method ExprToNextReg(m: Machine, x: Expr, ghost c: Ctx) returns (ok: bool, d: ExpDesc)
      requires Valid() && Ready(c, g, x) && c.m == m
      modifies this
      ensures ok <==> CompileToNextReg(m, old(g), x).Ok?
      ensures ok ==> Valid() && g == CompileToNextReg(m, old(g), x).value.0 &&
                     d == Desc(CompileToNextReg(m, old(g), x).value.1)
    {
      hide Fit, Advances, Ready, Compile, ExpToNextReg;
      ok, d := CompileExpr(m, x, c);
      if ok { ok, d := ToNextReg(d, c, Compile(m, old(g), x).value.1); }
    }

    /** `simpleexp`. */
    method Simple(m: Machine, x: Expr) returns (ok: bool, d: ExpDesc)
      requires Valid() && !x.Paren? && !x.Unary? && !x.Binary?
      modifies this
      ensures ok <==> Compile(m, old(g), x).Ok?
      ensures ok ==> Valid() && g == Compile(m, old(g), x).value.0 && d == Desc(Compile(m, old(g), x).value.1)
    {
      ok, d := true, ExpDesc(KNil, NO_JUMP, NO_JUMP);
      if x.Local? {
        d := d.(kind := KLocal(x.i));
      } else if x.ETrue? {
        d := d.(kind := KTrue);
      } else if x.EFalse? {
        d := d.(kind := KFalse);
      } else if x.ENum? {
        d := d.(kind := KNum(x.n));
      } else if x.EStr? {
        var idx;
        ok, idx := AddConstant(Str(x.s));
        d := d.(kind := KK(idx));
      }
    }

    /** `prefixexp`, for an expression in parentheses. */
    method CompileParen(m: Machine, y: Expr, ghost c: Ctx) returns (ok: bool, d: ExpDesc)
      requires Valid() && Ready(c, g, Paren(y)) && c.m == m
      modifies this
      ensures ok <==> Compile(m, old(g), Paren(y)).Ok?
      ensures ok ==>
                Valid() && g == Compile(m, old(g), Paren(y)).value.0 && d == Desc(Compile(m, old(g), Paren(y)).value.1)
      decreases Paren(y), 0
    {
      ghost var s0 := g;
      ReadyParts(c, g, Paren(y));
      hide Fit, Ready, DischargeVars;
      ok, d := CompileExpr(m, y, c);
      if ok { d := Vars(d, Compile(m, s0, y).value.1); }
    }

    method CompileUnary(m: Machine, op: UnOp, y: Expr, ghost c: Ctx) returns (ok: bool, d: ExpDesc)
      requires Valid() && Ready(c, g, Unary(op, y)) && c.m == m
      modifies this
      ensures ok <==> Compile(m, old(g), Unary(op, y)).Ok?
      ensures ok ==>
                Valid() && g == Compile(m, old(g), Unary(op, y)).value.0 &&
                d == Desc(Compile(m, old(g), Unary(op, y)).value.1)
      decreases Unary(op, y), 0
    {
      ghost var s0 := g;
      ReadyParts(c, g, Unary(op, y));
      hide Fit, Ready, Prefix;
      ok, d := CompileExpr(m, y, c);
      if ok { ok, d := PrefixOf(m, op, d, c, Compile(m, s0, y).value.1); }
    }

    method CompileLogic(m: Machine, cond: bool, y: Expr, z: Expr, ghost c: Ctx) returns (ok: bool, d: ExpDesc)
      requires Valid() && Ready(c, g, Binary(if cond then OprOr else OprAnd, y, z)) && c.m == m
      modifies this
      ensures var x := Binary(if cond then OprOr else OprAnd, y, z);
              (ok <==> Compile(m, old(g), x).Ok?) &&
              (ok ==> Valid() && g == Compile(m, old(g), x).value.0 && d == Desc(Compile(m, old(g), x).value.1))
      decreases Binary(if cond then OprOr else OprAnd, y, z), 0
    {
      ghost var s0 := g;
      LogicSpec(m, g, y, z, cond);
      assert Ready(c, g, y);
      hide Compile, GoIf, Fit, LogicCode, Ready, Advances, ListsOk, GenOk, LeftDone;
      ok, d := CompileExpr(m, y, c);
      if !ok { return; }
      ghost var s1, e1 := g, Compile(m, s0, y).value.1;
      if cond { ok, d := GoIfFalse(d, c, e1); } else { ok, d := GoIfTrue(d, c, e1); }
      if !ok { return; }
      ghost var s2, r1 := g, GoIf(s1, e1, cond).value.1;
      ghost var l := if cond then r1.t else r1.f;
      LogicReady(c, s0, y, z, cond);
      ghost var c2 := Within(c, c.lo, c.o + Elems(l));
      var d2;
      ok, d2 := CompileExpr(m, z, c2);
      if !ok { return; }
      ok, d := JoinExits(cond, d, d2, c2, Compile(m, s2, z).value.1, l);
    }

    method CompileOperator(m: Machine, op: BinOp, y: Expr, z: Expr, ghost c: Ctx) returns (ok: bool, d: ExpDesc)
      requires Valid() && Ready(c, g, Binary(op, y, z)) && (op.OprArith? || op.OprCmp?) && c.m == m
      modifies this
      ensures ok <==> Compile(m, old(g), Binary(op, y, z)).Ok?
      ensures ok ==>
                Valid() && g == Compile(m, old(g), Binary(op, y, z)).value.0 &&
                d == Desc(Compile(m, old(g), Binary(op, y, z)).value.1)
      decreases Binary(op, y, z), 0
    {
      ghost var s0 := g;
      OperatorSpec(m, g, op, y, z);
      assert Ready(c, g, y) && (op.OprArith? ==> !IsUnary(op.op));
      hide Compile, Infix, CodeArith, CodeComp, Fit, First, Ready, Advances, ListsOk, GenOk;
      ok, d := CompileExpr(m, y, c);
      if !ok { return; }
      ghost var s1, e1 := g, Compile(m, s0, y).value.1;
      ok, d := InfixOf(op, d, c, e1);
      if !ok { return; }
      ghost var s2, r1 := g, Infix(s1, op, e1).value.1;
      OperatorReady(c, s0, op, y, z);
      var d2;
      ok, d2 := CompileExpr(m, z, Within(c, s2.freereg, c.o));
      if !ok { return; }
      ghost var e2 := Compile(m, s2, z).value.1;
      OperatorFirst(c, s2, r1, z);
      if op.OprArith? {
        ok, d := ArithOf(m, op.op, d, d2, c, r1, e2, s2.freereg);
      } else {
        ok, d := CompareOf(op.cmp, op.cond, d, d2, c, r1, e2, s2.freereg);
      }
    }
  }

  lemma ReadyParts(c: Ctx, s: Gen, x: Expr)
    requires Ready(c, s, x)
    ensures Lawful(c.m) && (x.Paren? ==> Ready(c, s, x.inner)) && (x.Unary? ==> Ready(c, s, x.arg))
  {
  }

  lemma MinusFolds(m: Machine, e: Exp)
    requires Lawful(m) && IsNumeral(e) && !m.isNan(e.kind.n)
    ensures Fold(m, Unm, e, Exp(KNum(0.0), [], [])).Ok?
  {
  }

  lemma LogicSpec(m: Machine, s: Gen, y: Expr, z: Expr, cond: bool)
    ensures Compile(m, s, Binary(if cond then OprOr else OprAnd, y, z)) ==
      if Compile(m, s, y).Err? then Err
      else
        var s1, e1 := Compile(m, s, y).value.0, Compile(m, s, y).value.1;
        if GoIf(s1, e1, cond).Err? then Err
        else
          var s2, r1 := GoIf(s1, e1, cond).value.0, GoIf(s1, e1, cond).value.1;
          if Compile(m, s2, z).Err? then Err
          else LogicCode(Compile(m, s2, z).value.0, Compile(m, s2, z).value.1, if cond then r1.t else r1.f, cond)
  {
    hide GoIf, LogicCode;
    if Compile(m, s, y).Ok? {
      var s1, e1 := Compile(m, s, y).value.0, Compile(m, s, y).value.1;
      if GoIf(s1, e1, cond).Ok? {
        var s2, r1 := GoIf(s1, e1, cond).value.0, GoIf(s1, e1, cond).value.1;
        if Compile(m, s2, z).Ok? {
          PosfixLogic(m, Compile(m, s2, z).value.0, r1, Compile(m, s2, z).value.1);
          hide Posfix;
        }
      }
    }
  }

  lemma OperatorSpec(m: Machine, s: Gen, op: BinOp, y: Expr, z: Expr)
    requires op.OprArith? || op.OprCmp?
    ensures Compile(m, s, Binary(op, y, z)) ==
      if Compile(m, s, y).Err? then Err
      else
        var s1, e1 := Compile(m, s, y).value.0, Compile(m, s, y).value.1;
        if Infix(s1, op, e1).Err? then Err
        else
          var s2, r1 := Infix(s1, op, e1).value.0, Infix(s1, op, e1).value.1;
          if Compile(m, s2, z).Err? then Err
          else
            var s3, e2 := Compile(m, s2, z).value.0, Compile(m, s2, z).value.1;
            if op.OprArith? then CodeArith(m, s3, op.op, r1, e2) else CodeComp(s3, op.cmp, op.cond, r1, e2)
  {
    hide Infix, CodeArith, CodeComp;
  }

  lemma ReadyOperands(c: Ctx, s: Gen, op: BinOp, y: Expr, z: Expr)
    requires Ready(c, s, Binary(op, y, z))
    ensures Ready(c, s, y) && WellFormed(c.m, z, s.nactvar)
  {
    hide GenOk, ListsOk;
  }

  lemma LogicReady(c: Ctx, s: Gen, y: Expr, z: Expr, cond: bool)
    requires Ready(c, s, Binary(if cond then OprOr else OprAnd, y, z)) && Compile(c.m, s, y).Ok?
    requires GoIf(Compile(c.m, s, y).value.0, Compile(c.m, s, y).value.1, cond).Ok?
    ensures var r := GoIf(Compile(c.m, s, y).value.0, Compile(c.m, s, y).value.1, cond).value;
            Ready(Within(c, c.lo, c.o + Elems(if cond then r.1.t else r.1.f)), r.0, z)
  {
    var s1, e1 := Compile(c.m, s, y).value.0, Compile(c.m, s, y).value.1;
    var s2, r1 := GoIf(s1, e1, cond).value.0, GoIf(s1, e1, cond).value.1;
    var l := if cond then r1.t else r1.f;
    hide Compile, GoIf, Advances, ListsOk, GenOk, LeftDone, Fit;
    ReadyOperands(c, s, if cond then OprOr else OprAnd, y, z);
    hide Ready, WellFormed;
    CompileOk(c, s, y);
    GoIfOk(c, s1, e1, cond);
    GoIfLeft(c, s2, r1.t, r1.f, cond);
    LeftReady(c, s2, l);
    AdvancesTransitive(c, s, s1, s2);
    ReadyAfter(c, s, Binary(if cond then OprOr else OprAnd, y, z), s2, z, c.lo, c.o + Elems(l));
  }

  lemma OperatorReady(c: Ctx, s: Gen, op: BinOp, y: Expr, z: Expr)
    requires Ready(c, s, Binary(op, y, z)) && (op.OprArith? || op.OprCmp?) && Compile(c.m, s, y).Ok?
    requires Infix(Compile(c.m, s, y).value.0, op, Compile(c.m, s, y).value.1).Ok?
    ensures var r := Infix(Compile(c.m, s, y).value.0, op, Compile(c.m, s, y).value.1).value;
            Ready(Within(c, r.0.freereg, c.o), r.0, z) && First(c, r.0, r.1, r.0.freereg) &&
            (op.OprCmp? ==> IsOperand(r.1))
  {
    var s1, e1 := Compile(c.m, s, y).value.0, Compile(c.m, s, y).value.1;
    var s2, r1 := Infix(s1, op, e1).value.0, Infix(s1, op, e1).value.1;
    assert Ready(c, s, y);
    hide Compile, Infix, Advances, ListsOk, GenOk, Fit, First;
    CompileOk(c, s, y);
    InfixFirst(c, s1, op, e1);
    AdvancesTransitive(c, s, s1, s2);
    ReadyAfter(c, s, Binary(op, y, z), s2, z, s2.freereg, c.o);
  }

  lemma OperatorFirst(c: Ctx, s: Gen, e1: Exp, z: Expr)
    requires First(c, s, e1, s.freereg) && Ready(Within(c, s.freereg, c.o), s, z) && Compile(c.m, s, z).Ok?
    ensures First(c, Compile(c.m, s, z).value.0, e1, s.freereg)
  {
    CompileOk(Within(c, s.freereg, c.o), s, z);
    FirstStays(c, s, Compile(c.m, s, z).value.0, e1, s.freereg);
  }

  lemma FirstNumber(c: Ctx, s: Gen, e1: Exp, e2: Exp, lo2: nat)
    requires First(c, s, e1, lo2) && !IsOperand(e1) && Fit(Within(c, lo2, c.o), s, e2) && IsOperand(e2)
    ensures Fit(Within(c, s.freereg, c.o), s, e1)
  {
  }

  lemma UnarySpec(m: Machine, s: Gen, op: ArithOp, e: Exp)
    requires IsUnary(op) && IsOperand(e) && e.kind.KNonReloc? && e.kind.reg < MAXSTACK
    ensures var s1, i := FreeExp(s, e), Arith(op, 0, e.kind.reg, 0);
            CodeArith(m, s, op, e, Exp(KNum(0.0), [], [])) ==
              if Code(s1, i).Err? then Err else Ok((Code(s1, i).value, Exp(KReloc(|s1.code|), [], [])))
  {
    OperandStays(s, e);
    FoldNeedsNumeral(m, op, e, Exp(KNum(0.0), [], []));
    hide Fold, ExpToRK, Code;
  }

  lemma BinarySpec(m: Machine, s: Gen, op: ArithOp, e1: Exp, e2: Exp)
    requires !IsUnary(op) && Fold(m, op, e1, e2).Err?
    ensures CodeArith(m, s, op, e1, e2) ==
      if ExpToRK(s, e2).Err? then Err
      else
        var s2, r2 := ExpToRK(s, e2).value.0, ExpToRK(s, e2).value.1;
        if ExpToRK(s2, e1).Err? then Err
        else
          var s1, r1 := ExpToRK(s2, e1).value.0, ExpToRK(s2, e1).value.1;
          var s3, i := FreeBoth(s1, r1, r2, RKOf(r1), RKOf(r2)), Arith(op, 0, RKOf(r1), RKOf(r2));
          if Code(s3, i).Err? then Err else Ok((Code(s3, i).value, r1.(kind := KReloc(|s3.code|))))
  {
    hide Fold, ExpToRK, Code, FreeBoth;
  }

  lemma CompSpec(s: Gen, op: CmpOp, cond: bool, e1: Exp, e2: Exp)
    requires IsOperand(e1)
    ensures CodeComp(s, op, cond, e1, e2) ==
      if ExpToRK(s, e2).Err? then Err
      else
        var s2, r2 := ExpToRK(s, e2).value.0, ExpToRK(s, e2).value.1;
        var s3, i := FreeExp(FreeExp(s2, r2), e1), ComparisonOf(op, cond, RKOf(e1), RKOf(r2));
        if CondJump(s3, i).Err? || CondJump(s3, i).value.1 == [] then Err
        else Ok((CondJump(s3, i).value.0, e1.(kind := KJmp(CondJump(s3, i).value.1[0]))))
    ensures forall s: Gen, i :: CondJump(s, i).Ok? ==> CondJump(s, i).value.1 != []
  {
    OperandStays(s, e1);
    hide ExpToRK, FreeExp, Code;
  }

  lemma OperandVal(s: Gen, e: Exp)
    requires IsOperand(e)
    ensures ExpToVal(s, e) == Ok((s, e))
  {
  }

  lemma GoIfSpec(s: Gen, e0: Exp, cond: bool)
    ensures var e := DischargeVars(e0); var r := Leave(s, e, cond);
            GoIf(s, e0, cond) ==
            if r.Err? then Err
            else
              var code := Concat(r.value.0.code, if cond then e.t else e.f, r.value.1);
              if code.Err? then Err
              else
                var held := PatchToHere(r.value.0.(code := code.value), if cond then e.f else e.t);
                if held.Err? then Err
                else Ok((held.value,
                         e.(t := if cond then e.t + r.value.1 else [], f := if cond then [] else e.f + r.value.1)))
  {
    hide Leave, Concat, PatchToHere;
  }

  lemma JumpedThreaded(c: Ctx, s: Gen, e: Exp, s': Gen, l: seq<nat>)
    requires Jumped(c, s, e, s', l)
    ensures Threaded(s'.code, e.t) && Threaded(s'.code, e.f)
  {
  }

  lemma JoinedThreaded(c: Ctx, s: Gen, e: Exp, s1: Gen, l: seq<nat>, cond: bool)
    requires Jumped(c, s, e, s1, l) && Concat(s1.code, if cond then e.t else e.f, l).Ok?
    ensures Threaded(Concat(s1.code, if cond then e.t else e.f, l).value, s1.jpc)
  {
    JoinedOk(c, s, e, s1, l, cond);
  }

  lemma RemoveKeepsThreads(code: seq<Instr>, l: seq<nat>, x: seq<nat>)
    requires Threaded(code, l) && Threaded(code, x)
    ensures Threaded(RemoveValues(code, l), x)
  {
    RemoveValuesEffect(code, l);
    RemovedThreaded(code, RemoveValues(code, l), l, x);
  }

  lemma CloseSpec(s: Gen, e: Exp, reg: nat)
    ensures CloseExits(s, e, reg) ==
      if !HasJumps(e) then Ok(s)
      else if !(NeedValue(s.code, e.t) || NeedValue(s.code, e.f)) then PatchExits(s, e, reg, NO_JUMP, NO_JUMP)
      else if LoadBools(s, e, reg).Err? then Err
      else PatchExits(LoadBools(s, e, reg).value, e, reg, |LoadBools(s, e, reg).value.code| - 2,
                      |LoadBools(s, e, reg).value.code| - 1)
  {
    hide NeedValue, PatchExits, LoadBools;
  }

  lemma NextRegFit(c: Ctx, s: Gen, e: Exp)
    requires Fit(c, s, e)
    ensures Fit(c, s, DischargeVars(e)) && !DischargeVars(e).kind.KLocal?
  {
    assert !DischargeVars(e).kind.KLocal?;
    hide Fit, DischargeVars, Advances;
    VarsOk(c, s, e);
  }

  lemma NextRegSpec(s: Gen, e: Exp)
    ensures var e1 := DischargeVars(e); var r := ReserveReg(FreeExp(s, e1));
            (r.Ok? ==> r.value.freereg > 0) &&
            ExpToNextReg(s, e) == if r.Err? then Err else ExpToReg(r.value, e1, r.value.freereg - 1)
  {
    hide ExpToReg, FreeExp;
  }

  lemma FitPlaced(c: Ctx, s: Gen, e: Exp)
    requires Fit(c, s, e)
    ensures Placed(c.m, s, e, c.o) && s.nactvar <= c.lo && (e.kind.KNonReloc? ==> e.kind.reg < MAXSTACK)
  {
  }

  lemma NoPending(s: Gen, s1: Gen, i: Instr)
    requires s.jpc == [] && s1 == GetLabel(s) && Code(s1, i).Ok?
    ensures Code(s1, i).value.jpc == [] && Threaded(Code(s1, i).value.code, [])
  {
  }
}
