/** The code generator's operations, as functions on its state.

    A list of open jumps is written as the sequence of its members; the same lists are threaded through
    the code (see `CodeLists`).  A function that can give up, as the original does by raising a syntax
    error, returns a `Result`. */
module CodeGen {
  import opened LuaCode
  import opened CodeLists

  /** `FuncState`: `code[..pc]`, the jumps to the next instruction, the last label, the first free register,
      the number of active locals, `maxstacksize`, and the constants with their index. */
  datatype Gen = Gen(code: seq<Instr>, jpc: seq<nat>, lasttarget: int, freereg: nat, nactvar: nat, maxstack: nat,
                     k: seq<Value>, h: map<Value, nat>)

  /** Where the value of an expression is. */
  datatype Kind =
    | KNil | KTrue | KFalse
    | KK(idx: nat)
    | KNum(n: real)
    | KLocal(reg: nat)
    | KNonReloc(reg: nat)
    | KReloc(pc: nat)
    | KJmp(pc: nat)

  /** `expdesc`: the kind, the jumps taken out of the expression when it is true, and when it is false. */
  datatype Exp = Exp(kind: Kind, t: seq<nat>, f: seq<nat>)

  predicate HasJumps(e: Exp)
  {
    Head(e.t) != Head(e.f)
  }

  predicate IsNumeral(e: Exp)
  {
    e.kind.KNum? && e.t == [] && e.f == []
  }

  // ----- emitting code -----

  function DischargeJpc(s: Gen): Result<Gen>
  {
    var code :- PatchList(s.code, s.jpc, |s.code|, NO_REG, |s.code|);
    Ok(s.(code := code, jpc := []))
  }

  /** `luaK_code`. */
  function Code(s: Gen, i: Instr): Result<Gen>
  {
    var s1 :- DischargeJpc(s);
    Ok(s1.(code := s1.code + [i]))
  }

  /** `luaK_jump`: an open jump, together with the jumps that were waiting for this position. */
  function Jump(s: Gen): Result<(Gen, seq<nat>)>
  {
    var j := |s.code|;
    var code :- Concat(s.code + [Jmp(NO_JUMP)], [j], s.jpc);
    Ok((s.(code := code, jpc := []), [j] + s.jpc))
  }

  /** `condjump`. */
  function CondJump(s: Gen, i: Instr): Result<(Gen, seq<nat>)>
  {
    var s1 :- Code(s, i);
    Jump(s1)
  }

  /** `luaK_getlabel`. */
  function GetLabel(s: Gen): Gen
  {
    s.(lasttarget := |s.code|)
  }

  /** `luaK_patchtohere`. */
  function PatchToHere(s: Gen, l: seq<nat>): Result<Gen>
  {
    var code :- Concat(s.code, s.jpc, l);
    Ok(GetLabel(s).(code := code, jpc := s.jpc + l))
  }

  function CodeLabel(s: Gen, reg: nat, v: bool, skip: bool): Result<Gen>
  {
    Code(GetLabel(s), LoadBool(reg, v, skip))
  }

  /** Whether `luaK_nil` can extend the `LOADNIL` that ends the code. */
  predicate MergesNil(s: Gen, from: nat)
  {
    |s.code| > s.lasttarget && s.code != [] &&
    var last := s.code[|s.code| - 1];
    last.LoadNil? && last.a <= from <= last.b + 1
  }

  /** `luaK_nil` for one register. */
  function CodeNil(s: Gen, from: nat): Result<Gen>
  {
    var n := |s.code|;
    if n > s.lasttarget && n == 0 && from >= s.nactvar then Ok(s)
    else if MergesNil(s, from) then
      var last := s.code[n - 1];
      Ok(if from > last.b then s.(code := s.code[n - 1 := LoadNil(last.a, from)]) else s)
    else Code(s, LoadNil(from, from))
  }

  // ----- registers and constants -----

  /** `luaK_reserveregs(fs, 1)`. */
  function ReserveReg(s: Gen): Result<Gen>
  {
    var newstack := s.freereg + 1;
    if newstack > s.maxstack then
      if newstack >= MAXSTACK then Err else Ok(s.(maxstack := newstack, freereg := newstack))
    else Ok(s.(freereg := newstack))
  }

  function FreeReg(s: Gen, reg: nat): Gen
  {
    if reg < BITRK && reg >= s.nactvar && s.freereg > 0 then s.(freereg := s.freereg - 1) else s
  }

  function FreeExp(s: Gen, e: Exp): Gen
  {
    if e.kind.KNonReloc? then FreeReg(s, e.kind.reg) else s
  }

  /** `addk`: the state with the constant, and its index. */
  function AddK(s: Gen, v: Value): Result<(Gen, nat)>
  {
    if v in s.h then Ok((s, s.h[v]))
    else if |s.k| >= MAXARG_BX then Err
    else Ok((s.(k := s.k + [v], h := s.h[v := |s.k|]), |s.k|))
  }

  // ----- putting a value somewhere -----

  /** `luaK_dischargevars`. */
  function DischargeVars(e: Exp): Exp
  {
    if e.kind.KLocal? then e.(kind := KNonReloc(e.kind.reg)) else e
  }

  /** `SETARG_A` on an instruction with a result. */
  function WithA(i: Instr, reg: nat): Instr
  {
    if i.Arith? then Arith(i.op, reg, i.b, i.c) else if i.Not? then Not(reg, i.b) else i
  }

  /** `discharge2reg`. */
  function DischargeToReg(s: Gen, e0: Exp, reg: nat): Result<(Gen, Exp)>
  {
    var e := DischargeVars(e0);
    var done := e.(kind := KNonReloc(reg));
    match e.kind
    case KNil => var s1 :- CodeNil(s, reg); Ok((s1, done))
    case KFalse => var s1 :- Code(s, LoadBool(reg, false, false)); Ok((s1, done))
    case KTrue => var s1 :- Code(s, LoadBool(reg, true, false)); Ok((s1, done))
    case KK(idx) => var s1 :- Code(s, LoadK(reg, idx)); Ok((s1, done))
    case KNum(n) =>
      var (s1, idx) :- AddK(s, Num(n));
      var s2 :- Code(s1, LoadK(reg, idx));
      Ok((s2, done))
    case KReloc(pc) =>
      Ok((if pc < |s.code| then s.(code := s.code[pc := WithA(s.code[pc], reg)]) else s, done))
    case KNonReloc(r) =>
      if r == reg then Ok((s, done)) else var s1 :- Code(s, Move(reg, r)); Ok((s1, done))
    case _ => Ok((s, e))
  }

  /** `discharge2anyreg`. */
  function DischargeToAnyReg(s: Gen, e: Exp): Result<(Gen, Exp)>
  {
    if e.kind.KNonReloc? then Ok((s, e))
    else
      var s1 :- ReserveReg(s);
      DischargeToReg(s1, e, s1.freereg - 1)
  }

  /** The loads of false and true that `exp2reg` puts behind an expression some of whose exits carry no
      value; they are at the two positions before the end. */
  function LoadBools(s: Gen, e: Exp, reg: nat): Result<Gen>
  {
    var (s1, fj) :- if e.kind.KJmp? then Ok((s, [])) else Jump(s);
    var s2 :- CodeLabel(s1, reg, false, true);
    var s3 :- CodeLabel(s2, reg, true, false);
    PatchToHere(s3, fj)
  }

  /** The exits of an expression patched so that they leave its value in the register. */
  function PatchExits(s: Gen, e: Exp, reg: nat, pf: int, pt: int): Result<Gen>
  {
    var final := |s.code|;
    var code1 :- PatchList(s.code, e.f, final, reg, pf);
    var code2 :- PatchList(code1, e.t, final, reg, pt);
    Ok(GetLabel(s).(code := code2))
  }

  /** The first half of `exp2reg`: the value goes to the register; or the jump of a comparison joins the exits. */
  function GatherExits(s: Gen, e: Exp, reg: nat): Result<(Gen, Exp)>
  {
    var (s1, e1) :- DischargeToReg(s, e, reg);
    if !e1.kind.KJmp? then Ok((s1, e1))
    else
      var code :- Concat(s1.code, e1.t, [e1.kind.pc]);
      Ok((s1.(code := code), e1.(t := e1.t + [e1.kind.pc])))
  }

  /** The second half: every exit is made to leave its value in the register. */
  function CloseExits(s: Gen, e: Exp, reg: nat): Result<Gen>
  {
    if !HasJumps(e) then Ok(s)
    else if NeedValue(s.code, e.t) || NeedValue(s.code, e.f) then
      var s1 :- LoadBools(s, e, reg);
      PatchExits(s1, e, reg, |s1.code| - 2, |s1.code| - 1)
    else
      PatchExits(s, e, reg, NO_JUMP, NO_JUMP)
  }

  /** `exp2reg`. */
  function ExpToReg(s: Gen, e: Exp, reg: nat): Result<(Gen, Exp)>
  {
    var (s1, e1) :- GatherExits(s, e, reg);
    var s2 :- CloseExits(s1, e1, reg);
    Ok((s2, Exp(KNonReloc(reg), [], [])))
  }

  /** `luaK_exp2nextreg`. */
  function ExpToNextReg(s: Gen, e0: Exp): Result<(Gen, Exp)>
  {
    var e := DischargeVars(e0);
    var s1 :- ReserveReg(FreeExp(s, e));
    ExpToReg(s1, e, s1.freereg - 1)
  }

  /** `luaK_exp2anyreg`. */
  function ExpToAnyReg(s: Gen, e0: Exp): Result<(Gen, Exp)>
  {
    var e := DischargeVars(e0);
    if e.kind.KNonReloc? && !HasJumps(e) then Ok((s, e))
    else if e.kind.KNonReloc? && e.kind.reg >= s.nactvar then ExpToReg(s, e, e.kind.reg)
    else ExpToNextReg(s, e)
  }

  /** `luaK_exp2val`. */
  function ExpToVal(s: Gen, e: Exp): Result<(Gen, Exp)>
  {
    if HasJumps(e) then ExpToAnyReg(s, e) else Ok((s, DischargeVars(e)))
  }

  /** The constant that an expression is, if it is one that is not in the table yet. */
  predicate IsLiteral(k: Kind)
  {
    k.KNum? || k.KTrue? || k.KFalse? || k.KNil?
  }

  function LiteralOf(k: Kind): Value
    requires IsLiteral(k)
  {
    match k
    case KNum(n) => Num(n)
    case KTrue => Bool(true)
    case KFalse => Bool(false)
    case KNil => Nil
  }

  /** `luaK_exp2RK`: the expression becomes a register or a constant, whose operand `RKOf` gives. */
  function ExpToRK(s: Gen, e0: Exp): Result<(Gen, Exp)>
  {
    var (s1, e) :- ExpToVal(s, e0);
    if IsLiteral(e.kind) && |s1.k| <= MAXINDEXRK then
      var (s2, idx) :- AddK(s1, LiteralOf(e.kind));
      Ok((s2, e.(kind := KK(idx))))
    else if e.kind.KK? && e.kind.idx <= MAXINDEXRK then Ok((s1, e))
    else ExpToAnyReg(s1, e)
  }

  function RKOf(e: Exp): nat
  {
    match e.kind
    case KK(idx) => BITRK + idx
    case KNonReloc(reg) => reg
    case _ => 0
  }

  // ----- conditions -----

  /** `invertjump`. */
  function Inverted(i: Instr): Instr
  {
    if i.Compare? then Compare(i.cmp, !i.cond, i.b, i.c) else i
  }

  function InvertJump(s: Gen, pc: nat): Gen
  {
    if pc < |s.code| then
      var c := Control(s.code, pc);
      s.(code := s.code[c := Inverted(s.code[c])])
    else s
  }

  predicate IsNotAt(s: Gen, k: Kind)
  {
    k.KReloc? && k.pc < |s.code| && s.code[k.pc].Not?
  }

  /** `jumponcond`: a jump out of the expression when its truth is `cond`. */
  function JumpOnCond(s: Gen, e: Exp, cond: bool): Result<(Gen, seq<nat>)>
  {
    if IsNotAt(s, e.kind) then
      CondJump(s.(code := s.code[..|s.code| - 1]), Test(s.code[e.kind.pc].b, !cond))
    else
      var (s1, e1) :- DischargeToAnyReg(s, e);
      CondJump(FreeExp(s1, e1), TestSet(NO_REG, if e1.kind.KNonReloc? then e1.kind.reg else 0, cond))
  }

  /** Whether the constant has this truth for `luaK_goiftrue` (false) or `luaK_goiffalse` (true), without a
      test. */
  predicate NeverLeaves(k: Kind, cond: bool)
  {
    if cond then k.KNil? || k.KFalse? else k.KK? || k.KNum? || k.KTrue?
  }

  predicate AlwaysLeaves(k: Kind, cond: bool)
  {
    if cond then k.KTrue? else k.KFalse?
  }

  /** The jump out of the expression when its truth is `cond`, as a list. */
  function Leave(s: Gen, e: Exp, cond: bool): Result<(Gen, seq<nat>)>
  {
    if NeverLeaves(e.kind, cond) then Ok((s, []))
    else if AlwaysLeaves(e.kind, cond) then Jump(s)
    else if e.kind.KJmp? then Ok((if cond then s else InvertJump(s, e.kind.pc), [e.kind.pc]))
    else JumpOnCond(s, e, cond)
  }

  /** `luaK_goiftrue`, with `cond` false: control goes on when the expression is true, and leaves by list `f`
      when it is false.  `luaK_goiffalse`, with `cond` true, is the other way round. */
  function GoIf(s: Gen, e0: Exp, cond: bool): Result<(Gen, Exp)>
  {
    var e := DischargeVars(e0);
    var (s1, l) :- Leave(s, e, cond);
    var code :- Concat(s1.code, if cond then e.t else e.f, l);
    var s2 :- PatchToHere(s1.(code := code), if cond then e.f else e.t);
    Ok((s2, e.(t := if cond then e.t + l else [], f := if cond then [] else e.f + l)))
  }

  // ----- operators -----

  /** The value part of `codenot`. */
  function NegateValue(s: Gen, e: Exp): Result<(Gen, Exp)>
  {
    match e.kind
    case KNil => Ok((s, e.(kind := KTrue)))
    case KFalse => Ok((s, e.(kind := KTrue)))
    case KK(_) => Ok((s, e.(kind := KFalse)))
    case KNum(_) => Ok((s, e.(kind := KFalse)))
    case KTrue => Ok((s, e.(kind := KFalse)))
    case KJmp(pc) => Ok((InvertJump(s, pc), e))
    case _ =>
      var (s1, e1) :- DischargeToAnyReg(s, e);
      var s2 := FreeExp(s1, e1);
      var s3 :- Code(s2, Not(0, if e1.kind.KNonReloc? then e1.kind.reg else 0));
      Ok((s3, e1.(kind := KReloc(|s2.code|))))
  }

  /** `codenot`. */
  function CodeNot(s: Gen, e0: Exp): Result<(Gen, Exp)>
  {
    var (s1, e) :- NegateValue(s, DischargeVars(e0));
    Ok((s1.(code := RemoveValues(RemoveValues(s1.code, e.t), e.f)), Exp(e.kind, e.f, e.t)))
  }

  /** `constfolding`: the number that the operation gives, when it may be computed at compile time. */
  function Fold(m: Machine, op: ArithOp, e1: Exp, e2: Exp): Result<real>
  {
    if !IsNumeral(e1) || !IsNumeral(e2) || op.Len? then Err
    else if (op.Div? || op.Mod?) && e2.kind.n == 0.0 then Err
    else
      var r := m.fold(op, e1.kind.n, e2.kind.n);
      if m.isNan(r) then Err else Ok(r)
  }

  function FreeBoth(s: Gen, e1: Exp, e2: Exp, o1: nat, o2: nat): Gen
  {
    if o1 > o2 then FreeExp(FreeExp(s, e1), e2) else FreeExp(FreeExp(s, e2), e1)
  }

  /** `codearith`. */
  function CodeArith(m: Machine, s: Gen, op: ArithOp, e1: Exp, e2: Exp): Result<(Gen, Exp)>
  {
    var folded := Fold(m, op, e1, e2);
    if folded.Ok? then Ok((s, e1.(kind := KNum(folded.value))))
    else
      var (s2, r2) :- if IsUnary(op) then Ok((s, e2)) else ExpToRK(s, e2);
      var (s1, r1) :- ExpToRK(s2, e1);
      var o1, o2 := RKOf(r1), if IsUnary(op) then 0 else RKOf(r2);
      var s3 := FreeBoth(s1, r1, r2, o1, o2);
      var s4 :- Code(s3, Arith(op, 0, o1, o2));
      Ok((s4, r1.(kind := KReloc(|s3.code|))))
  }

  /** `codecomp`. */
  function CodeComp(s: Gen, op: CmpOp, cond: bool, e1: Exp, e2: Exp): Result<(Gen, Exp)>
  {
    var (s1, r1) :- ExpToRK(s, e1);
    var (s2, r2) :- ExpToRK(s1, e2);
    var s3 := FreeExp(FreeExp(s2, r2), r1);
    var i := if !cond && op != Eq then Compare(op, true, RKOf(r2), RKOf(r1)) else Compare(op, cond, RKOf(r1), RKOf(r2));
    var (s4, l) :- CondJump(s3, i);
    Ok((s4, r1.(kind := KJmp(l[0]))))
  }

  datatype BinOp = OprArith(op: ArithOp) | OprCmp(cmp: CmpOp, cond: bool) | OprAnd | OprOr

  datatype UnOp = OprMinus | OprNot | OprLen

  /** `luaK_prefix`. */
  function Prefix(m: Machine, s: Gen, op: UnOp, e: Exp): Result<(Gen, Exp)>
  {
    var zero := Exp(KNum(0.0), [], []);
    match op
    case OprMinus =>
      var (s1, e1) :- if IsNumeral(e) then Ok((s, e)) else ExpToAnyReg(s, e);
      CodeArith(m, s1, Unm, e1, zero)
    case OprNot => CodeNot(s, e)
    case OprLen =>
      var (s1, e1) :- ExpToAnyReg(s, e);
      CodeArith(m, s1, Len, e1, zero)
  }

  /** `luaK_infix`. */
  function Infix(s: Gen, op: BinOp, e: Exp): Result<(Gen, Exp)>
  {
    match op
    case OprAnd => GoIf(s, e, false)
    case OprOr => GoIf(s, e, true)
    case OprArith(_) => if IsNumeral(e) then Ok((s, e)) else ExpToRK(s, e)
    case OprCmp(_, _) => ExpToRK(s, e)
  }

  /** `luaK_posfix`. */
  function Posfix(m: Machine, s: Gen, op: BinOp, e1: Exp, e2: Exp): Result<(Gen, Exp)>
  {
    match op
    case OprAnd =>
      var e := DischargeVars(e2);
      var code :- Concat(s.code, e.f, e1.f);
      Ok((s.(code := code), e.(f := e.f + e1.f)))
    case OprOr =>
      var e := DischargeVars(e2);
      var code :- Concat(s.code, e.t, e1.t);
      Ok((s.(code := code), e.(t := e.t + e1.t)))
    case OprArith(op) => CodeArith(m, s, op, e1, e2)
    case OprCmp(cmp, cond) => CodeComp(s, cmp, cond, e1, e2)
  }
}
