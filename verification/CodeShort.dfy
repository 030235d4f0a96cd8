/** What the generator saves: where no instruction is needed, it makes none. */
module CodeShort {
  import opened LuaCode
  import opened CodeLists
  import opened CodeGen

  /** Two numerals become one at compile time, unless the result is not a number or they would be divided by zero. */
  lemma NumeralsFold(m: Machine, s: Gen, op: ArithOp, x: real, y: real)
    requires CodeArith(m, s, op, Exp(KNum(x), [], []), Exp(KNum(y), [], [])).Ok?
    ensures var r := CodeArith(m, s, op, Exp(KNum(x), [], []), Exp(KNum(y), [], [])).value; var v := m.fold(op, x, y);
            if op != Len && !m.isNan(v) && (y == 0.0 ==> op !in {Div, Mod}) then r == (s, Exp(KNum(v), [], []))
            else |r.0.code| > |s.code| && r.1.kind.KReloc?
  {
    hide ExpToRK, Code, FreeBoth;
    var e1, e2 := Exp(KNum(x), [], []), Exp(KNum(y), [], []);
    if Fold(m, op, e1, e2).Err? {
      if !IsUnary(op) { OperandGrows(s, e2); }
      var (s2, r2) := if IsUnary(op) then (s, e2) else ExpToRK(s, e2).value;
      OperandGrows(s2, e1);
      var s1, r1 := ExpToRK(s2, e1).value.0, ExpToRK(s2, e1).value.1;
      var o1, o2 := RKOf(r1), if IsUnary(op) then 0 else RKOf(r2);
      FreeBothCode(s1, r1, r2, o1, o2);
      EmitGrows(FreeBoth(s1, r1, r2, o1, o2), Arith(op, 0, o1, o2));
    }
  }

  lemma {:induction false} PatchLength(code: seq<Instr>, l: seq<nat>, vtarget: int, reg: nat, dtarget: int)
    requires PatchList(code, l, vtarget, reg, dtarget).Ok?
    ensures |PatchList(code, l, vtarget, reg, dtarget).value| == |code|
    decreases |l|
  {
    if l != [] {
      var code0, dest := PatchTestReg(code, l[0], reg), if CarriesValue(code, l[0]) then vtarget else dtarget;
      PatchLength(FixJump(code0, l[0], dest).value, l[1..], vtarget, reg, dtarget);
    }
  }

  lemma EmitGrows(s: Gen, i: Instr)
    requires Code(s, i).Ok?
    ensures |Code(s, i).value.code| == |s.code| + 1
  {
    PatchLength(s.code, s.jpc, |s.code|, NO_REG, |s.code|);
  }

  lemma FreeBothCode(s: Gen, e1: Exp, e2: Exp, o1: nat, o2: nat)
    ensures FreeBoth(s, e1, e2, o1, o2).code == s.code
  {
  }

  /** A numeral that goes to a register is loaded there by one instruction. */
  lemma NumeralToReg(s: Gen, e: Exp)
    requires IsNumeral(e) && ExpToAnyReg(s, e).Ok?
    ensures |ExpToAnyReg(s, e).value.0.code| == |s.code| + 1
  {
    hide Code;
    var s1 := ReserveReg(s).value;
    var s2, idx := AddK(s1, Num(e.kind.n)).value.0, AddK(s1, Num(e.kind.n)).value.1;
    EmitGrows(s2, LoadK(s1.freereg - 1, idx));
  }

  lemma OperandGrows(s: Gen, e: Exp)
    requires IsNumeral(e) && ExpToRK(s, e).Ok?
    ensures |ExpToRK(s, e).value.0.code| == |s.code| + if |s.k| <= 255 then 0 else 1
  {
    hide ExpToAnyReg;
    if |s.k| > 255 { NumeralToReg(s, e); }
  }

  /** While there are fewer than 256 constants, one is an operand without an instruction or a register. */
  lemma ConstantOperand(s: Gen, e: Exp)
    requires IsLiteral(e.kind) && e.t == e.f == [] && |s.k| <= 255
    requires forall v :: v in s.h ==> s.h[v] < |s.k| && s.k[s.h[v]] == v
    ensures ExpToRK(s, e).Ok? && var (s', e') := ExpToRK(s, e).value;
            s' == s.(k := s'.k, h := s'.h) && e'.kind.KK? && e'.kind.idx < |s'.k| &&
            s'.k[e'.kind.idx] == LiteralOf(e.kind) && 256 <= RKOf(e') < 512
  {
  }

  /** Nil for a register next to those that the last instruction sets to nil needs no instruction, unless a jump comes
      to here; neither does nil for a fresh register at the beginning of a function. */
  lemma NilMerges(s: Gen, reg: nat)
    requires CodeNil(s, reg).Ok?
    ensures var n, s' := |s.code|, CodeNil(s, reg).value;
            if n == 0 then if s.lasttarget < 0 && reg >= s.nactvar then s' == s else |s'.code| == 1
            else
              var last := s.code[n - 1];
              if n > s.lasttarget && last.LoadNil? && last.a <= reg <= last.b + 1 then
                s' == s.(code := s.code[..n - 1] + [LoadNil(last.a, if reg > last.b then reg else last.b)])
              else |s'.code| == n + 1
  {
    hide Code;
    if Code(s, LoadNil(reg, reg)).Ok? { EmitGrows(s, LoadNil(reg, reg)); }
  }
}
