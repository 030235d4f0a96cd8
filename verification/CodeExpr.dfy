/** Expressions, what they evaluate to, and the order in which the parser drives the code generator. */
module CodeExpr {
  import opened LuaCode
  import opened CodeGen
  import opened CodeConds

  datatype Expr =
    | Local(i: nat)
    | ENil | ETrue | EFalse
    | ENum(n: real)
    | EStr(s: string)
    | Paren(inner: Expr)
    | Unary(uop: UnOp, arg: Expr)
    | Binary(bop: BinOp, left: Expr, right: Expr)

  /** Locals are active, numerals are not NaN, and binary arithmetic has a binary operator. */
  ghost predicate WellFormed(m: Machine, x: Expr, nactvar: nat)
  {
    match x
    case Local(i) => i < nactvar
    case ENum(n) => !m.isNan(n)
    case Paren(y) => WellFormed(m, y, nactvar)
    case Unary(_, y) => WellFormed(m, y, nactvar)
    case Binary(op, y, z) => WellFormed(m, y, nactvar) && WellFormed(m, z, nactvar) &&
      (op.OprArith? ==> !IsUnary(op.op))
    case _ => true
  }

  /** The value of a comparison; greater-than is less-than with the operands exchanged. */
  function EvalCompare(m: Machine, cmp: CmpOp, cond: bool, v: Value, w: Value): Value
  {
    if !cond && cmp != Eq then Bool(m.compare(cmp, w, v)) else Bool(m.compare(cmp, v, w) == cond)
  }

  /** The meaning of an expression, given the registers of the locals. */
  function Eval(m: Machine, x: Expr, regs: seq<Value>): Value
  {
    match x
    case Local(i) => Get(regs, i)
    case ENil => Nil
    case ETrue => Bool(true)
    case EFalse => Bool(false)
    case ENum(n) => Num(n)
    case EStr(s) => Str(s)
    case Paren(y) => Eval(m, y, regs)
    case Unary(op, y) =>
      var v := Eval(m, y, regs);
      (match op
       case OprNot => Bool(!Truthy(v))
       case OprMinus => Operate(m, Unm, v, Nil)
       case OprLen => Operate(m, Len, v, Nil))
    case Binary(op, y, z) =>
      var v := Eval(m, y, regs);
      (match op
       case OprAnd => if Truthy(v) then Eval(m, z, regs) else v
       case OprOr => if Truthy(v) then v else Eval(m, z, regs)
       case OprArith(a) => Operate(m, a, v, Eval(m, z, regs))
       case OprCmp(cmp, cond) => EvalCompare(m, cmp, cond, v, Eval(m, z, regs)))
  }

  /** The calls that `subexpr` and `simpleexp` make for an expression: the left operand, `luaK_infix`, the right
      operand, `luaK_posfix`; an operand and `luaK_prefix`; `luaK_dischargevars` for parentheses. */
  function Compile(m: Machine, s: Gen, x: Expr): Result<(Gen, Exp)>
    decreases x
  {
    match x
    case Local(i) => Ok((s, Exp(KLocal(i), [], [])))
    case ENil => Ok((s, Exp(KNil, [], [])))
    case ETrue => Ok((s, Exp(KTrue, [], [])))
    case EFalse => Ok((s, Exp(KFalse, [], [])))
    case ENum(n) => Ok((s, Exp(KNum(n), [], [])))
    case EStr(str) =>
      var (s1, idx) :- AddK(s, Str(str));
      Ok((s1, Exp(KK(idx), [], [])))
    case Paren(y) =>
      var (s1, e) :- Compile(m, s, y);
      Ok((s1, DischargeVars(e)))
    case Unary(op, y) =>
      var (s1, e) :- Compile(m, s, y);
      Prefix(m, s1, op, e)
    case Binary(op, y, z) =>
      var (s1, e1) :- Compile(m, s, y);
      var (s2, r1) :- Infix(s1, op, e1);
      var (s3, e2) :- Compile(m, s2, z);
      Posfix(m, s3, op, r1, e2)
  }

  /** No `and` or `or` in the expression has, as its left operand, a constant that decides it while jumps that
      carry a value wait for that constant. */
  ghost predicate CleanIn(m: Machine, s: Gen, x: Expr)
    requires Compile(m, s, x).Ok?
    decreases x
  {
    match x
    case Paren(y) => CleanIn(m, s, y)
    case Unary(_, y) => CleanIn(m, s, y)
    case Binary(op, y, z) =>
      var (s1, e1) := Compile(m, s, y).value;
      var (s2, r1) := Infix(s1, op, e1).value;
      CleanIn(m, s, y) && CleanIn(m, s2, z) && (op.OprAnd? ==> Clean(s1, e1, false)) &&
      (op.OprOr? ==> Clean(s1, e1, true))
    case _ => true
  }

  /** The value depends only on the locals. */
  lemma {:induction false} EvalKeeps(m: Machine, x: Expr, regs: seq<Value>, regs': seq<Value>, nactvar: nat)
    requires WellFormed(m, x, nactvar) && nactvar <= |regs| == |regs'| &&
             forall i :: 0 <= i < nactvar ==> regs'[i] == regs[i]
    ensures Eval(m, x, regs') == Eval(m, x, regs)
  {
    match x
    case Paren(y) => EvalKeeps(m, y, regs, regs', nactvar);
    case Unary(_, y) => EvalKeeps(m, y, regs, regs', nactvar);
    case Binary(_, y, z) =>
      EvalKeeps(m, y, regs, regs', nactvar);
      EvalKeeps(m, z, regs, regs', nactvar);
    case _ =>
  }
}
