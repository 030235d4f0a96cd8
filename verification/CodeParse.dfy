/** One pass over the tokens: the parser drives the code generator while it reads. */
module CodeParse {
  import opened Options
  import opened LuaCode
  import opened CodeGen
  import opened CodeShape
  import opened CodeRuns
  import opened CodeExpr
  import opened CodeTheorem
  import P = LuaParser
  import LuaGrammar

  /** Concatenation is not modelled by the code generator. */
  ghost predicate Plain(ts: seq<P.Token>)
  {
    P.Operator(P.Concat) !in ts
  }

  function UnaryOp(u: P.UnOpr): UnOp
  {
    match u
    case Not => OprNot
    case Minus => OprMinus
    case Len => OprLen
  }

  /** The operators of `luaK_posfix`: greater-than is less-than with the operands exchanged. */
  function BinaryOp(op: P.BinOpr): BinOp
    requires !op.Concat?
  {
    match op
    case Add => OprArith(Add)
    case Sub => OprArith(Sub)
    case Mul => OprArith(Mul)
    case Div => OprArith(Div)
    case Mod => OprArith(Mod)
    case Pow => OprArith(Pow)
    case Ne => OprCmp(Eq, false)
    case Eq => OprCmp(Eq, true)
    case Lt => OprCmp(Lt, true)
    case Le => OprCmp(Le, true)
    case Gt => OprCmp(Lt, false)
    case Ge => OprCmp(Le, false)
    case And => OprAnd
    case Or => OprOr
  }

  /** The expression of a tree, whose leaves are simple expressions. */
  ghost function ToExpr(leaf: nat -> Expr, t: P.Tree): Expr
    requires Plain(P.Yield(t))
  {
    match t
    case Leaf(id) => leaf(id)
    case Un(u, x) => Unary(UnaryOp(u), ToExpr(leaf, x))
    case Bin(op, l, r) =>
      assert P.Operator(op) in P.Yield(t);
      Binary(BinaryOp(op), ToExpr(leaf, l), ToExpr(leaf, r))
  }

  // ----- subexpr, with the calls of the code generator in their places -----

  ghost function OnePass(m: Machine, s: Gen, leaf: nat -> Expr, ts: seq<P.Token>, limit: nat, levels: nat)
    : (r: Result<(Gen, Exp, seq<P.Token>)>)
    requires Plain(ts)
    ensures r.Ok? ==> |r.value.2| < |ts| && Plain(r.value.2)
    decreases levels, |ts|, 1
  {
    if levels == 0 || ts == [] then Err
    else if P.UnaryOf(ts[0]).Some? then
      var (s1, e1, rest) :- OnePass(m, s, leaf, ts[1..], P.UNARY_PRIORITY, levels - 1);
      var (s2, e2) :- Prefix(m, s1, UnaryOp(P.UnaryOf(ts[0]).value), e1);
      OneMore(m, s2, leaf, e2, rest, limit, levels)
    else if ts[0].Simple? then
      var (s1, e1) :- Compile(m, s, leaf(ts[0].id));
      OneMore(m, s1, leaf, e1, ts[1..], limit, levels)
    else Err
  }

  ghost function OneMore(m: Machine, s: Gen, leaf: nat -> Expr, e: Exp, ts: seq<P.Token>, limit: nat, levels: nat)
    : (r: Result<(Gen, Exp, seq<P.Token>)>)
    requires levels > 0 && Plain(ts)
    ensures r.Ok? ==> |r.value.2| <= |ts| && Plain(r.value.2)
    decreases levels, |ts|, 0
  {
    match P.NextOp(ts, limit)
    case None => Ok((s, e, ts))
    case Some(op) =>
      var (s1, e1) :- Infix(s, BinaryOp(op), e);
      var (s2, e2, rest) :- OnePass(m, s1, leaf, ts[1..], P.RightPriority(op), levels - 1);
      var (s3, e3) :- Posfix(m, s2, BinaryOp(op), e1, e2);
      OneMore(m, s3, leaf, e3, rest, limit, levels)
  }

  /** Parsing first and generating code afterwards. */
  ghost function TwoPass(m: Machine, s: Gen, leaf: nat -> Expr, p: Option<(P.Tree, seq<P.Token>)>)
    : Result<(Gen, Exp, seq<P.Token>)>
    requires p.Some? ==> Plain(P.Yield(p.value.0))
  {
    if p.None? then Err
    else
      var (s1, e1) :- Compile(m, s, ToExpr(leaf, p.value.0));
      Ok((s1, e1, p.value.1))
  }

  lemma ParsePlain(ts: seq<P.Token>, limit: nat, levels: nat)
    requires Plain(ts)
    ensures var p := P.Parse(ts, limit, levels); p.Some? ==> Plain(P.Yield(p.value.0)) && Plain(p.value.1)
  {
    if P.Parse(ts, limit, levels).Some? {
      P.ParseSound(ts, limit, levels);
      assert forall x :: x in P.Yield(P.Parse(ts, limit, levels).value.0) ==> x in ts;
      assert forall x :: x in P.Parse(ts, limit, levels).value.1 ==> x in ts;
    }
  }

  lemma BinPlain(op: P.BinOpr, l: P.Tree, r: P.Tree)
    requires Plain(P.Yield(l)) && Plain(P.Yield(r)) && !op.Concat?
    ensures Plain(P.Yield(P.Bin(op, l, r)))
  {
  }

  lemma UnPlain(u: P.UnOpr, x: P.Tree)
    requires Plain(P.Yield(x))
    ensures Plain(P.Yield(P.Un(u, x)))
  {
  }

  lemma {:induction false} ExtendPlain(t: P.Tree, ts: seq<P.Token>, limit: nat, levels: nat)
    requires levels > 0 && Plain(P.Yield(t)) && Plain(ts)
    ensures var p := P.Extend(t, ts, limit, levels); p.Some? ==> Plain(P.Yield(p.value.0)) && Plain(p.value.1)
    decreases levels, |ts|
  {
    if P.NextOp(ts, limit).Some? {
      var op := ts[0].op;
      ParsePlain(ts[1..], P.RightPriority(op), levels - 1);
      var p := P.Parse(ts[1..], P.RightPriority(op), levels - 1);
      if p.Some? {
        BinPlain(op, t, p.value.0);
        ExtendPlain(P.Bin(op, t, p.value.0), p.value.1, limit, levels);
      }
    }
  }

  /** A tree whose code cannot be generated stays one, whatever is added to it. */
  lemma {:induction false} MoreFails(m: Machine, s: Gen, leaf: nat -> Expr, t: P.Tree, ts: seq<P.Token>,
                                     limit: nat, levels: nat)
    requires levels > 0 && Plain(P.Yield(t)) && Plain(ts) && Compile(m, s, ToExpr(leaf, t)).Err?
    ensures var p := P.Extend(t, ts, limit, levels);
            (p.Some? ==> Plain(P.Yield(p.value.0))) && TwoPass(m, s, leaf, p).Err?
    decreases levels, |ts|
  {
    hide Infix, Posfix, Prefix;
    ExtendPlain(t, ts, limit, levels);
    if P.NextOp(ts, limit).Some? {
      var op := ts[0].op;
      ParsePlain(ts[1..], P.RightPriority(op), levels - 1);
      var p := P.Parse(ts[1..], P.RightPriority(op), levels - 1);
      if p.Some? {
        BinPlain(op, t, p.value.0);
        MoreFails(m, s, leaf, P.Bin(op, t, p.value.0), p.value.1, limit, levels);
      }
    }
  }

  /** One pass generates the code that a parser with a tree would, and fails when that fails. */
  lemma {:induction false} OnePassIs(m: Machine, s: Gen, leaf: nat -> Expr, ts: seq<P.Token>, limit: nat, levels: nat)
    requires Plain(ts)
    ensures var p := P.Parse(ts, limit, levels);
            (p.Some? ==> Plain(P.Yield(p.value.0))) && OnePass(m, s, leaf, ts, limit, levels) == TwoPass(m, s, leaf, p)
    decreases levels, |ts|, 1
  {
    hide Infix, Posfix, Prefix;
    ParsePlain(ts, limit, levels);
    if levels > 0 && ts != [] {
      if P.UnaryOf(ts[0]).Some? {
        var q := P.Parse(ts[1..], P.UNARY_PRIORITY, levels - 1);
        OnePassIs(m, s, leaf, ts[1..], P.UNARY_PRIORITY, levels - 1);
        ParsePlain(ts[1..], P.UNARY_PRIORITY, levels - 1);
        if q.Some? {
          var t := P.Un(P.UnaryOf(ts[0]).value, q.value.0);
          UnPlain(t.uop, t.arg);
          OneMoreIs(m, s, leaf, t, q.value.1, limit, levels);
        }
      } else if ts[0].Simple? {
        OneMoreIs(m, s, leaf, P.Leaf(ts[0].id), ts[1..], limit, levels);
      }
    }
  }

  /** The code of a binary tree, with the right operand's in its place. */
  lemma CompileBin(m: Machine, s: Gen, leaf: nat -> Expr, op: P.BinOpr, l: P.Tree, r: P.Tree)
    requires Plain(P.Yield(l)) && Plain(P.Yield(r)) && !op.Concat? && Compile(m, s, ToExpr(leaf, l)).Ok?
    ensures Plain(P.Yield(P.Bin(op, l, r)))
    ensures var c := Compile(m, s, ToExpr(leaf, l)).value;
            var i := Infix(c.0, BinaryOp(op), c.1);
            Compile(m, s, ToExpr(leaf, P.Bin(op, l, r))) ==
            if i.Err? then Err
            else
              var d := Compile(m, i.value.0, ToExpr(leaf, r));
              if d.Err? then Err else Posfix(m, d.value.0, BinaryOp(op), i.value.1, d.value.1)
  {
    hide Infix, Posfix;
    BinPlain(op, l, r);
  }

  lemma {:induction false} OneMoreIs(m: Machine, s: Gen, leaf: nat -> Expr, t: P.Tree, ts: seq<P.Token>,
                                     limit: nat, levels: nat)
    requires levels > 0 && Plain(P.Yield(t)) && Plain(ts)
    ensures var p, c := P.Extend(t, ts, limit, levels), Compile(m, s, ToExpr(leaf, t));
            (p.Some? ==> Plain(P.Yield(p.value.0))) &&
            TwoPass(m, s, leaf, p) == if c.Err? then Err else OneMore(m, c.value.0, leaf, c.value.1, ts, limit, levels)
    decreases levels, |ts|, 0
  {
    hide Infix, Posfix, Prefix, Compile;
    ExtendPlain(t, ts, limit, levels);
    var c := Compile(m, s, ToExpr(leaf, t));
    if c.Err? {
      MoreFails(m, s, leaf, t, ts, limit, levels);
    } else if P.NextOp(ts, limit).Some? {
      var op := ts[0].op;
      var q := P.Parse(ts[1..], P.RightPriority(op), levels - 1);
      ParsePlain(ts[1..], P.RightPriority(op), levels - 1);
      var i := Infix(c.value.0, BinaryOp(op), c.value.1);
      if i.Ok? { OnePassIs(m, i.value.0, leaf, ts[1..], P.RightPriority(op), levels - 1); }
      if q.Some? {
        CompileBin(m, s, leaf, op, t, q.value.0);
        OneMoreIs(m, s, leaf, P.Bin(op, t, q.value.0), q.value.1, limit, levels);
      }
    }
  }

  // ----- from tokens to values -----

  /** Every simple expression among the tokens is well formed. */
  ghost predicate LeavesOk(m: Machine, leaf: nat -> Expr, ts: seq<P.Token>, nactvar: nat)
  {
    forall id :: P.Simple(id) in ts ==> WellFormed(m, leaf(id), nactvar)
  }

  lemma {:induction false} ToExprOk(m: Machine, leaf: nat -> Expr, t: P.Tree, nactvar: nat)
    requires Plain(P.Yield(t)) && LeavesOk(m, leaf, P.Yield(t), nactvar)
    ensures WellFormed(m, ToExpr(leaf, t), nactvar)
    decreases t
  {
    match t
    case Leaf(id) =>
    case Un(u, x) => ToExprOk(m, leaf, x, nactvar);
    case Bin(op, l, r) =>
      ToExprOk(m, leaf, l, nactvar);
      ToExprOk(m, leaf, r, nactvar);
  }

  /** What the operators of a tree mean, as the manual has it: `and` and `or` give one of their operands and need not
      look at the second; greater-than is less-than the other way round, and different is not equal. */
  ghost function TreeValue(m: Machine, leaf: nat -> Expr, t: P.Tree, regs: seq<Value>): Value
    requires Plain(P.Yield(t))
  {
    match t
    case Leaf(id) => Eval(m, leaf(id), regs)
    case Un(u, x) =>
      var v := TreeValue(m, leaf, x, regs);
      (match u
       case Not => Bool(!Truthy(v))
       case Minus => m.arith(Unm, v, Num(0.0))
       case Len => m.arith(Len, v, Num(0.0)))
    case Bin(op, l, r) =>
      assert P.Operator(op) in P.Yield(t);
      OperatorValue(m, op, TreeValue(m, leaf, l, regs), TreeValue(m, leaf, r, regs))
  }

  function OperatorValue(m: Machine, op: P.BinOpr, v: Value, w: Value): Value
    requires !op.Concat?
  {
    match op
    case Add => m.arith(Add, v, w)
    case Sub => m.arith(Sub, v, w)
    case Mul => m.arith(Mul, v, w)
    case Div => m.arith(Div, v, w)
    case Mod => m.arith(Mod, v, w)
    case Pow => m.arith(Pow, v, w)
    case Eq => Bool(m.compare(Eq, v, w))
    case Ne => Bool(!m.compare(Eq, v, w))
    case Lt => Bool(m.compare(Lt, v, w))
    case Le => Bool(m.compare(Le, v, w))
    case Gt => Bool(m.compare(Lt, w, v))
    case Ge => Bool(m.compare(Le, w, v))
    case And => if v == Nil || v == Bool(false) then v else w
    case Or => if v == Nil || v == Bool(false) then w else v
  }

  lemma {:induction false} EvalTree(m: Machine, leaf: nat -> Expr, t: P.Tree, regs: seq<Value>)
    requires Plain(P.Yield(t))
    ensures Eval(m, ToExpr(leaf, t), regs) == TreeValue(m, leaf, t, regs)
    decreases t
  {
    match t
    case Leaf(_) =>
    case Un(_, x) => EvalTree(m, leaf, x, regs);
    case Bin(op, l, r) =>
      assert P.Operator(op) in P.Yield(t);
      EvalTree(m, leaf, l, regs);
      EvalTree(m, leaf, r, regs);
      EvalOperator(m, op, ToExpr(leaf, l), ToExpr(leaf, r), regs);
  }

  lemma EvalOperator(m: Machine, op: P.BinOpr, y: Expr, z: Expr, regs: seq<Value>)
    requires !op.Concat?
    ensures Eval(m, Binary(BinaryOp(op), y, z), regs) == OperatorValue(m, op, Eval(m, y, regs), Eval(m, z, regs))
  {
  }

  /** `expr` followed by `luaK_exp2nextreg`, and the tokens left. */
  ghost function TokensToNextReg(m: Machine, s: Gen, leaf: nat -> Expr, ts: seq<P.Token>, levels: nat)
    : Result<(Gen, seq<P.Token>)>
    requires Plain(ts)
  {
    var (s1, e1, rest) :- OnePass(m, s, leaf, ts, 0, levels);
    var (s2, _) :- ExpToNextReg(s1, e1);
    Ok((s2, rest))
  }

  lemma TokensCompile(m: Machine, s: Gen, leaf: nat -> Expr, t: P.Tree, rest: seq<P.Token>, levels: nat)
    requires LuaGrammar.Grammatical(t) && LuaGrammar.NoOperator(rest) && P.Levels(t) <= levels
    requires Plain(P.Yield(t) + rest) && Plain(P.Yield(t))
    ensures var r, x := TokensToNextReg(m, s, leaf, P.Yield(t) + rest, levels), ToExpr(leaf, t);
            (r.Ok? <==> CompileToNextReg(m, s, x).Ok?) &&
            (r.Ok? ==> r.value == (CompileToNextReg(m, s, x).value.0, rest))
  {
    LuaGrammar.ParseGrammar(P.Yield(t) + rest, levels, t, rest);
    OnePassIs(m, s, leaf, P.Yield(t) + rest, 0, levels);
    hide P.Parse, OnePass, Compile, ExpToNextReg;
  }

  /** One pass over the tokens of a grammatical tree, up to where the expression ends, generates code that leaves the
      value of that tree in the next register and changes no register in use. */
  lemma TokensValue(m: Machine, s: Gen, leaf: nat -> Expr, t: P.Tree, rest: seq<P.Token>, levels: nat, o: set<nat>,
                    start: nat, regs: seq<Value>)
    requires LuaGrammar.Grammatical(t) && LuaGrammar.NoOperator(rest) && P.Levels(t) <= levels
    requires Plain(P.Yield(t) + rest) && Plain(P.Yield(t))
    requires Lawful(m) && GenOk(s) && ListsOk(s, [], [], o) && LeavesOk(m, leaf, P.Yield(t), s.nactvar)
    requires TokensToNextReg(m, s, leaf, P.Yield(t) + rest, levels).Ok? && Arriving(m, s, o, start, regs)
    requires TokensToNextReg(m, s, leaf, P.Yield(t) + rest, levels).value.0.k <= m.k
    requires Compile(m, s, ToExpr(leaf, t)).Ok? && CleanIn(m, s, ToExpr(leaf, t))
    ensures TokensToNextReg(m, s, leaf, P.Yield(t) + rest, levels).value.1 == rest
    ensures var s' := TokensToNextReg(m, s, leaf, P.Yield(t) + rest, levels).value.0;
            var before, after := Outcome(m, s, o, start, regs), Outcome(m, s', o, start, regs);
            Falls(s'.code, s'.jpc, after) && s'.freereg == s.freereg + 1 &&
            |after.regs| == |before.regs| == MAXSTACK && s.freereg < MAXSTACK &&
            after.regs[s.freereg] == TreeValue(m, leaf, t, before.regs) &&
            forall i :: 0 <= i < s.freereg ==> after.regs[i] == before.regs[i]
  {
    hide TokensToNextReg, CompileToNextReg, Compile, CleanIn, Outcome, Falls, Arriving, Eval, TreeValue;
    TokensCompile(m, s, leaf, t, rest, levels);
    ToExprOk(m, leaf, t, s.nactvar);
    EvalTree(m, leaf, t, Outcome(m, s, o, start, regs).regs);
    ExpressionValue(m, s, ToExpr(leaf, t), o, start, regs);
  }
}
