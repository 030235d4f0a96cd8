/** `subexpr` in its own form: tokens are read and code is generated in place, in one pass. */
module CodeSubexpr {
  import opened Options
  import opened Seqs
  import opened LuaCode
  import opened CodeGen
  import opened CodeShape
  import opened CodeMeaning
  import opened CodeOperands
  import opened CodeConds
  import opened CodeExpr
  import opened CodeCompile
  import opened CodeFuncState
  import opened CodeParse
  import P = LuaParser

  /** The generator is between operands, and the simple expressions to come are well formed. */
  ghost predicate Awaits(c: Ctx, s: Gen, leaf: nat -> Expr, ts: seq<P.Token>)
  {
    Ready(c, s, ENil) && LeavesOk(c.m, leaf, ts, s.nactvar) && Plain(ts)
  }

  /** The tree read so far, the code generated for it, and the tokens to come. */
  ghost predicate Reading(c: Ctx, s0: Gen, leaf: nat -> Expr, t: P.Tree, s: Gen, e: Exp, ts: seq<P.Token>)
  {
    Plain(P.Yield(t)) && Plain(ts) && LeavesOk(c.m, leaf, P.Yield(t), s0.nactvar) &&
    LeavesOk(c.m, leaf, ts, s0.nactvar) && Ready(c, s0, ENil) && Compile(c.m, s0, ToExpr(leaf, t)) == Ok((s, e))
  }

  lemma ReadingFit(c: Ctx, s0: Gen, leaf: nat -> Expr, t: P.Tree, s: Gen, e: Exp, ts: seq<P.Token>)
    requires Reading(c, s0, leaf, t, s, e, ts)
    ensures Ready(c, s0, ToExpr(leaf, t)) && Fit(c, s, e) && Lawful(c.m)
  {
    hide Compile, Fit, GenOk, ListsOk;
    ToExprOk(c.m, leaf, t, s0.nactvar);
    CompileOk(c, s0, ToExpr(leaf, t));
  }

  /** The context of the right operand of `op`. */
  ghost function RightCtx(c: Ctx, s: Gen, op: BinOp, e: Exp): Ctx
  {
    match op
    case OprAnd => Within(c, c.lo, c.o + Elems(e.f))
    case OprOr => Within(c, c.lo, c.o + Elems(e.t))
    case _ => Within(c, s.freereg, c.o)
  }

  lemma RightReady(c: Ctx, s0: Gen, y: Expr, z: Expr, op: BinOp, s1: Gen, e1: Exp, s2: Gen, r1: Exp)
    requires Ready(c, s0, Binary(op, y, z)) && Compile(c.m, s0, y) == Ok((s1, e1)) && Infix(s1, op, e1) == Ok((s2, r1))
    ensures Ready(RightCtx(c, s2, op, r1), s2, z)
    ensures op.OprArith? || op.OprCmp? ==> First(c, s2, r1, s2.freereg) && (op.OprCmp? ==> IsOperand(r1))
  {
    hide Compile, GoIf, Fit, Ready, First;
    match op
    case OprAnd => LogicReady(c, s0, y, z, false);
    case OprOr => LogicReady(c, s0, y, z, true);
    case _ => OperatorReady(c, s0, op, y, z);
  }

  lemma BinaryReady(c: Ctx, s0: Gen, op: P.BinOpr, y: Expr, z: Expr)
    requires Ready(c, s0, y) && WellFormed(c.m, z, s0.nactvar) && !op.Concat?
    ensures Ready(c, s0, Binary(BinaryOp(op), y, z))
  {
  }

  /** `luaK_posfix`. */
  method PosfixOf(fs: FuncState, m: Machine, op: BinOp, d1: ExpDesc, d2: ExpDesc, ghost c: Ctx, ghost s2: Gen,
                  ghost r1: Exp, ghost z: Expr, ghost e2: Exp)
    returns (ok: bool, d': ExpDesc)
    requires fs.Valid() && d1 == Desc(r1) && d2 == Desc(e2) && c.m == m && Ready(RightCtx(c, s2, op, r1), s2, z)
    requires Compile(m, s2, z) == Ok((fs.g, e2)) && (op.OprArith? ==> !IsUnary(op.op))
    requires op.OprArith? || op.OprCmp? ==> First(c, s2, r1, s2.freereg) && (op.OprCmp? ==> IsOperand(r1))
    modifies fs
    ensures ok <==> Posfix(m, old(fs.g), op, r1, e2).Ok?
    ensures ok ==> fs.Valid() && Posfix(m, old(fs.g), op, r1, e2).value.0 == fs.g &&
                   d' == Desc(Posfix(m, old(fs.g), op, r1, e2).value.1)
  {
    ghost var c2 := RightCtx(c, s2, op, r1);
    hide Compile, Fit, Ready, First, CodeArith, CodeComp, LogicCode;
    CompileOk(c2, s2, z);
    PosfixLogic(m, fs.g, r1, e2);
    match op {
      case OprAnd => ok, d' := fs.JoinExits(false, d1, d2, c2, e2, r1.f);
      case OprOr => ok, d' := fs.JoinExits(true, d1, d2, c2, e2, r1.t);
      case OprArith(a) =>
        OperatorFirst(c, s2, r1, z);
        ok, d' := fs.ArithOf(m, a, d1, d2, c, r1, e2, s2.freereg);
      case OprCmp(cmp, cond) =>
        OperatorFirst(c, s2, r1, z);
        ok, d' := fs.CompareOf(cmp, cond, d1, d2, c, r1, e2, s2.freereg);
    }
  }

  lemma InfixLocals(c: Ctx, s: Gen, op: BinOp, e: Exp)
    requires Fit(c, s, e) && Infix(s, op, e).Ok?
    ensures Infix(s, op, e).value.0.nactvar == s.nactvar
  {
    hide Fit, GoIf, GenOk, ListsOk, First;
    match op
    case OprAnd => GoIfOk(c, s, e, false);
    case OprOr => GoIfOk(c, s, e, true);
    case _ => InfixFirst(c, s, op, e);
  }

  lemma RightAwaits(c: Ctx, s0: Gen, leaf: nat -> Expr, op: P.BinOpr, t: P.Tree, s1: Gen, e1: Exp, ts: seq<P.Token>,
                    s2: Gen, r1: Exp)
    requires Reading(c, s0, leaf, t, s1, e1, ts) && ts != [] && !op.Concat?
    requires Infix(s1, BinaryOp(op), e1) == Ok((s2, r1))
    ensures Awaits(RightCtx(c, s2, BinaryOp(op), r1), s2, leaf, ts[1..]) && s2.nactvar == s0.nactvar
  {
    ReadingFit(c, s0, leaf, t, s1, e1, ts);
    ReadingLocals(c, s0, leaf, t, s1, e1, ts);
    hide Infix, Fit, Compile, Ready;
    InfixLocals(c, s1, BinaryOp(op), e1);
    BinaryReady(c, s0, op, ToExpr(leaf, t), ENil);
    RightReady(c, s0, ToExpr(leaf, t), ENil, BinaryOp(op), s1, e1, s2, r1);
  }

  lemma ReadingLocals(c: Ctx, s0: Gen, leaf: nat -> Expr, t: P.Tree, s: Gen, e: Exp, ts: seq<P.Token>)
    requires Reading(c, s0, leaf, t, s, e, ts)
    ensures s.nactvar == s0.nactvar
  {
    hide Compile, Fit, GenOk, ListsOk;
    ToExprOk(c.m, leaf, t, s0.nactvar);
    CompileOk(c, s0, ToExpr(leaf, t));
  }

  lemma RightFirst(c: Ctx, s0: Gen, leaf: nat -> Expr, op: P.BinOpr, t: P.Tree, s1: Gen, e1: Exp, ts: seq<P.Token>,
                   s2: Gen, r1: Exp)
    requires Reading(c, s0, leaf, t, s1, e1, ts) && !op.Concat? && Infix(s1, BinaryOp(op), e1) == Ok((s2, r1))
    ensures BinaryOp(op).OprArith? || BinaryOp(op).OprCmp? ==>
              First(c, s2, r1, s2.freereg) && (BinaryOp(op).OprCmp? ==> IsOperand(r1))
  {
    ReadingFit(c, s0, leaf, t, s1, e1, ts);
    hide Infix, Fit, Compile, Ready, First;
    BinaryReady(c, s0, op, ToExpr(leaf, t), ENil);
    RightReady(c, s0, ToExpr(leaf, t), ENil, BinaryOp(op), s1, e1, s2, r1);
  }

  lemma BinReads(c: Ctx, s0: Gen, leaf: nat -> Expr, op: P.BinOpr, t: P.Tree, s1: Gen, e1: Exp, ts: seq<P.Token>,
                 s2: Gen, r1: Exp, t2: P.Tree, s3: Gen, e2: Exp, rest: seq<P.Token>)
    requires Reading(c, s0, leaf, t, s1, e1, ts) && !op.Concat? && Infix(s1, BinaryOp(op), e1) == Ok((s2, r1))
    requires Reading(RightCtx(c, s2, BinaryOp(op), r1), s2, leaf, t2, s3, e2, rest) && s2.nactvar == s0.nactvar
    requires Posfix(c.m, s3, BinaryOp(op), r1, e2).Ok?
    ensures var p := Posfix(c.m, s3, BinaryOp(op), r1, e2).value;
            Reading(c, s0, leaf, P.Bin(op, t, t2), p.0, p.1, rest)
  {
    hide Posfix, Infix, Ready, Compile, WellFormed;
    CompileBin(c.m, s0, leaf, op, t, t2);
    assert RightCtx(c, s2, BinaryOp(op), r1).m == c.m;
  }

  // ----- one step of the pass -----

  lemma PassUnary(m: Machine, s: Gen, leaf: nat -> Expr, ts: seq<P.Token>, limit: nat, levels: nat)
    requires Plain(ts) && levels > 0 && ts != [] && P.UnaryOf(ts[0]).Some?
    ensures var p := OnePass(m, s, leaf, ts[1..], P.UNARY_PRIORITY, levels - 1);
            OnePass(m, s, leaf, ts, limit, levels) ==
            if p.Err? then Err
            else
              var q := Prefix(m, p.value.0, UnaryOp(P.UnaryOf(ts[0]).value), p.value.1);
              if q.Err? then Err else OneMore(m, q.value.0, leaf, q.value.1, p.value.2, limit, levels)
  {
    hide Prefix, OneMore;
  }

  lemma PassSimple(m: Machine, s: Gen, leaf: nat -> Expr, ts: seq<P.Token>, limit: nat, levels: nat)
    requires Plain(ts) && levels > 0 && (ts != [] ==> P.UnaryOf(ts[0]).None?)
    ensures OnePass(m, s, leaf, ts, limit, levels) ==
            if ts == [] || !ts[0].Simple? then Err
            else
              var p := Compile(m, s, leaf(ts[0].id));
              if p.Err? then Err else OneMore(m, p.value.0, leaf, p.value.1, ts[1..], limit, levels)
  {
    hide Compile, OneMore;
  }

  lemma MoreStep(m: Machine, s: Gen, leaf: nat -> Expr, e: Exp, ts: seq<P.Token>, limit: nat, levels: nat, op: P.BinOpr)
    requires Plain(ts) && levels > 0 && P.NextOp(ts, limit) == Some(op)
    ensures ts != [] && !op.Concat?
    ensures var i := Infix(s, BinaryOp(op), e);
            OneMore(m, s, leaf, e, ts, limit, levels) ==
            if i.Err? then Err
            else
              var p := OnePass(m, i.value.0, leaf, ts[1..], P.RightPriority(op), levels - 1);
              if p.Err? then Err
              else
                var q := Posfix(m, p.value.0, BinaryOp(op), i.value.1, p.value.1);
                if q.Err? then Err else OneMore(m, q.value.0, leaf, q.value.1, p.value.2, limit, levels)
  {
    hide Infix, Posfix, OnePass;
  }

  lemma PassEnds(m: Machine, s: Gen, leaf: nat -> Expr, ts: seq<P.Token>, limit: nat)
    requires Plain(ts)
    ensures OnePass(m, s, leaf, ts, limit, 0).Err?
  {
  }

  lemma MoreEnds(m: Machine, s: Gen, leaf: nat -> Expr, e: Exp, ts: seq<P.Token>, limit: nat, levels: nat)
    requires Plain(ts) && levels > 0 && P.NextOp(ts, limit).None?
    ensures OneMore(m, s, leaf, e, ts, limit, levels) == Ok((s, e, ts))
  {
  }

  lemma LeavesParts(m: Machine, leaf: nat -> Expr, a: seq<P.Token>, b: seq<P.Token>, nactvar: nat)
    requires LeavesOk(m, leaf, a + b, nactvar) && Plain(a + b)
    ensures LeavesOk(m, leaf, a, nactvar) && LeavesOk(m, leaf, b, nactvar) && Plain(a) && Plain(b)
  {
    hide WellFormed;
    assert forall x :: x in a || x in b ==> x in a + b;
  }

  lemma PassReads(c: Ctx, s: Gen, leaf: nat -> Expr, ts: seq<P.Token>, limit: nat, levels: nat) returns (t: P.Tree)
    requires Awaits(c, s, leaf, ts) && OnePass(c.m, s, leaf, ts, limit, levels).Ok?
    ensures var r := OnePass(c.m, s, leaf, ts, limit, levels).value; Reading(c, s, leaf, t, r.0, r.1, r.2)
  {
    hide OnePass, Compile, Ready, LeavesOk, P.Parse, P.Respects, P.LeftOk, P.Ends, P.StopsAt;
    var r := OnePass(c.m, s, leaf, ts, limit, levels).value;
    OnePassIs(c.m, s, leaf, ts, limit, levels);
    t := P.Parse(ts, limit, levels).value.0;
    P.ParseSound(ts, limit, levels);
    LeavesParts(c.m, leaf, P.Yield(t), r.2, s.nactvar);
    var d := Compile(c.m, s, ToExpr(leaf, t));
    assert d.Ok? && d.value == (d.value.0, d.value.1);
  }

  lemma AwaitsNext(c: Ctx, s: Gen, leaf: nat -> Expr, ts: seq<P.Token>)
    requires Awaits(c, s, leaf, ts) && ts != []
    ensures Awaits(c, s, leaf, ts[1..])
  {
    hide Ready, WellFormed;
  }

  lemma LeafReads(c: Ctx, s: Gen, leaf: nat -> Expr, ts: seq<P.Token>)
    requires Awaits(c, s, leaf, ts) && ts != [] && ts[0].Simple?
    ensures Ready(c, s, leaf(ts[0].id))
    ensures var r := Compile(c.m, s, leaf(ts[0].id));
            r.Ok? ==> Reading(c, s, leaf, P.Leaf(ts[0].id), r.value.0, r.value.1, ts[1..])
  {
    hide Compile;
    assert P.Simple(ts[0].id) in ts;
  }

  lemma UnaryReads(c: Ctx, s0: Gen, leaf: nat -> Expr, u: P.UnOpr, t: P.Tree, s: Gen, e: Exp, ts: seq<P.Token>)
    requires Reading(c, s0, leaf, t, s, e, ts) && Prefix(c.m, s, UnaryOp(u), e).Ok?
    ensures var r := Prefix(c.m, s, UnaryOp(u), e).value; Reading(c, s0, leaf, P.Un(u, t), r.0, r.1, ts)
  {
    hide Prefix, Ready;
    UnPlain(u, t);
  }

  /** The first part of `subexpr`: an operator and its operand, or a simple expression. */
  method Operand(ls: P.LexState, fs: FuncState, m: Machine, leaf: nat -> Expr, ghost c: Ctx, ghost limit: nat)
    returns (ok: bool, d: ExpDesc, ghost t: P.Tree, ghost e: Exp)
    requires fs.Valid() && Awaits(c, fs.g, leaf, ls.toks) && c.m == m
    modifies ls, fs
    ensures ok ==> fs.Valid() && Reading(c, old(fs.g), leaf, t, fs.g, e, ls.toks) && d == Desc(e) && Plain(ls.toks)
    ensures ok ==> ls.levels == old(ls.levels) && |ls.toks| < |old(ls.toks)|
    ensures OnePass(m, old(fs.g), leaf, old(ls.toks), limit, old(ls.levels) + 1) ==
            if ok then OneMore(m, fs.g, leaf, e, ls.toks, limit, ls.levels + 1) else Err
    decreases ls.levels, |ls.toks|, 1
  {
    hide Fit, Ready, Compile, OnePass, OneMore, Prefix, LeavesOk;
    ghost var s0, ts, n := fs.g, ls.toks, ls.levels;
    t, e := P.Leaf(0), Exp(KNil, [], []);
    var uop := P.UnaryOf(ls.Current());
    if uop.Some? {
      PassUnary(m, s0, leaf, ts, limit, n + 1);
      AwaitsNext(c, s0, leaf, ts);
      hide Awaits, Reading;
      ls.Next();
      var op;
      ok, d, op := Subexpr(ls, fs, m, leaf, P.UNARY_PRIORITY, c);
      if !ok { return; }
      t := PassReads(c, s0, leaf, ts[1..], P.UNARY_PRIORITY, n);
      e := OnePass(m, s0, leaf, ts[1..], P.UNARY_PRIORITY, n).value.1;
      ReadingFit(c, s0, leaf, t, fs.g, e, ls.toks);
      ghost var s1, e1 := fs.g, e;
      ok, d := fs.PrefixOf(m, UnaryOp(uop.value), d, c, e);
      if !ok { return; }
      UnaryReads(c, s0, leaf, uop.value, t, s1, e1, ls.toks);
      t, e := P.Un(uop.value, t), Prefix(m, s1, UnaryOp(uop.value), e1).value.1;
    } else {
      PassSimple(m, s0, leaf, ts, limit, n + 1);
      ok, d := ls.Current().Simple?, ExpDesc(KNil, NO_JUMP, NO_JUMP);
      if !ok { return; }
      var id := ls.Current().id;
      LeafReads(c, s0, leaf, ts);
      hide Awaits, Reading;
      ok, d := fs.CompileExpr(m, leaf(id), c);
      if !ok { return; }
      t, e := P.Leaf(id), Compile(m, s0, leaf(id)).value.1;
      ls.Next();
    }
  }

  /** One round of the loop of `subexpr`: an operator and its right operand. */
  method Operation(ls: P.LexState, fs: FuncState, m: Machine, leaf: nat -> Expr, op: P.BinOpr, d: ExpDesc, ghost c: Ctx,
                   ghost limit: nat, ghost s0: Gen, ghost t: P.Tree, ghost e: Exp)
    returns (ok: bool, d': ExpDesc, nextop: Option<P.BinOpr>, ghost t': P.Tree, ghost e': Exp)
    requires fs.Valid() && Reading(c, s0, leaf, t, fs.g, e, ls.toks) && d == Desc(e) && c.m == m
    requires P.NextOp(ls.toks, limit) == Some(op)
    modifies ls, fs
    ensures ok ==> fs.Valid() && Reading(c, s0, leaf, t', fs.g, e', ls.toks) && d' == Desc(e') && Plain(ls.toks)
    ensures ok ==> ls.levels == old(ls.levels) && |ls.toks| < |old(ls.toks)| && nextop == P.BinaryOf(ls.Current())
    ensures OneMore(m, old(fs.g), leaf, e, old(ls.toks), limit, old(ls.levels) + 1) ==
            if ok then OneMore(m, fs.g, leaf, e', ls.toks, limit, ls.levels + 1) else Err
    decreases ls.levels, |ls.toks|, 1
  {
    hide Fit, Ready, Compile, OnePass, OneMore, Infix, Posfix, First, LeavesOk;
    ghost var ts, n, s1 := ls.toks, ls.levels, fs.g;
    nextop, t', e' := None, t, e;
    MoreStep(m, s1, leaf, e, ts, limit, n + 1, op);
    ReadingFit(c, s0, leaf, t, fs.g, e, ls.toks);
    hide Awaits, Reading;
    ls.Next();
    ok, d' := fs.InfixOf(BinaryOp(op), d, c, e);
    if !ok { return; }
    ghost var s2, r1 := fs.g, Infix(s1, BinaryOp(op), e).value.1;
    ghost var c2 := RightCtx(c, s2, BinaryOp(op), r1);
    RightAwaits(c, s0, leaf, op, t, s1, e, ts, s2, r1);
    var d2;
    ok, d2, nextop := Subexpr(ls, fs, m, leaf, P.RightPriority(op), c2);
    if !ok { return; }
    ghost var t2 := PassReads(c2, s2, leaf, ts[1..], P.RightPriority(op), n);
    ghost var s3, e2 := fs.g, OnePass(m, s2, leaf, ts[1..], P.RightPriority(op), n).value.1;
    ReadingFit(c2, s2, leaf, t2, s3, e2, ls.toks);
    RightFirst(c, s0, leaf, op, t, s1, e, ts, s2, r1);
    ok, d' := PosfixOf(fs, m, BinaryOp(op), d', d2, c, s2, r1, ToExpr(leaf, t2), e2);
    if !ok { return; }
    BinReads(c, s0, leaf, op, t, s1, e, ts, s2, r1, t2, s3, e2, ls.toks);
    t', e' := P.Bin(op, t, t2), Posfix(m, s3, BinaryOp(op), r1, e2).value.1;
  }

  /** `subexpr`. */
  method Subexpr(ls: P.LexState, fs: FuncState, m: Machine, leaf: nat -> Expr, limit: nat, ghost c: Ctx)
    returns (ok: bool, d: ExpDesc, op: Option<P.BinOpr>)
    requires fs.Valid() && Awaits(c, fs.g, leaf, ls.toks) && c.m == m
    modifies ls, fs
    ensures ok <==> OnePass(m, old(fs.g), leaf, old(ls.toks), limit, old(ls.levels)).Ok?
    ensures ok ==> var r := OnePass(m, old(fs.g), leaf, old(ls.toks), limit, old(ls.levels)).value;
                   fs.Valid() && r.0 == fs.g && d == Desc(r.1) && r.2 == ls.toks
    ensures ok ==> ls.levels == old(ls.levels) && op == P.BinaryOf(ls.Current())
    decreases ls.levels, |ls.toks|, 0
  {
    hide Fit, Ready, Compile, Reading, LeavesOk, OnePass, OneMore;
    op := None;
    PassEnds(m, fs.g, leaf, ls.toks, limit);
    if ls.levels == 0 { return false, ExpDesc(KNil, NO_JUMP, NO_JUMP), op; }
    ghost var s0, ts, n := fs.g, ls.toks, ls.levels;
    ls.levels := ls.levels - 1;
    ghost var t, e;
    ok, d, t, e := Operand(ls, fs, m, leaf, c, limit);
    if !ok { return; }
    op := P.BinaryOf(ls.Current());
    while op.Some? && P.LeftPriority(op.value) > limit
      invariant ok && fs.Valid() && Reading(c, s0, leaf, t, fs.g, e, ls.toks) && d == Desc(e)
      invariant ls.levels == n - 1 && Plain(ls.toks) && op == P.BinaryOf(ls.Current()) && |ls.toks| < |ts|
      invariant OnePass(m, s0, leaf, ts, limit, n) == OneMore(m, fs.g, leaf, e, ls.toks, limit, n)
      decreases |ls.toks|
    {
      ok, d, op, t, e := Operation(ls, fs, m, leaf, op.value, d, c, limit, s0, t, e);
      if !ok { return; }
    }
    MoreEnds(m, fs.g, leaf, e, ls.toks, limit, n);
    ls.levels := ls.levels + 1;
  }
}
