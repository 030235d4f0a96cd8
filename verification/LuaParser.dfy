/** Operator precedence parsing of expressions. */
module LuaParser {
  import opened Options

  datatype BinOpr = Add | Sub | Mul | Div | Mod | Pow | Concat | Ne | Eq | Lt | Le | Gt | Ge | And | Or

  datatype UnOpr = Not | Minus | Len

  /** A simple expression (a constant, a call, something in parentheses) is one token here. */
  datatype Token = Simple(id: nat) | Operator(op: BinOpr) | NotSign | LenSign | Other(code: nat)

  datatype Tree = Leaf(id: nat) | Un(uop: UnOpr, arg: Tree) | Bin(op: BinOpr, left: Tree, right: Tree)

  const UNARY_PRIORITY := 8

  /** The `priority` table. */
  function LeftPriority(op: BinOpr): nat
  {
    match op
    case Add => 6 case Sub => 6
    case Mul => 7 case Div => 7 case Mod => 7
    case Pow => 10
    case Concat => 5
    case Ne => 3 case Eq => 3 case Lt => 3 case Le => 3 case Gt => 3 case Ge => 3
    case And => 2
    case Or => 1
  }

  function RightPriority(op: BinOpr): nat
  {
    if op.Pow? then 9 else if op.Concat? then 4 else LeftPriority(op)
  }

  /** `getunopr`: the minus sign is also a binary operator. */
  function UnaryOf(t: Token): Option<UnOpr>
  {
    if t == NotSign then Some(Not) else if t == LenSign then Some(Len) else if t == Operator(Sub) then Some(Minus)
    else None
  }

  /** `getbinopr`. */
  function BinaryOf(t: Token): Option<BinOpr>
  {
    if t.Operator? then Some(t.op) else None
  }

  function SignOf(u: UnOpr): Token
  {
    match u
    case Not => NotSign
    case Minus => Operator(Sub)
    case Len => LenSign
  }

  /** The tokens of a tree, in order. */
  function Yield(t: Tree): seq<Token>
  {
    match t
    case Leaf(id) => [Simple(id)]
    case Un(u, x) => [SignOf(u)] + Yield(x)
    case Bin(op, l, r) => Yield(l) + [Operator(op)] + Yield(r)
  }

  // ----- subexpr -----

  /** The operator that comes next, if it binds tighter than `limit`. */
  function NextOp(ts: seq<Token>, limit: nat): Option<BinOpr>
  {
    if ts != [] && ts[0].Operator? && LeftPriority(ts[0].op) > limit then Some(ts[0].op) else None
  }

  /** `subexpr` on a list of tokens: the tree and the tokens left, or a syntax error.  `levels` is the number of
      nested calls that `enterlevel` still allows. */
  function Parse(ts: seq<Token>, limit: nat, levels: nat): (r: Option<(Tree, seq<Token>)>)
    ensures r.Some? ==> |r.value.1| < |ts|
    decreases levels, |ts|, 1
  {
    if levels == 0 || ts == [] then None
    else if UnaryOf(ts[0]).Some? then
      match Parse(ts[1..], UNARY_PRIORITY, levels - 1)
      case None => None
      case Some(p) => Extend(Un(UnaryOf(ts[0]).value, p.0), p.1, limit, levels)
    else if ts[0].Simple? then Extend(Leaf(ts[0].id), ts[1..], limit, levels)
    else None
  }

  /** The loop of `subexpr`: expand while operators have priorities higher than `limit`. */
  function Extend(t: Tree, ts: seq<Token>, limit: nat, levels: nat): (r: Option<(Tree, seq<Token>)>)
    requires levels > 0
    ensures r.Some? ==> |r.value.1| <= |ts|
    decreases levels, |ts|, 0
  {
    match NextOp(ts, limit)
    case None => Some((t, ts))
    case Some(op) =>
      match Parse(ts[1..], RightPriority(op), levels - 1)
      case None => None
      case Some(p) => Extend(Bin(op, t, p.0), p.1, limit, levels)
  }

  // ----- trees that respect the priorities -----

  /** Every binary operator that begins at the left edge of the tree binds tighter than `limit`. */
  predicate LeftOk(t: Tree, limit: nat)
  {
    t.Bin? ==> LeftPriority(t.op) > limit && LeftOk(t.left, limit)
  }

  /** An operator of left priority `p` after the tree is not taken by anything at the right edge of the tree. */
  predicate RightOk(t: Tree, p: nat)
  {
    match t
    case Leaf(_) => true
    case Un(_, x) => p <= UNARY_PRIORITY && RightOk(x, p)
    case Bin(op, _, r) => p <= RightPriority(op) && RightOk(r, p)
  }

  /** Each operator has operands that hold together more tightly than it does. */
  predicate Respects(t: Tree)
  {
    match t
    case Leaf(_) => true
    case Un(_, x) => Respects(x) && LeftOk(x, UNARY_PRIORITY)
    case Bin(op, l, r) => Respects(l) && Respects(r) && RightOk(l, LeftPriority(op)) && LeftOk(r, RightPriority(op))
  }

  /** What follows does not belong to the tree. */
  predicate Ends(t: Tree, rest: seq<Token>)
  {
    rest != [] && rest[0].Operator? ==> RightOk(t, LeftPriority(rest[0].op))
  }

  predicate StopsAt(limit: nat, rest: seq<Token>)
  {
    rest != [] && rest[0].Operator? ==> LeftPriority(rest[0].op) <= limit
  }

  /** The nesting of calls that a tree takes. */
  function Levels(t: Tree): nat
  {
    match t
    case Leaf(_) => 1
    case Un(_, x) => 1 + Levels(x)
    case Bin(_, l, r) => if Levels(l) > Levels(r) then Levels(l) else 1 + Levels(r)
  }

  // ----- the parser finds such a tree -----

  /** What `subexpr` returns: a tree of the tokens it consumed that respects the priorities, and that takes
      as much as it can. */
  ghost predicate Parsed(ts: seq<Token>, limit: nat, t: Tree, rest: seq<Token>)
  {
    ts == Yield(t) + rest && Respects(t) && LeftOk(t, limit) && Ends(t, rest) && StopsAt(limit, rest)
  }

  lemma {:induction false} ParseSound(ts: seq<Token>, limit: nat, levels: nat)
    requires Parse(ts, limit, levels).Some?
    ensures var r := Parse(ts, limit, levels).value; Parsed(ts, limit, r.0, r.1) && Levels(r.0) <= levels
    decreases levels, |ts|, 1
  {
    if UnaryOf(ts[0]).Some? {
      var p := Parse(ts[1..], UNARY_PRIORITY, levels - 1).value;
      ParseSound(ts[1..], UNARY_PRIORITY, levels - 1);
      var t := Un(UnaryOf(ts[0]).value, p.0);
      assert ts == [ts[0]] + ts[1..];
      assert Yield(t) + p.1 == [ts[0]] + (Yield(p.0) + p.1);
      ExtendSound(ts, t, p.1, limit, levels);
    } else {
      var t := Leaf(ts[0].id);
      assert ts == Yield(t) + ts[1..];
      ExtendSound(ts, t, ts[1..], limit, levels);
    }
  }

  lemma {:induction false} ExtendSound(all: seq<Token>, t: Tree, ts: seq<Token>, limit: nat, levels: nat)
    requires levels > 0 && Extend(t, ts, limit, levels).Some?
    requires all == Yield(t) + ts && Respects(t) && LeftOk(t, limit) && Ends(t, ts) && Levels(t) <= levels
    ensures var r := Extend(t, ts, limit, levels).value; Parsed(all, limit, r.0, r.1) && Levels(r.0) <= levels
    decreases levels, |ts|, 0
  {
    if NextOp(ts, limit).Some? {
      var op := ts[0].op;
      var p := Parse(ts[1..], RightPriority(op), levels - 1).value;
      ParseSound(ts[1..], RightPriority(op), levels - 1);
      var t' := Bin(op, t, p.0);
      BinYield(op, t, p.0, ts, p.1);
      ExtendSound(all, t', p.1, limit, levels);
    }
  }

  lemma BinYield(op: BinOpr, l: Tree, r: Tree, ts: seq<Token>, rest: seq<Token>)
    requires ts != [] && ts[0] == Operator(op) && ts[1..] == Yield(r) + rest
    ensures Yield(Bin(op, l, r)) + rest == Yield(l) + ts
  {
    assert ts == [Operator(op)] + ts[1..];
    assert Yield(Bin(op, l, r)) + rest == Yield(l) + ([Operator(op)] + (Yield(r) + rest));
  }

  // ----- and every such tree is what the parser finds -----

  /** Parsing the tokens of a tree comes to the loop with that tree. */
  lemma {:induction false} ParseYield(t: Tree, rest: seq<Token>, limit: nat, levels: nat)
    requires Respects(t) && LeftOk(t, limit) && Ends(t, rest) && Levels(t) <= levels
    ensures Parse(Yield(t) + rest, limit, levels) == Extend(t, rest, limit, levels)
    decreases t
  {
    match t
    case Leaf(id) => ParseLeaf(id, rest, limit, levels);
    case Un(u, x) =>
      ParseYield(x, rest, UNARY_PRIORITY, levels - 1);
      ParseUnary(u, x, rest, limit, levels);
    case Bin(op, l, r) =>
      hide Parse, Extend;
      var rest' := [Operator(op)] + (Yield(r) + rest);
      assert Yield(t) + rest == Yield(l) + rest';
      ParseYield(l, rest', limit, levels);
      ParseYield(r, rest, RightPriority(op), levels - 1);
      ExtendStep(op, l, r, rest, limit, levels);
  }

  lemma ParseLeaf(id: nat, rest: seq<Token>, limit: nat, levels: nat)
    requires levels > 0
    ensures Parse(Yield(Leaf(id)) + rest, limit, levels) == Extend(Leaf(id), rest, limit, levels)
  {
    var ts := Yield(Leaf(id)) + rest;
    assert ts[0] == Simple(id) && ts[1..] == rest;
    hide Extend;
  }

  lemma ParseUnary(u: UnOpr, x: Tree, rest: seq<Token>, limit: nat, levels: nat)
    requires levels > 1 && Ends(Un(u, x), rest)
    requires Parse(Yield(x) + rest, UNARY_PRIORITY, levels - 1) == Extend(x, rest, UNARY_PRIORITY, levels - 1)
    ensures Parse(Yield(Un(u, x)) + rest, limit, levels) == Extend(Un(u, x), rest, limit, levels)
  {
    var ts := Yield(Un(u, x)) + rest;
    ExtendStops(x, rest, UNARY_PRIORITY, levels - 1);
    hide Extend;
    assert ts[0] == SignOf(u) && ts[1..] == Yield(x) + rest;
  }

  lemma ExtendStops(t: Tree, rest: seq<Token>, limit: nat, levels: nat)
    requires levels > 0 && StopsAt(limit, rest)
    ensures Extend(t, rest, limit, levels) == Some((t, rest))
  {
  }

  lemma ExtendStep(op: BinOpr, l: Tree, r: Tree, rest: seq<Token>, limit: nat, levels: nat)
    requires levels > 1 && LeftPriority(op) > limit && Ends(Bin(op, l, r), rest)
    requires Parse(Yield(r) + rest, RightPriority(op), levels - 1) == Extend(r, rest, RightPriority(op), levels - 1)
    ensures Extend(l, [Operator(op)] + (Yield(r) + rest), limit, levels) == Extend(Bin(op, l, r), rest, limit, levels)
  {
    var rest' := [Operator(op)] + (Yield(r) + rest);
    ExtendStops(r, rest, RightPriority(op), levels - 1);
    assert rest'[1..] == Yield(r) + rest;
    hide Parse;
  }

  /** `subexpr` succeeds exactly when some tree over the first tokens respects the priorities, takes as much as it
      can and is not nested too deeply; and then it returns that tree. */
  lemma ParseExact(ts: seq<Token>, limit: nat, levels: nat, t: Tree, rest: seq<Token>)
    ensures Parse(ts, limit, levels) == Some((t, rest)) <==> Parsed(ts, limit, t, rest) && Levels(t) <= levels
  {
    if Parse(ts, limit, levels) == Some((t, rest)) {
      ParseSound(ts, limit, levels);
    }
    if Parsed(ts, limit, t, rest) && Levels(t) <= levels {
      ParseYield(t, rest, limit, levels);
    }
  }

  /** No two trees over the same tokens respect the priorities. */
  lemma OneTree(t1: Tree, t2: Tree)
    requires Yield(t1) == Yield(t2) && Respects(t1) && Respects(t2)
    ensures t1 == t2
  {
    WholeLeftOk(t1);
    WholeLeftOk(t2);
    var levels := Levels(t1) + Levels(t2);
    assert Yield(t1) + [] == Yield(t1) && Yield(t2) + [] == Yield(t2);
    ParseYield(t1, [], 0, levels);
    ParseYield(t2, [], 0, levels);
  }

  /** All priorities are above 0, so a whole expression has no left edge to check. */
  lemma {:induction false} WholeLeftOk(t: Tree)
    ensures LeftOk(t, 0)
  {
    if t.Bin? { WholeLeftOk(t.left); }
  }

  // ----- the parser with its state -----

  /** `LexState`, as far as expressions use it: the tokens still to read. */
  class LexState {
    var toks: seq<Token>
    var levels: nat

    /** The first token, or the end of the stream. */
    function Current(): Token
      reads this
    {
      if toks == [] then Other(0) else toks[0]
    }

    /** `luaX_next`. */
    method Next()
      modifies this`toks
      ensures toks == if old(toks) == [] then [] else old(toks)[1..]
    {
      if toks != [] { toks := toks[1..]; }
    }

    /** `subexpr`. */
    method Subexpr(limit: nat) returns (ok: bool, v: Tree, op: Option<BinOpr>)
      modifies this
      ensures ok <==> Parse(old(toks), limit, old(levels)).Some?
      ensures ok ==>
                Parse(old(toks), limit, old(levels)) == Some((v, toks)) && levels == old(levels) &&
                op == BinaryOf(Current())
      decreases levels, |toks|
    {
      v, op := Leaf(0), None;
      if levels == 0 { return false, v, op; }
      levels := levels - 1;
      ghost var all, n := toks, levels + 1;
      var uop := UnaryOf(Current());
      if uop.Some? {
        Next();
        ok, v, op := Subexpr(UNARY_PRIORITY);
        if !ok { return; }
        v := Un(uop.value, v);
      } else {
        ok := Current().Simple?;
        if !ok { return; }
        v := Leaf(Current().id);
        Next();
      }
      op := BinaryOf(Current());
      while op.Some? && LeftPriority(op.value) > limit
        invariant levels == n - 1 && op == BinaryOf(Current()) && ok
        invariant Parse(all, limit, n) == Extend(v, toks, limit, n) && |toks| <= |all|
        decreases |toks|
      {
        ghost var here := toks;
        Next();
        var nextop, v2;
        ok, v2, nextop := Subexpr(RightPriority(op.value));
        if !ok { return; }
        v := Bin(op.value, v, v2);
        op := nextop;
      }
      levels := levels + 1;
    }
  }
}
