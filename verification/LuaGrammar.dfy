/** Lua's operator grammar, stated without the parser's table of priorities, and that the parser recognises it. */
module LuaGrammar {
  import opened Options
  import opened LuaParser

  /** The order of section 2.5.6 of the Lua 5.1 reference manual, from the weakest operators to the strongest.  The
      unary operators come between multiplication and exponentiation. */
  function Tier(op: BinOpr): nat
  {
    match op
    case Or => 1
    case And => 2
    case Lt => 3 case Gt => 3 case Le => 3 case Ge => 3 case Ne => 3 case Eq => 3
    case Concat => 4
    case Add => 5 case Sub => 5
    case Mul => 6 case Div => 6 case Mod => 6
    case Pow => 8
  }

  const UNARY_TIER := 7

  /** Concatenation and exponentiation group to the right, all other operators to the left. */
  predicate GroupsRight(op: BinOpr)
  {
    op.Concat? || op.Pow?
  }

  /** `inner` may be an operand of `outer` without parentheses: it is stronger; or of the same strength, on the side to
      which such operators group. */
  predicate Nests(inner: BinOpr, outer: BinOpr, right: bool)
  {
    Tier(inner) > Tier(outer) || (Tier(inner) == Tier(outer) && GroupsRight(outer) == right)
  }

  /** A tree that the manual's rules give to an expression without parentheses. */
  predicate Grammatical(t: Tree)
  {
    match t
    case Leaf(_) => true
    case Un(_, x) => Grammatical(x) && (x.Bin? ==> Tier(x.op) > UNARY_TIER)
    case Bin(op, l, r) =>
      Grammatical(l) && Grammatical(r) && (l.Bin? ==> Nests(l.op, op, false)) && (r.Bin? ==> Nests(r.op, op, true)) &&
      (l.Un? ==> UNARY_TIER > Tier(op))
  }

  // ----- what the table of priorities says -----

  lemma TableLeft(p: BinOpr)
    ensures 1 <= Tier(p) <= 8 && Tier(p) != 7 && (GroupsRight(p) <==> Tier(p) == 4 || Tier(p) == 8)
    ensures LeftPriority(p) == LeftOf(Tier(p)) && RightPriority(p) == RightOf(Tier(p))
  {
  }

  lemma TableOrder(p: BinOpr, q: BinOpr)
    ensures LeftPriority(q) <= RightPriority(p) <==> Nests(p, q, false)
    ensures LeftPriority(q) > RightPriority(p) <==> Nests(q, p, true)
    ensures RightPriority(p) <= LeftPriority(p) <= RightPriority(p) + 1
  {
    hide LeftPriority, RightPriority, Tier, GroupsRight, LeftOf, RightOf;
    TableLeft(p);
    TableLeft(q);
    OrderOf(Tier(p), Tier(q));
  }

  /** The left priority of the operators of a tier. */
  function LeftOf(tier: nat): nat
  {
    if tier == 8 then 10 else if tier > 3 then tier + 1 else tier
  }

  function RightOf(tier: nat): nat
  {
    if tier == 8 then 9 else if tier == 4 then 4 else LeftOf(tier)
  }

  lemma OrderOf(a: nat, b: nat)
    requires 1 <= a <= 8 && 1 <= b <= 8 && a != 7 && b != 7
    ensures LeftOf(b) <= RightOf(a) <==> a > b || (a == b && a != 4 && a != 8)
    ensures RightOf(a) <= LeftOf(a) <= RightOf(a) + 1
  {
  }

  lemma TableUnary(p: BinOpr)
    ensures LeftPriority(p) > UNARY_PRIORITY <==> Tier(p) > UNARY_TIER
    ensures LeftPriority(p) > 0
  {
  }

  /** Nothing on the right edge of such a tree takes an operator that its top leaves alone. */
  lemma {:induction false} EdgeRight(t: Tree, q: BinOpr)
    requires Grammatical(t) && (t.Bin? ==> Nests(t.op, q, false)) && (t.Un? ==> UNARY_TIER > Tier(q))
    ensures RightOk(t, LeftPriority(q))
    decreases t
  {
    TableUnary(q);
    match t
    case Leaf(_) =>
    case Un(_, x) =>
      if x.Bin? { assert Nests(x.op, q, false); }
      EdgeRight(x, q);
    case Bin(op, _, r) =>
      TableOrder(op, q);
      if r.Bin? { assert Nests(r.op, q, false); }
      EdgeRight(r, q);
  }

  /** Every operator on the left edge of such a tree is at least as strong as its top. */
  lemma {:induction false} EdgeLeft(t: Tree, limit: nat)
    requires Grammatical(t) && (t.Bin? ==> LeftPriority(t.op) > limit)
    ensures LeftOk(t, limit)
    decreases t
  {
    if t.Bin? {
      if t.left.Bin? { TableOrder(t.left.op, t.op); }
      EdgeLeft(t.left, limit);
    }
  }

  /** The trees that respect the parser's priorities are those of the manual's grammar. */
  lemma {:induction false} RespectsIff(t: Tree)
    ensures Respects(t) <==> Grammatical(t)
    decreases t
  {
    match t
    case Leaf(_) =>
    case Un(_, x) =>
      RespectsIff(x);
      if x.Bin? { TableUnary(x.op); }
      if Grammatical(t) { EdgeLeft(x, UNARY_PRIORITY); }
    case Bin(op, l, r) =>
      RespectsIff(l);
      RespectsIff(r);
      TableUnary(op);
      if l.Bin? { TableOrder(l.op, op); }
      if r.Bin? { TableOrder(op, r.op); }
      if Grammatical(t) {
        EdgeRight(l, op);
        EdgeLeft(r, RightPriority(op));
      }
  }

  /** The next token is not a binary operator. */
  predicate NoOperator(rest: seq<Token>)
  {
    rest == [] || !rest[0].Operator?
  }

  /** An expression parses to a tree if and only if the tree is grammatical, its tokens are the ones consumed, no binary
      operator follows, and it is not nested too deeply. */
  lemma ParseGrammar(ts: seq<Token>, levels: nat, t: Tree, rest: seq<Token>)
    ensures Parse(ts, 0, levels) == Some((t, rest)) <==>
              ts == Yield(t) + rest && Grammatical(t) && NoOperator(rest) && Levels(t) <= levels
  {
    ParseExact(ts, 0, levels, t, rest);
    RespectsIff(t);
    WholeLeftOk(t);
    if rest != [] && rest[0].Operator? { TableUnary(rest[0].op); }
  }

  // ----- two operators -----

  lemma OnePair(p: BinOpr, a: nat, b: nat)
    ensures var t := Bin(p, Leaf(a), Leaf(b));
            Yield(t) == [Simple(a), Operator(p), Simple(b)] && Grammatical(t) && Levels(t) == 2
  {
  }

  /** `a p b q c`: to the left if `p` is stronger, or if both are equally strong and group to the left. */
  lemma TwoOperators(a: nat, p: BinOpr, b: nat, q: BinOpr, c: nat, levels: nat)
    requires levels >= 3
    ensures Parse([Simple(a), Operator(p), Simple(b), Operator(q), Simple(c)], 0, levels) ==
            Some((if Tier(p) > Tier(q) || (Tier(p) == Tier(q) && !GroupsRight(p))
                  then Bin(q, Bin(p, Leaf(a), Leaf(b)), Leaf(c)) else Bin(p, Leaf(a), Bin(q, Leaf(b), Leaf(c))), []))
  {
    var ts := [Simple(a), Operator(p), Simple(b), Operator(q), Simple(c)];
    var left, right := Bin(q, Bin(p, Leaf(a), Leaf(b)), Leaf(c)), Bin(p, Leaf(a), Bin(q, Leaf(b), Leaf(c)));
    OnePair(p, a, b);
    OnePair(q, b, c);
    assert Yield(left) + [] == ts && Yield(right) + [] == ts;
    assert Grammatical(left) || Grammatical(right);
    assert Levels(left) <= 3 && Levels(right) <= 3;
    hide Parse;
    ParseGrammar(ts, levels, left, []);
    ParseGrammar(ts, levels, right, []);
  }

  /** `u a p b`: the unary operator applies to the power, and to the first operand of anything else. */
  lemma UnaryFirst(u: UnOpr, a: nat, p: BinOpr, b: nat, levels: nat)
    requires levels >= 3
    ensures Parse([SignOf(u), Simple(a), Operator(p), Simple(b)], 0, levels) ==
            Some((if p.Pow? then Un(u, Bin(p, Leaf(a), Leaf(b))) else Bin(p, Un(u, Leaf(a)), Leaf(b)), []))
  {
    var ts := [SignOf(u), Simple(a), Operator(p), Simple(b)];
    var whole, first := Un(u, Bin(p, Leaf(a), Leaf(b))), Bin(p, Un(u, Leaf(a)), Leaf(b));
    OnePair(p, a, b);
    assert Yield(Un(u, Leaf(a))) == [SignOf(u), Simple(a)] && Levels(Un(u, Leaf(a))) == 2;
    assert Yield(whole) + [] == ts && Yield(first) + [] == ts;
    assert Grammatical(Un(u, Leaf(a)));
    assert if p.Pow? then Grammatical(whole) else Grammatical(first);
    assert Levels(whole) <= 3 && Levels(first) <= 3;
    hide Parse;
    ParseGrammar(ts, levels, whole, []);
    ParseGrammar(ts, levels, first, []);
  }
}
