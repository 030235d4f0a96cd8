/** Sequences without repetition, the set of a sequence's elements, and what is left when some of them leave. */
module Seqs {
  predicate Distinct<T(==)>(s: seq<T>)
  {
    forall i, j :: 0 <= i < j < |s| ==> s[i] != s[j]
  }

  /** No element is in both. */
  predicate Apart(a: seq<nat>, b: seq<nat>)
  {
    forall j :: j in a ==> j !in b
  }

  lemma DistinctConcat(a: seq<nat>, b: seq<nat>)
    requires Distinct(a) && Distinct(b) && Apart(a, b)
    ensures Distinct(a + b)
  {
    var s := a + b;
    forall i, j | 0 <= i < j < |s| ensures s[i] != s[j] {
      if i < |a| <= j { assert s[i] in a && s[j] in b; }
    }
  }

  function Elems(s: seq<nat>): set<nat>
  {
    set x | x in s
  }

  /** What is left of a sequence when some elements leave it. */
  function Remain(s: seq<nat>, gone: set<nat>): seq<nat>
  {
    if s == [] then []
    else if s[0] in gone then Remain(s[1..], gone)
    else [s[0]] + Remain(s[1..], gone)
  }

  lemma {:induction false} RemainAppend(s: seq<nat>, t: seq<nat>, gone: set<nat>)
    ensures Remain(s + t, gone) == Remain(s, gone) + Remain(t, gone)
  {
    if s == [] {
      assert s + t == t;
    } else {
      assert (s + t)[0] == s[0] && (s + t)[1..] == s[1..] + t;
      RemainAppend(s[1..], t, gone);
    }
  }

  lemma {:induction false} RemainTwice(s: seq<nat>, a: set<nat>, b: set<nat>)
    ensures Remain(Remain(s, a), b) == Remain(s, a + b)
  {
    if s != [] {
      RemainTwice(s[1..], a, b);
      if s[0] !in a {
        var r := Remain(s[1..], a);
        assert ([s[0]] + r)[1..] == r;
      }
    }
  }

  lemma {:induction false} RemainAll(s: seq<nat>, gone: set<nat>)
    requires forall x :: x in s ==> x !in gone
    ensures Remain(s, gone) == s
  {
    if s != [] {
      assert forall x :: x in s[1..] ==> x in s;
      RemainAll(s[1..], gone);
      assert s == [s[0]] + s[1..];
    }
  }

  lemma {:induction false} RemainHas(s: seq<nat>, gone: set<nat>, x: nat)
    ensures x in Remain(s, gone) <==> x in s && x !in gone
  {
    if s != [] {
      RemainHas(s[1..], gone, x);
      assert s == [s[0]] + s[1..];
    }
  }

  lemma {:induction false} RemainDistinct(s: seq<nat>, gone: set<nat>)
    requires Distinct(s)
    ensures Distinct(Remain(s, gone))
  {
    if s != [] {
      RemainDistinct(s[1..], gone);
      if s[0] !in gone {
        RemainHas(s[1..], gone, s[0]);
        assert s[0] !in s[1..];
      }
    }
  }

  lemma {:induction false} RemainOne(s: seq<nat>, x: nat)
    requires Distinct(s) && x in s
    ensures |Remain(s, {x})| == |s| - 1
  {
    if s[0] == x {
      assert x !in s[1..];
      RemainAll(s[1..], {x});
    } else {
      assert x in s[1..];
      RemainOne(s[1..], x);
    }
  }
}
