/** Sorting a table in place: quicksort with the median of three as pivot, recursive on the smaller part only. */
module LuaSort {
  // ----- orders -----

  /** A strict weak order: what the caller of `sort` promises about its comparison. */
  ghost predicate StrictWeak<V(!new)>(lt: (V, V) -> bool)
  {
    (forall x :: !lt(x, x)) && (forall x, y, z :: lt(x, y) && lt(y, z) ==> lt(x, z)) &&
    forall x, y, z :: lt(x, y) ==> lt(x, z) || lt(z, y)
  }

  lemma Asymmetric<V(!new)>(lt: (V, V) -> bool, x: V, y: V)
    requires StrictWeak(lt)
    ensures !lt(x, x) && (lt(x, y) ==> !lt(y, x))
  {
  }

  /** Not coming after is transitive. */
  lemma NotAfter<V(!new)>(lt: (V, V) -> bool, x: V, y: V, z: V)
    requires StrictWeak(lt) && !lt(y, x) && !lt(z, y)
    ensures !lt(z, x)
  {
  }

  /** Every value of the first range may come before every value of the second. */
  ghost predicate Before<V>(s: seq<V>, lt: (V, V) -> bool, a: int, b: int, c: int, d: int)
  {
    forall x, y :: 0 <= a <= x < b <= |s| && 0 <= c <= y < d <= |s| ==> !lt(s[y], s[x])
  }

  /** The values from `l` to `u` are in order. */
  ghost predicate Sorted<V>(s: seq<V>, lt: (V, V) -> bool, l: int, u: int)
  {
    forall x, y :: 0 <= l <= x < y <= u < |s| ==> !lt(s[y], s[x])
  }

  // ----- rearranging -----

  /** The values from `l` to `u` are rearranged, and no others. */
  ghost predicate Rearranged<V>(s: seq<V>, t: seq<V>, l: int, u: int)
  {
    |s| == |t| && 0 <= l <= u + 1 <= |s| && s[..l] == t[..l] && s[u + 1..] == t[u + 1..] &&
    multiset(s[l..u + 1]) == multiset(t[l..u + 1])
  }

  lemma RearrangedSame<V>(s: seq<V>, l: int, u: int)
    requires 0 <= l <= u + 1 <= |s|
    ensures Rearranged(s, s, l, u)
  {
  }

  lemma RearrangedTwice<V>(s: seq<V>, t: seq<V>, r: seq<V>, l: int, u: int)
    requires Rearranged(s, t, l, u) && Rearranged(t, r, l, u)
    ensures Rearranged(s, r, l, u)
  {
  }

  lemma RearrangedWider<V>(s: seq<V>, t: seq<V>, l: int, u: int, l': int, u': int)
    requires Rearranged(s, t, l, u) && 0 <= l' <= l && u <= u' < |s|
    ensures Rearranged(s, t, l', u')
  {
    assert s[..l'] == s[..l][..l'] && t[..l'] == t[..l][..l'];
    assert s[u' + 1..] == s[u + 1..][u' - u..] && t[u' + 1..] == t[u + 1..][u' - u..];
    Pieces(s, l, u, l', u');
    Pieces(t, l, u, l', u');
  }

  lemma Pieces<V>(s: seq<V>, l: int, u: int, l': int, u': int)
    requires 0 <= l' <= l <= u + 1 && u <= u' < |s|
    ensures s[l'..u' + 1] == s[..l][l'..] + s[l..u + 1] + s[u + 1..][..u' - u]
    ensures multiset(s[l'..u' + 1]) == multiset(s[..l][l'..]) + multiset(s[l..u + 1]) + multiset(s[u + 1..][..u' - u])
  {
    assert s[l'..u' + 1] == s[..l][l'..] + s[l..u + 1] + s[u + 1..][..u' - u];
  }

  lemma SwapRearranges<V>(s: seq<V>, l: int, u: int, i: int, j: int)
    requires 0 <= l <= i <= u < |s| && l <= j <= u
    ensures Rearranged(s, s[i := s[j]][j := s[i]], l, u)
  {
    var t := s[i := s[j]][j := s[i]];
    var m, k := s[l..u + 1], t[l..u + 1];
    assert k == m[i - l := m[j - l]][j - l := m[i - l]];
    assert multiset(k) == multiset(m);
  }

  /** A value found in the range after was in it before. */
  lemma ComesFrom<V>(s: seq<V>, t: seq<V>, l: int, u: int, y: int) returns (x: int)
    requires Rearranged(s, t, l, u) && l <= y <= u
    ensures l <= x <= u && s[x] == t[y]
  {
    assert t[l..u + 1][y - l] in multiset(s[l..u + 1]);
    assert t[y] in s[l..u + 1];
    x :| 0 <= x < u + 1 - l && s[l..u + 1][x] == t[y];
    x := x + l;
  }

  // ----- how far the sort has come -----

  /** Only the values from `l` to `u` may still be out of order. */
  ghost predicate Settled<V>(s: seq<V>, lt: (V, V) -> bool, l0: int, l: int, u: int, u0: int)
  {
    forall x, y :: 0 <= l0 <= x < y <= u0 < |s| && (x < l || u < y) ==> !lt(s[y], s[x])
  }

  lemma SettledStays<V>(s: seq<V>, t: seq<V>, lt: (V, V) -> bool, l0: int, l: int, u: int, u0: int)
    requires Settled(s, lt, l0, l, u, u0) && Rearranged(s, t, l, u) && 0 <= l0 <= l && u <= u0 < |s|
    ensures Settled(t, lt, l0, l, u, u0)
  {
    forall k | l0 <= k < l || u < k <= u0 ensures s[k] == t[k] {
      if k < l { assert s[..l][k] == t[..l][k]; } else { assert s[u + 1..][k - u - 1] == t[u + 1..][k - u - 1]; }
    }
    forall x, y | l0 <= x < y <= u0 && (x < l || u < y) ensures !lt(t[y], t[x]) {
      var x', y' := x, y;
      if l <= x <= u { x' := ComesFrom(s, t, l, u, x); }
      if l <= y <= u { y' := ComesFrom(s, t, l, u, y); }
      assert s[x'] == t[x] && s[y'] == t[y];
    }
  }

  /** The value at `m` splits the range: nothing left of it comes after it, and nothing right of it before. */
  ghost predicate Split<V>(s: seq<V>, lt: (V, V) -> bool, l: int, m: int, u: int)
  {
    0 <= l <= m <= u < |s| && Before(s, lt, l, m, m, m + 1) && Before(s, lt, m, m + 1, m + 1, u + 1)
  }

  /** After a split and the sorting of one part, only the other part may be out of order. */
  lemma PartSettled<V(!new)>(s: seq<V>, t: seq<V>, lt: (V, V) -> bool, l0: int, l: int, m: int, u: int, u0: int,
                      left: bool)
    requires StrictWeak(lt) && Settled(s, lt, l0, l, u, u0) && Split(s, lt, l, m, u) && 0 <= l0 <= l && u <= u0 < |s|
    requires var j, i := if left then l else m + 1, if left then m - 1 else u;
             Rearranged(s, t, j, i) && Sorted(t, lt, j, i)
    ensures Settled(t, lt, l0, if left then m + 1 else l, if left then u else m - 1, u0)
  {
    var j, i := if left then l else m + 1, if left then m - 1 else u;
    var l', u' := if left then m + 1 else l, if left then u else m - 1;
    SettledAround(s, lt, l0, l, m, u, u0);
    forall k | l0 <= k < j || i < k <= u0 ensures s[k] == t[k] {
      if k < j { assert s[..j][k] == t[..j][k]; } else { assert s[i + 1..][k - i - 1] == t[i + 1..][k - i - 1]; }
    }
    forall x, y | l0 <= x < y <= u0 && (x < l' || u' < y) ensures !lt(t[y], t[x]) {
      if !(j <= x && y <= i) {
        var x', y' := x, y;
        if j <= x <= i { x' := ComesFrom(s, t, j, i, x); }
        if j <= y <= i { y' := ComesFrom(s, t, j, i, y); }
        assert s[x'] == t[x] && s[y'] == t[y] && x' < y';
      }
    }
  }

  /** Around a split everything is in order but the two parts themselves. */
  lemma SettledAround<V(!new)>(s: seq<V>, lt: (V, V) -> bool, l0: int, l: int, m: int, u: int, u0: int)
    requires StrictWeak(lt) && Settled(s, lt, l0, l, u, u0) && Split(s, lt, l, m, u) && 0 <= l0 <= l && u <= u0 < |s|
    ensures forall x, y :: l0 <= x < y <= u0 && (x < l || u < y || x <= m <= y) ==> !lt(s[y], s[x])
  {
    forall x, y | l0 <= x < y <= u0 && (x < l || u < y || x <= m <= y) ensures !lt(s[y], s[x]) {
      if l <= x && y <= u {
        assert x < m ==> !lt(s[m], s[x]);
        assert y > m ==> !lt(s[y], s[m]);
      }
    }
  }

  // ----- the sort -----

  method Swap<V>(a: array<V>, i: int, j: int, ghost l: int, ghost u: int)
    requires 0 <= l <= i <= u < a.Length && l <= j <= u
    modifies a
    ensures a[..] == old(a[..])[i := old(a[j])][j := old(a[i])] && Rearranged(old(a[..]), a[..], l, u)
  {
    SwapRearranges(a[..], l, u, i, j);
    a[i], a[j] := a[j], a[i];
  }

  /** Puts the first and the last value in order. */
  method OrderEnds<V(!new)>(a: array<V>, lt: (V, V) -> bool, l: int, u: int)
    requires StrictWeak(lt) && 0 <= l < u < a.Length
    modifies a
    ensures Rearranged(old(a[..]), a[..], l, u) && !lt(a[u], a[l])
  {
    hide StrictWeak, Rearranged;
    RearrangedSame(a[..], l, u);
    Asymmetric(lt, a[u], a[l]);
    if lt(a[u], a[l]) { Swap(a, l, u, l, u); }
  }

  /** Puts the middle value in order with the first and the last. */
  method OrderMiddle<V(!new)>(a: array<V>, lt: (V, V) -> bool, l: int, m: int, u: int)
    requires StrictWeak(lt) && 0 <= l < m < u < a.Length && !lt(a[u], a[l])
    modifies a
    ensures Rearranged(old(a[..]), a[..], l, u) && !lt(a[m], a[l]) && !lt(a[u], a[m])
  {
    hide StrictWeak, Rearranged;
    RearrangedSame(a[..], l, u);
    Asymmetric(lt, a[m], a[l]);
    Asymmetric(lt, a[u], a[m]);
    if lt(a[m], a[l]) {
      Swap(a, m, l, l, u);
    } else if lt(a[u], a[m]) {
      Swap(a, m, u, l, u);
    }
  }

  /** The first index after `i` whose value does not come before the pivot; there is one, as the value at `stop` is
      such. */
  method ScanUp<V(!new)>(a: array<V>, lt: (V, V) -> bool, p: V, i0: int, u: int, ghost stop: int) returns (i: int)
    requires 0 <= i0 + 1 <= stop <= u < a.Length && !lt(a[stop], p)
    ensures i0 < i <= stop && !lt(a[i], p) && forall k :: i0 < k < i ==> lt(a[k], p)
  {
    i := i0 + 1;
    while lt(a[i], p)
      invariant i0 < i <= stop && forall k :: i0 < k < i ==> lt(a[k], p)
      decreases stop - i
    {
      assert i <= u;
      i := i + 1;
    }
  }

  /** The last index before `j` whose value does not come after the pivot. */
  method ScanDown<V(!new)>(a: array<V>, lt: (V, V) -> bool, p: V, j0: int, l: int, ghost stop: int) returns (j: int)
    requires 0 <= l <= stop <= j0 - 1 < a.Length && !lt(p, a[stop])
    ensures stop <= j < j0 && !lt(p, a[j]) && forall k :: j < k < j0 ==> lt(p, a[k])
  {
    j := j0 - 1;
    while lt(p, a[j])
      invariant stop <= j < j0 && forall k :: j < k < j0 ==> lt(p, a[k])
      decreases j - stop
    {
      assert l <= j;
      j := j - 1;
    }
  }

  /** No value from `l` to `i` comes after the pivot. */
  ghost predicate Low<V>(s: seq<V>, lt: (V, V) -> bool, p: V, l: int, i: int)
  {
    forall k :: 0 <= l <= k <= i < |s| ==> !lt(p, s[k])
  }

  /** No value from `j` to `u` comes before the pivot. */
  ghost predicate High<V>(s: seq<V>, lt: (V, V) -> bool, p: V, j: int, u: int)
  {
    forall k :: 0 <= j <= k <= u < |s| ==> !lt(s[k], p)
  }

  /** Moves the values that come before the pivot `a[u - 1]` to the left of those that come after it. */
  method Scan<V(!new)>(a: array<V>, lt: (V, V) -> bool, l: int, u: int) returns (i: int)
    requires StrictWeak(lt) && 0 <= l && l + 2 < u < a.Length && !lt(a[u - 1], a[l]) && !lt(a[u], a[u - 1])
    modifies a
    ensures Rearranged(old(a[..]), a[..], l, u) && l < i < u && a[u - 1] == old(a[u - 1])
    ensures Low(a[..], lt, a[u - 1], l, i - 1) && High(a[..], lt, a[u - 1], i, u)
  {
    hide StrictWeak, Rearranged, Low, High;
    var p := a[u - 1];
    Asymmetric(lt, p, p);
    RearrangedSame(a[..], l, u);
    Ends(a[..], lt, p, l, u);
    i := l;
    var j := u - 1;
    var more := true;
    while more
      invariant Rearranged(old(a[..]), a[..], l, u) && a[u - 1] == p
      invariant more ==>
                  Low(a[..], lt, p, l, i) && High(a[..], lt, p, j, u) && l <= i && j < u &&
                  (i < j || (l < i == j < u - 1))
      invariant !more ==> l < i < u && Low(a[..], lt, p, l, i - 1) && High(a[..], lt, p, i, u)
      decreases more, j
    {
      ghost var s, i0, j0 := a[..], i, j;
      Stops(s, lt, p, l, i, j, u);
      i := ScanUp(a, lt, p, i, u, if i < j then j else j + 1);
      j := ScanDown(a, lt, p, j, l, if i0 < j0 then i0 else j - 1);
      Scanned(s, lt, p, l, i0, i, j, j0, u);
      if j < i {
        more := false;
      } else {
        Exchanged(s, lt, p, l, i, j, u);
        Swap(a, i, j, l, u);
        RearrangedTwice(old(a[..]), s, a[..], l, u);
      }
    }
  }

  /** What the two scans have passed is on its side of the pivot. */
  lemma Scanned<V(!new)>(s: seq<V>, lt: (V, V) -> bool, p: V, l: int, i0: int, i: int, j: int, j0: int, u: int)
    requires StrictWeak(lt) && 0 <= l <= i0 < i <= u < |s| && l <= j < j0 <= u && Low(s, lt, p, l, i0) &&
             High(s, lt, p, j0, u)
    requires forall k :: i0 < k < i ==> lt(s[k], p)
    requires forall k :: j < k < j0 ==> lt(p, s[k])
    ensures Low(s, lt, p, l, i - 1) && High(s, lt, p, j + 1, u) && (j < i ==> High(s, lt, p, i, u))
  {
  }

  lemma Exchanged<V>(s: seq<V>, lt: (V, V) -> bool, p: V, l: int, i: int, j: int, u: int)
    requires 0 <= l <= i <= j <= u < |s| && Low(s, lt, p, l, i - 1) && High(s, lt, p, j + 1, u) && !lt(s[i], p) &&
             !lt(p, s[j])
    ensures var t := s[i := s[j]][j := s[i]]; Low(t, lt, p, l, i) && High(t, lt, p, j, u)
  {
  }

  lemma Ends<V>(s: seq<V>, lt: (V, V) -> bool, p: V, l: int, u: int)
    requires 0 <= l < u < |s| && s[u - 1] == p && !lt(p, s[l]) && !lt(s[u], p) && !lt(p, p)
    ensures Low(s, lt, p, l, l) && High(s, lt, p, u - 1, u)
  {
  }

  lemma Stops<V>(s: seq<V>, lt: (V, V) -> bool, p: V, l: int, i: int, j: int, u: int)
    requires 0 <= l <= i <= j <= u < |s| && Low(s, lt, p, l, i) && High(s, lt, p, j, u)
    ensures !lt(p, s[i]) && !lt(s[j], p) && (j < u ==> !lt(s[j + 1], p)) && (l < i ==> !lt(p, s[i - 1]))
  {
  }

  /** The pivot goes between the two sides. */
  lemma PivotSplits<V(!new)>(s: seq<V>, lt: (V, V) -> bool, l: int, i: int, u: int)
    requires StrictWeak(lt) && 0 <= l < i < u < |s| && Low(s, lt, s[u - 1], l, i - 1) && High(s, lt, s[u - 1], i, u)
    ensures Split(s[u - 1 := s[i]][i := s[u - 1]], lt, l, i, u)
  {
  }

  /** The pivot is put aside, before the last value. */
  method PutPivot<V(!new)>(a: array<V>, lt: (V, V) -> bool, l: int, m: int, u: int)
    requires 0 <= l < m < u - 1 && u < a.Length && !lt(a[m], a[l]) && !lt(a[u], a[m])
    modifies a
    ensures Rearranged(old(a[..]), a[..], l, u) && !lt(a[u - 1], a[l]) && !lt(a[u], a[u - 1])
  {
    hide Rearranged;
    Swap(a, m, u - 1, l, u);
  }

  /** Splits the range at the pivot, the middle value of three that are in order. */
  method Partition<V(!new)>(a: array<V>, lt: (V, V) -> bool, l: int, m: int, u: int) returns (i: int)
    requires StrictWeak(lt) && 0 <= l < m < u - 1 && u < a.Length && !lt(a[m], a[l]) && !lt(a[u], a[m])
    modifies a
    ensures Rearranged(old(a[..]), a[..], l, u) && l < i < u && Split(a[..], lt, l, i, u)
  {
    hide StrictWeak, Rearranged, Low, High, Split, Before;
    PutPivot(a, lt, l, m, u);
    ghost var s := a[..];
    i := Scan(a, lt, l, u);
    ghost var t := a[..];
    RearrangedTwice(old(a[..]), s, t, l, u);
    PivotSplits(t, lt, l, i, u);
    Swap(a, u - 1, i, l, u);
    RearrangedTwice(old(a[..]), t, a[..], l, u);
  }

  function Pow2(n: nat): nat
  {
    if n == 0 then 1 else 2 * Pow2(n - 1)
  }

  /** Two or three values in order are sorted, and so then is everything. */
  lemma FewSorted<V(!new)>(s: seq<V>, lt: (V, V) -> bool, l0: int, l: int, u: int, u0: int)
    requires StrictWeak(lt) && 0 <= l0 <= l && u <= u0 < |s| && Settled(s, lt, l0, l, u, u0)
    requires l < u ==> FewInOrder(s, lt, l, u)
    ensures Sorted(s, lt, l0, u0)
  {
    forall x, y | l0 <= x < y <= u0 ensures !lt(s[y], s[x]) {
    }
  }

  ghost predicate FewInOrder<V>(s: seq<V>, lt: (V, V) -> bool, l: int, u: int)
  {
    0 <= l < u < |s| && u - l <= 2 && !lt(s[u], s[l]) && (u - l == 2 ==> !lt(s[l + 1], s[l]) && !lt(s[u], s[l + 1]))
  }

  /** Sorts two or three values; splits more. */
  method SplitOnce<V(!new)>(a: array<V>, lt: (V, V) -> bool, l: int, u: int) returns (few: bool, i: int)
    requires StrictWeak(lt) && 0 <= l < u < a.Length
    modifies a
    ensures Rearranged(old(a[..]), a[..], l, u) && (few <==> u - l <= 2)
    ensures few ==> FewInOrder(a[..], lt, l, u)
    ensures !few ==> l < i < u && Split(a[..], lt, l, i, u)
  {
    hide StrictWeak, Rearranged, Low, High, Split;
    OrderEnds(a, lt, l, u);
    if u - l == 1 { return true, l; }
    ghost var s := a[..];
    i := (l + u) / 2;
    OrderMiddle(a, lt, l, i, u);
    NotAfter(lt, a[l], a[i], a[u]);
    ghost var t := a[..];
    RearrangedTwice(old(a[..]), s, t, l, u);
    if u - l == 2 { return true, i; }
    i := Partition(a, lt, l, i, u);
    RearrangedTwice(old(a[..]), t, a[..], l, u);
    few := false;
  }

  /** A part rearranged is the whole rearranged. */
  lemma PartRearranged<V>(r: seq<V>, s: seq<V>, t: seq<V>, l0: int, l: int, u: int, u0: int)
    requires Rearranged(r, s, l0, u0) && Rearranged(s, t, l, u) && l0 <= l && u <= u0
    ensures Rearranged(r, t, l0, u0)
  {
    RearrangedWider(s, t, l, u, l0, u0);
    RearrangedTwice(r, s, t, l0, u0);
  }

  lemma SettledFirst<V>(s: seq<V>, lt: (V, V) -> bool, l: int, u: int)
    requires 0 <= l <= u + 1 <= |s|
    ensures Settled(s, lt, l, l, u, u) && Rearranged(s, s, l, u)
  {
  }

  /** The smaller of two parts around one value has less than half of the values: one level of recursion fewer is
      enough. */
  lemma DepthBound(depth: nat, part: int, whole: int)
    requires 2 * part < whole && 2 <= whole < Pow2(depth + 1)
    ensures depth > 0 && part < Pow2(depth)
  {
  }

  /**
   * Sorts the values from `l0` to `u0` under any strict weak order. The error branches are not reached. The recursion
   * goes no deeper than `depth`, which may be any number that is at least the binary logarithm of the number of values.
   */
  method AuxSort<V(!new)>(a: array<V>, lt: (V, V) -> bool, l0: int, u0: int, ghost depth: nat)
    requires StrictWeak(lt) && 0 <= l0 <= u0 + 1 <= a.Length && u0 - l0 + 1 < Pow2(depth + 1)
    modifies a
    ensures Rearranged(old(a[..]), a[..], l0, u0) && Sorted(a[..], lt, l0, u0)
    decreases depth
  {
    hide StrictWeak, Rearranged, Low, High, Split, Settled, Sorted, FewInOrder;
    var l, u, few := l0, u0, false;
    SettledFirst(a[..], lt, l0, u0);
    while l < u && !few
      invariant l0 <= l <= u + 1 && u <= u0 && Rearranged(old(a[..]), a[..], l0, u0) && Settled(a[..], lt, l0, l, u, u0)
      invariant few ==> FewInOrder(a[..], lt, l, u)
      decreases !few, u - l
    {
      ghost var s := a[..];
      var i;
      few, i := SplitOnce(a, lt, l, u);
      ghost var t := a[..];
      PartRearranged(old(a[..]), s, t, l0, l, u, u0);
      SettledStays(s, t, lt, l0, l, u, u0);
      if !few {
        var left := i - l < u - i;
        var j, k := if left then l else i + 1, if left then i - 1 else u;
        DepthBound(depth, k - j + 1, u0 - l0 + 1);
        AuxSort(a, lt, j, k, depth - 1);
        PartRearranged(old(a[..]), t, a[..], l0, j, k, u0);
        PartSettled(t, a[..], lt, l0, l, i, u, u0, left);
        if left { l := i + 1; } else { u := i - 1; }
      }
    }
    FewSorted(a[..], lt, l0, l, u, u0);
  }

  /** The binary logarithm, rounded down. */
  ghost function Log2(n: nat): (k: nat)
    ensures n < Pow2(k + 1) && (n > 0 ==> Pow2(k) <= n)
  {
    if n < 2 then 0 else 1 + Log2(n / 2)
  }

  /** The table's values are sorted from 1 to `n`. */
  method Sort<V(!new)>(a: array<V>, lt: (V, V) -> bool, n: nat)
    requires StrictWeak(lt) && n < a.Length
    modifies a
    ensures a[0] == old(a[0]) && a[n + 1..] == old(a[n + 1..]) && multiset(a[1..n + 1]) == multiset(old(a[1..n + 1])) &&
            Sorted(a[..], lt, 1, n)
  {
    ghost var was := a[..];
    AuxSort(a, lt, 1, n, Log2(n));
    assert a[..][..1] == was[..1] && a[..][..1][0] == was[..1][0];
    assert a[..][n + 1..] == a[n + 1..] && was[n + 1..] == old(a[n + 1..]) && a[..][1..n + 1] == a[1..n + 1] &&
           was[1..n + 1] == old(a[1..n + 1]);
  }
}
