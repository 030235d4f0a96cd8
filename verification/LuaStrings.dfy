/** The table of strings: equal contents are one object. */
module LuaStrings {
  import opened Options
  import opened Seqs

  type Id = nat

  type Chars = seq<bv8>

  const MAX_INT := 0x7fff_ffff

  // ----- hashing -----

  function Mix(h: bv32, c: bv8): bv32
  {
    h ^ ((h << 5) + (h >> 2) + (c as bv32))
  }

  /** A long string is not hashed by all its characters, but by every `step`-th from the end. */
  function HashFrom(s: Chars, l1: nat, step: nat, h: bv32): bv32
    requires l1 <= |s| && step > 0
    decreases l1
  {
    if l1 < step then h else HashFrom(s, l1 - step, step, Mix(h, s[l1 - 1]))
  }

  function Hash(s: Chars): bv32
  {
    HashFrom(s, |s|, |s| / 32 + 1, (|s| % 0x1_0000_0000) as bv32)
  }

  method HashOf(s: Chars) returns (h: bv32)
    ensures h == Hash(s)
  {
    h := (|s| % 0x1_0000_0000) as bv32;
    var step, l1 := |s| / 32 + 1, |s|;
    while l1 >= step
      invariant 0 <= l1 <= |s| && HashFrom(s, l1, step, h) == Hash(s)
    {
      h := Mix(h, s[l1 - 1]);
      l1 := l1 - step;
    }
  }

  /** Short strings are hashed by all their characters. */
  lemma HashSamples()
    ensures Hash([]) == 0 && Hash([97]) == 128 && Hash([97, 98]) == 5161
  {
    assert Mix(1, 97) == 128;
    assert Mix(2, 98) == 160 && Mix(160, 97) == 5161;
    assert HashFrom([97, 98], 2, 1, 2) == HashFrom([97, 98], 1, 1, 160);
  }

  /** The characters that count: every `step`-th from position `l1` back. */
  function Place(l1: nat, step: nat, k: nat): int
  {
    l1 - 1 - k * step
  }

  lemma {:induction false} HashFromSkips(s: Chars, t: Chars, l1: nat, step: nat, h: bv32)
    requires l1 <= |s| == |t| && step > 0
    requires forall k: nat :: 0 <= Place(l1, step, k) < l1 ==> s[Place(l1, step, k)] == t[Place(l1, step, k)]
    ensures HashFrom(s, l1, step, h) == HashFrom(t, l1, step, h)
    decreases l1
  {
    if l1 >= step {
      assert Place(l1, step, 0) == l1 - 1;
      var l := l1 - step;
      forall k: nat | 0 <= Place(l, step, k) < l ensures s[Place(l, step, k)] == t[Place(l, step, k)] {
        assert Place(l, step, k) == Place(l1, step, k + 1);
      }
      HashFromSkips(s, t, l, step, Mix(h, s[l1 - 1]));
    }
  }

  /** A longer one by every second, third and so on from its end: the others do not matter. */
  lemma HashSkips(s: Chars, t: Chars)
    requires |s| == |t| && var step := |s| / 32 + 1;
             forall k: nat :: 0 <= Place(|s|, step, k) < |s| ==> s[Place(|s|, step, k)] == t[Place(|s|, step, k)]
    ensures Hash(s) == Hash(t)
  {
    HashFromSkips(s, t, |s|, |s| / 32 + 1, (|s| % 0x1_0000_0000) as bv32);
  }

  function Bucket(h: bv32, size: nat): nat
    requires size > 0
  {
    (h as nat) % size
  }

  // ----- the table -----

  datatype Str = Str(chars: Chars, hash: bv32)

  datatype Color = White(w: bool) | Marked

  /** A chain without repetition, of strings that belong into bucket `b`. */
  ghost predicate ChainOk(chain: seq<Id>, strings: map<Id, Str>, all: set<Id>, b: nat, size: nat)
    requires size > 0
  {
    Distinct(chain) && forall x :: x in chain ==> x in all && x in strings && Bucket(strings[x].hash, size) == b
  }

  ghost predicate InChain(hash: seq<seq<Id>>, strings: map<Id, Str>, x: Id)
  {
    |hash| > 0 && x in strings && x in hash[Bucket(strings[x].hash, |hash|)]
  }

  /** The chains hold these strings, each once and in the bucket of its hash. */
  ghost predicate Chained(hash: seq<seq<Id>>, strings: map<Id, Str>, all: set<Id>)
  {
    |hash| > 0 && (forall b :: 0 <= b < |hash| ==> ChainOk(hash[b], strings, all, b, |hash|)) &&
    forall x :: x in all ==> InChain(hash, strings, x)
  }

  /** Every string has the hash of its contents, and no two have the same contents. */
  ghost predicate Interned(strings: map<Id, Str>)
  {
    (forall x :: x in strings ==> strings[x].hash == Hash(strings[x].chars)) &&
    forall x, y :: x in strings && y in strings && strings[x].chars == strings[y].chars ==> x == y
  }

  ghost predicate Known(strings: map<Id, Str>, s: Chars)
  {
    exists x :: x in strings && strings[x].chars == s
  }

  lemma ChainedNone(hash: seq<seq<Id>>, strings: map<Id, Str>)
    requires |hash| > 0 && forall b :: 0 <= b < |hash| ==> hash[b] == []
    ensures Chained(hash, strings, {})
  {
  }

  /** A string at the head of the chain of its bucket. */
  lemma ChainedAdd(hash: seq<seq<Id>>, strings: map<Id, Str>, all: set<Id>, x: Id)
    requires Chained(hash, strings, all) && x !in all && x in strings
    ensures var b := Bucket(strings[x].hash, |hash|); Chained(hash[b := [x] + hash[b]], strings, all + {x})
  {
    var b := Bucket(strings[x].hash, |hash|);
    var hash' := hash[b := [x] + hash[b]];
    forall c | 0 <= c < |hash'| ensures ChainOk(hash'[c], strings, all + {x}, c, |hash'|) {
      assert ChainOk(hash[c], strings, all, c, |hash|);
    }
    forall y | y in all + {x} ensures InChain(hash', strings, y) {
      if y != x { assert InChain(hash, strings, y); }
    }
  }

  /** Strings that are not in the chains do not matter. */
  lemma ChainedWith(hash: seq<seq<Id>>, strings: map<Id, Str>, all: set<Id>, x: Id, t: Str)
    requires Chained(hash, strings, all) && x !in all
    ensures Chained(hash, strings[x := t], all)
  {
    forall c | 0 <= c < |hash| ensures ChainOk(hash[c], strings[x := t], all, c, |hash|) {
      assert ChainOk(hash[c], strings, all, c, |hash|);
    }
    forall y | y in all ensures InChain(hash, strings[x := t], y) { assert InChain(hash, strings, y); }
  }

  lemma ChainedAt(hash: seq<seq<Id>>, strings: map<Id, Str>, all: set<Id>, b: nat)
    requires Chained(hash, strings, all) && b < |hash|
    ensures ChainOk(hash[b], strings, all, b, |hash|)
  {
  }

  /** A string with these contents can only be in the bucket of their hash. */
  lemma OnlyThere(hash: seq<seq<Id>>, strings: map<Id, Str>, s: Chars)
    requires Chained(hash, strings, strings.Keys) && Interned(strings)
    requires var chain := hash[Bucket(Hash(s), |hash|)]; forall i :: 0 <= i < |chain| ==>
               chain[i] in strings && strings[chain[i]].chars != s
    ensures !Known(strings, s)
  {
    forall x | x in strings ensures strings[x].chars != s { assert InChain(hash, strings, x); }
  }

  lemma InternedNew(strings: map<Id, Str>, s: Chars, x: Id)
    requires Interned(strings) && !Known(strings, s) && x !in strings
    ensures Interned(strings[x := Str(s, Hash(s))])
  {
  }

  /** The strings that have moved when the buckets before `i` and `j` strings of bucket `i` are done. */
  ghost predicate MovedSoFar(moved: set<Id>, hash: seq<seq<Id>>, strings: map<Id, Str>, i: nat, j: nat)
  {
    |hash| > 0 && i <= |hash| && moved <= strings.Keys && (i < |hash| ==> j <= |hash[i]|) &&
    forall x :: x in strings ==> (x in moved <==> Done(hash, strings, x, i, j))
  }

  ghost predicate Done(hash: seq<seq<Id>>, strings: map<Id, Str>, x: Id, i: nat, j: nat)
    requires |hash| > 0 && x in strings && (i < |hash| ==> j <= |hash[i]|)
  {
    var b := Bucket(strings[x].hash, |hash|);
    b < i || (b == i < |hash| && x in hash[i][..j])
  }

  lemma MoveOne(moved: set<Id>, hash: seq<seq<Id>>, strings: map<Id, Str>, i: nat, j: nat)
    requires MovedSoFar(moved, hash, strings, i, j) && i < |hash| && j < |hash[i]| &&
             ChainOk(hash[i], strings, strings.Keys, i, |hash|)
    ensures var x := hash[i][j]; x in strings && x !in moved && MovedSoFar(moved + {x}, hash, strings, i, j + 1)
  {
    var chain, x := hash[i], hash[i][j];
    assert x in chain;
    assert chain[..j + 1] == chain[..j] + [x];
    assert x !in chain[..j];
    forall y | y in strings ensures y in moved + {x} <==> Done(hash, strings, y, i, j + 1) {
      assert y in moved <==> Done(hash, strings, y, i, j);
    }
  }

  lemma NextBucket(moved: set<Id>, hash: seq<seq<Id>>, strings: map<Id, Str>, i: nat)
    requires i < |hash| && MovedSoFar(moved, hash, strings, i, |hash[i]|) && Chained(hash, strings, strings.Keys)
    ensures MovedSoFar(moved, hash, strings, i + 1, 0)
  {
    forall y | y in strings ensures y in moved <==> Done(hash, strings, y, i + 1, 0) {
      assert y in moved <==> Done(hash, strings, y, i, |hash[i]|);
      assert hash[i][..|hash[i]|] == hash[i];
      assert InChain(hash, strings, y);
    }
  }

  lemma AllMoved(moved: set<Id>, hash: seq<seq<Id>>, strings: map<Id, Str>)
    requires MovedSoFar(moved, hash, strings, |hash|, 0)
    ensures moved == strings.Keys
  {
    forall y | y in strings ensures y in moved { assert y in moved <==> Done(hash, strings, y, |hash|, 0); }
  }

  lemma NoneMoved(hash: seq<seq<Id>>, strings: map<Id, Str>)
    requires |hash| > 0
    ensures MovedSoFar({}, hash, strings, 0, 0)
  {
    forall y | y in strings ensures !Done(hash, strings, y, 0, 0) {}
  }

  /** One chain after the strings of `gone` were taken out of it. */
  lemma ChainedWithout(hash: seq<seq<Id>>, strings: map<Id, Str>, b: nat, gone: set<Id>)
    requires Chained(hash, strings, strings.Keys) && b < |hash| && gone <= Elems(hash[b])
    ensures Chained(hash[b := Remain(hash[b], gone)], strings - gone, (strings - gone).Keys)
  {
    var hash', left := hash[b := Remain(hash[b], gone)], strings - gone;
    assert ChainOk(hash[b], strings, strings.Keys, b, |hash|);
    forall c | 0 <= c < |hash'| ensures ChainOk(hash'[c], left, left.Keys, c, |hash'|) {
      assert ChainOk(hash[c], strings, strings.Keys, c, |hash|);
      if c == b { ChainWithout(hash[b], strings, b, |hash|, gone); }
    }
    forall x | x in left ensures InChain(hash', left, x) {
      assert InChain(hash, strings, x);
      RemainHas(hash[b], gone, x);
    }
  }

  lemma ChainWithout(chain: seq<Id>, strings: map<Id, Str>, b: nat, size: nat, gone: set<Id>)
    requires size > 0 && ChainOk(chain, strings, strings.Keys, b, size)
    ensures ChainOk(Remain(chain, gone), strings - gone, (strings - gone).Keys, b, size)
  {
    RemainDistinct(chain, gone);
    forall x | x in Remain(chain, gone) ensures x in chain && x !in gone { RemainHas(chain, gone, x); }
  }

  ghost function DeadIn(color: map<Id, Color>, cur: bool): set<Id>
  {
    set x | x in color && color[x] == White(!cur)
  }

  /** The strings of a chain that a sweep frees. */
  ghost function Garbage(chain: seq<Id>, color: map<Id, Color>, cur: bool, fixed: set<Id>): set<Id>
  {
    set x | x in chain && x in DeadIn(color, cur) && x !in fixed
  }

  /** The colours when the strings of `part` were swept, and those in `gone` were freed. */
  function Whitened(color: map<Id, Color>, part: seq<Id>, gone: set<Id>, cur: bool): map<Id, Color>
  {
    map x | x in color && !(x in part && x in gone) :: if x in part then White(cur) else color[x]
  }

  /** The first `i` strings of a chain were swept: `kept` of them remain, and so do `left` of all strings, with the
      colours `white`. */
  ghost predicate SweptTo(strings: map<Id, Str>, color: map<Id, Color>, chain: seq<Id>, gone: set<Id>, cur: bool,
                          i: nat, kept: seq<Id>, left: map<Id, Str>, white: map<Id, Color>)
  {
    i <= |chain| && kept == Remain(chain[..i], gone) && left == strings - Elems(chain[..i]) * gone &&
    white == Whitened(color, chain[..i], gone, cur)
  }

  lemma SweptNone(strings: map<Id, Str>, color: map<Id, Color>, chain: seq<Id>, gone: set<Id>, cur: bool)
    ensures SweptTo(strings, color, chain, gone, cur, 0, [], strings, color)
  {
  }

  lemma SweptNext(strings: map<Id, Str>, color: map<Id, Color>, chain: seq<Id>, gone: set<Id>, cur: bool, i: nat,
                  kept: seq<Id>, left: map<Id, Str>, white: map<Id, Color>)
    requires SweptTo(strings, color, chain, gone, cur, i, kept, left, white)
    requires i < |chain| && Distinct(chain) && chain[i] in strings && chain[i] in color
    ensures var o := chain[i];
            o in left && o in white && white[o] == color[o] &&
            if o in gone then SweptTo(strings, color, chain, gone, cur, i + 1, kept, left - {o}, white - {o})
            else SweptTo(strings, color, chain, gone, cur, i + 1, kept + [o], left, white[o := White(cur)])
  {
    var o := chain[i];
    assert chain[..i + 1] == chain[..i] + [o] && o !in chain[..i];
    RemainAppend(chain[..i], [o], gone);
    assert Elems(chain[..i + 1]) == Elems(chain[..i]) + {o};
    if o in gone {
      assert left - {o} == strings - Elems(chain[..i + 1]) * gone;
      assert white - {o} == Whitened(color, chain[..i + 1], gone, cur);
    } else {
      assert Elems(chain[..i + 1]) * gone == Elems(chain[..i]) * gone;
      assert white[o := White(cur)] == Whitened(color, chain[..i + 1], gone, cur);
    }
  }

  lemma SweptDone(strings: map<Id, Str>, color: map<Id, Color>, chain: seq<Id>, gone: set<Id>, cur: bool,
                  kept: seq<Id>, left: map<Id, Str>, white: map<Id, Color>)
    requires SweptTo(strings, color, chain, gone, cur, |chain|, kept, left, white)
    requires gone <= Elems(chain) && strings.Keys == color.Keys
    ensures kept == Remain(chain, gone) && left == strings - gone && white == Whitened(color, chain, gone, cur)
    ensures white.Keys == left.Keys
  {
    assert chain[..|chain|] == chain;
    assert Elems(chain) * gone == gone;
  }

  lemma OneLess(strings: map<Id, Str>, x: Id)
    requires x in strings
    ensures |strings - {x}| == |strings| - 1
  {
    assert strings.Keys == (strings - {x}).Keys + {x};
  }

  /** `sweeplist` on a chain of strings: dead strings are freed, unless they are fixed, and all others turn white. */
  method SweepList(chain: seq<Id>, strings: map<Id, Str>, color: map<Id, Color>, fixed: set<Id>, cur: bool, nuse: nat)
    returns (kept: seq<Id>, left: map<Id, Str>, white: map<Id, Color>, n: nat)
    requires Distinct(chain) && strings.Keys == color.Keys && nuse == |strings|
    requires forall x :: x in chain ==> x in strings
    ensures var gone := Garbage(chain, color, cur, fixed);
            kept == Remain(chain, gone) && left == strings - gone && white == Whitened(color, chain, gone, cur)
    ensures white.Keys == left.Keys && n == |left|
  {
    hide SweptTo, Whitened, Remain;
    ghost var gone := Garbage(chain, color, cur, fixed);
    kept, left, white, n := [], strings, color, nuse;
    SweptNone(strings, color, chain, gone, cur);
    for i := 0 to |chain|
      invariant n == |left| && SweptTo(strings, color, chain, gone, cur, i, kept, left, white)
    {
      var o := chain[i];
      assert o in chain;
      SweptNext(strings, color, chain, gone, cur, i, kept, left, white);
      if white[o] != White(!cur) || o in fixed {
        kept, white := kept + [o], white[o := White(cur)];
      } else {
        OneLess(left, o);
        left, white, n := left - {o}, white - {o}, n - 1;
      }
    }
    SweptDone(strings, color, chain, gone, cur, kept, left, white);
  }

  lemma InternedWithout(strings: map<Id, Str>, gone: set<Id>)
    requires Interned(strings)
    ensures Interned(strings - gone)
  {
  }

  /** A string is asked for, and `at` is where the memory allocator would place it; the table is resized; the collector
      changes colours, its phase and which strings are fixed; or it sweeps a chain. */
  datatype Step =
    | Ask(s: Chars, at: Id)
    | SetSize(n: nat)
    | Collect(color: map<Id, Color>, fixed: set<Id>, cur: bool, sweeping: bool)
    | SweepChain(b: nat)

  class StringTable {
    var hash: seq<seq<Id>>
    var nuse: nat
    var strings: map<Id, Str>
    var color: map<Id, Color>
    var fixed: set<Id>
    var cur: bool
    var sweeping: bool

    ghost predicate Valid()
      reads this
    {
      Chained(hash, strings, strings.Keys) && Interned(strings) && nuse == |strings| && color.Keys == strings.Keys
    }

    predicate IsDead(x: Id)
      reads this
    {
      x in color && color[x] == White(!cur)
    }

    constructor (size: nat)
      requires size > 0
      ensures Valid() && strings == map[] && !sweeping && |hash| == size
    {
      hash := seq(size, _ => []);
      nuse, strings, color, fixed, cur, sweeping := 0, map[], map[], {}, false, false;
      new;
      ChainedNone(hash, strings);
    }

    /** `luaS_resize`: the same strings in another number of buckets; not while they are swept. */
    method Resize(newsize: nat)
      requires Valid() && newsize > 0
      modifies `hash
      ensures Valid() && if sweeping then hash == old(hash) else |hash| == newsize
    {
      hide Interned, Chained, MovedSoFar;
      if sweeping { return; }
      var newhash := seq(newsize, _ => []);
      ghost var moved: set<Id> := {};
      ChainedNone(newhash, strings);
      ChainedSome(hash, strings, strings.Keys);
      NoneMoved(hash, strings);
      for i := 0 to |hash|
        invariant hash == old(hash) && |newhash| == newsize && Chained(newhash, strings, moved) &&
                  MovedSoFar(moved, hash, strings, i, 0)
      {
        ChainedAt(hash, strings, strings.Keys, i);
        for j := 0 to |hash[i]|
          invariant hash == old(hash) && |newhash| == newsize && Chained(newhash, strings, moved) &&
                    MovedSoFar(moved, hash, strings, i, j)
        {
          MoveOne(moved, hash, strings, i, j);
          var p := hash[i][j];
          ChainedAdd(newhash, strings, moved, p);
          var h1 := Bucket(strings[p].hash, newsize);
          newhash := newhash[h1 := [p] + newhash[h1]];
          moved := moved + {p};
        }
        NextBucket(moved, hash, strings, i);
      }
      AllMoved(moved, hash, strings);
      hash := newhash;
    }

    /** `newlstr`: a new string, in the current white; a crowded table is doubled. */
    method NewString(s: Chars, h: bv32, unused: Id)
      requires Valid() && h == Hash(s) && unused !in strings && !Known(strings, s)
      modifies this
      ensures Valid() && strings == old(strings)[unused := Str(s, Hash(s))] && color == old(color)[unused := White(cur)]
      ensures cur == old(cur) && sweeping == old(sweeping)
      ensures var size, crowded := |old(hash)|, |strings| > |old(hash)| && |old(hash)| < 0x4000_0000;
              |hash| == if crowded && !sweeping then 2 * size else size
    {
      hide Interned, Chained, Known;
      InternedNew(strings, s, unused);
      ChainedWith(hash, strings, strings.Keys, unused, Str(s, h));
      ghost var was := strings;
      strings := strings[unused := Str(s, h)];
      color := color[unused := White(cur)];
      ChainedSome(hash, strings, was.Keys);
      ChainedAdd(hash, strings, was.Keys, unused);
      var b := Bucket(h, |hash|);
      hash := hash[b := [unused] + hash[b]];
      assert strings.Keys == was.Keys + {unused};
      nuse := nuse + 1;
      if nuse > |hash| && |hash| <= MAX_INT / 2 { Resize(|hash| * 2); }
    }

    /** `luaS_newlstr`: the string with these contents, which is never dead. It is the one there is; or, if there is
        none, a new one, which the memory allocator places at `unused`. */
    method Intern(s: Chars, unused: Id) returns (r: Id)
      requires Valid() && unused !in strings
      modifies this
      ensures Valid() && r in strings && strings[r].chars == s && !IsDead(r) && cur == old(cur) &&
              sweeping == old(sweeping)
      ensures Known(old(strings), s) ==> strings == old(strings) && hash == old(hash)
      ensures !Known(old(strings), s) ==> r == unused && strings == old(strings)[unused := Str(s, Hash(s))]
      ensures forall x :: x in old(color) && x != r ==> x in color && color[x] == old(color)[x]
      ensures r in old(color) ==> color[r] == if old(IsDead(r)) then White(cur) else old(color)[r]
    {
      hide Interned, Chained;
      var h := HashOf(s);
      ChainedSome(hash, strings, strings.Keys);
      var chain := hash[Bucket(h, |hash|)];
      ChainedAt(hash, strings, strings.Keys, Bucket(h, |hash|));
      for i := 0 to |chain|
        invariant forall k :: 0 <= k < i ==> strings[chain[k]].chars != s
      {
        var o := chain[i];
        assert o in chain;
        if strings[o].chars == s {
          if IsDead(o) { color := color[o := White(cur)]; }
          return o;
        }
      }
      OnlyThere(hash, strings, s);
      NewString(s, h, unused);
      r := unused;
    }

    /** `sweepwholelist` on one chain of the table. */
    method SweepWholeList(b: nat)
      requires Valid() && b < |hash|
      modifies `hash, `strings, `color, `nuse
      ensures Valid()
      ensures var chain, gone := old(hash)[b], Garbage(old(hash)[b], old(color), cur, fixed);
              hash == old(hash)[b := Remain(chain, gone)] && strings == old(strings) - gone &&
              color == Whitened(old(color), chain, gone, cur)
    {
      hide Interned, Chained, Whitened, Remain;
      ChainedAt(hash, strings, strings.Keys, b);
      ghost var gone := Garbage(hash[b], color, cur, fixed);
      ChainedWithout(hash, strings, b, gone);
      InternedWithout(strings, gone);
      hide Garbage;
      var kept, left, white, n := SweepList(hash[b], strings, color, fixed, cur, nuse);
      hash, strings, color, nuse := hash[b := kept], left, white, n;
    }

    /** An address that is in use is not one the memory allocator gives. */
    method Asked(s: Chars, at: Id) returns (id: Option<Id>)
      requires Valid()
      modifies this
      ensures Valid() && StepOk(Ask(s, at), old(strings), old(DeadIn(color, cur)), id, strings, DeadIn(color, cur))
    {
      hide Interned, Chained, Known, StepOk;
      ghost var was, dead := strings, DeadIn(color, cur);
      if at in strings {
        id := None;
        KeepOk(Ask(s, at), was, dead, dead);
      } else {
        var r := Intern(s, at);
        id := Some(r);
        AskOk(Ask(s, at), was, dead, r, strings, DeadIn(color, cur));
      }
    }

    method Swept(b: nat)
      requires Valid()
      modifies this
      ensures Valid()
      ensures StepOk(SweepChain(b), old(strings), old(DeadIn(color, cur)), None, strings, DeadIn(color, cur))
    {
      hide Interned, Chained, StepOk, Whitened, Remain, DeadIn;
      if sweeping && b < |hash| {
        ghost var gone, chain, white, was := Garbage(hash[b], color, cur, fixed), hash[b], color, strings;
        SweepWholeList(b);
        SweepOk(SweepChain(b), was, gone, white, chain, cur);
      } else {
        KeepOk(SweepChain(b), strings, DeadIn(color, cur), DeadIn(color, cur));
      }
    }

    /** One step. */
    method Take(step: Step) returns (id: Option<Id>)
      requires Valid()
      modifies this
      ensures Valid() && StepOk(step, old(strings), old(DeadIn(color, cur)), id, strings, DeadIn(color, cur))
    {
      hide Interned, Chained, Known, StepOk, DeadIn;
      id := None;
      match step {
        case Ask(s, at) => id := Asked(s, at);
        case SweepChain(b) => Swept(b);
        case SetSize(n) =>
          if n > 0 { Resize(n); }
          KeepOk(step, strings, DeadIn(color, cur), DeadIn(color, cur));
        case Collect(c, f, w, sw) =>
          ghost var dead := DeadIn(color, cur);
          if c.Keys == strings.Keys { color, fixed, cur, sweeping := c, f, w, sw; }
          KeepOk(step, strings, dead, DeadIn(color, cur));
      }
    }

    /** Whatever strings are asked for, however the table is resized and whatever the collector does in between;
        `tables[k]` is what the table holds before step `k`, and `dead[k]` which of these strings are dead. */
    method Run(steps: seq<Step>)
      returns (ids: seq<Option<Id>>, ghost tables: seq<map<Id, Str>>, ghost dead: seq<set<Id>>)
      requires Valid()
      modifies this
      ensures Valid() && Trace(steps, ids, tables, dead) && tables[0] == old(strings) && tables[|steps|] == strings
      ensures forall i, j ::
                0 <= i < j < |steps| && BothGiven(steps, ids, i, j) && Stays(tables, ids[i].value, i + 1, j) ==>
                  (ids[i] == ids[j] <==> steps[i].s == steps[j].s)
    {
      hide Interned, Chained, Known, StepOk;
      ids, tables, dead := [], [strings], [DeadIn(color, cur)];
      for k := 0 to |steps|
        invariant Valid() && |ids| == k && |tables| == |dead| == k + 1 && tables[0] == old(strings)
        invariant tables[k] == strings && dead[k] == DeadIn(color, cur)
        invariant forall i :: 0 <= i < k ==> StepOk(steps[i], tables[i], dead[i], ids[i], tables[i + 1], dead[i + 1])
      {
        var id := Take(steps[k]);
        ids, tables, dead := ids + [id], tables + [strings], dead + [DeadIn(color, cur)];
      }
      assert Trace(steps, ids, tables, dead);
      forall i, j | 0 <= i < j < |steps| && BothGiven(steps, ids, i, j) && Stays(tables, ids[i].value, i + 1, j)
        ensures ids[i] == ids[j] <==> steps[i].s == steps[j].s
      {
        OneObject(steps, ids, tables, dead, i, j);
      }
    }
  }

  /** Strings in both tables are the same in both. */
  ghost predicate Agree(was: map<Id, Str>, now: map<Id, Str>)
  {
    forall x :: x in was && x in now ==> was[x] == now[x]
  }

  ghost predicate Holds(table: map<Id, Str>, x: Id, s: Chars)
  {
    x in table && table[x].chars == s
  }

  /** What a step does to the table: `dead` and `dead'` are the dead strings before and after. */
  ghost predicate StepOk(step: Step, was: map<Id, Str>, dead: set<Id>, id: Option<Id>, now: map<Id, Str>,
                         dead': set<Id>)
  {
    Interned(was) && Interned(now) && Agree(was, now) &&
    (id.Some? <==> step.Ask? && step.at !in was) &&
    (id.Some? ==> Holds(now, id.value, step.s) && id.value !in dead') &&
    (if step.SweepChain? then now.Keys <= was.Keys <= now.Keys + dead
     else now.Keys == was.Keys + if id.Some? && !Known(was, step.s) then {step.at} else {}) &&
    (!step.Collect? ==> dead' <= dead)
  }

  lemma KeepOk(step: Step, was: map<Id, Str>, dead: set<Id>, dead': set<Id>)
    requires Interned(was) && (step.Ask? ==> step.at in was) && (!step.Collect? ==> dead' <= dead)
    ensures StepOk(step, was, dead, None, was, dead')
  {
    hide Interned;
  }

  lemma AskOk(step: Step, was: map<Id, Str>, dead: set<Id>, r: Id, now: map<Id, Str>, dead': set<Id>)
    requires Interned(was) && Interned(now) && step.Ask? && step.at !in was && Holds(now, r, step.s)
    requires now == if Known(was, step.s) then was else was[step.at := Str(step.s, Hash(step.s))]
    requires dead' <= dead && r !in dead'
    ensures StepOk(step, was, dead, Some(r), now, dead')
  {
    hide Interned;
  }

  lemma SweepOk(step: Step, was: map<Id, Str>, gone: set<Id>, color: map<Id, Color>, chain: seq<Id>, cur: bool)
    requires step.SweepChain? && Interned(was) && gone <= DeadIn(color, cur)
    ensures StepOk(step, was, DeadIn(color, cur), None, was - gone, DeadIn(Whitened(color, chain, gone, cur), cur))
  {
    InternedWithout(was, gone);
    hide Interned;
  }

  /** Both steps asked for a string and got one. */
  predicate BothGiven(steps: seq<Step>, ids: seq<Option<Id>>, i: nat, j: nat)
    requires i < |steps| == |ids| && j < |steps|
  {
    steps[i].Ask? && steps[j].Ask? && ids[i].Some? && ids[j].Some?
  }

  ghost predicate Trace(steps: seq<Step>, ids: seq<Option<Id>>, tables: seq<map<Id, Str>>, dead: seq<set<Id>>)
  {
    |ids| == |steps| && |tables| == |dead| == |steps| + 1 &&
    forall k :: 0 <= k < |steps| ==> StepOk(steps[k], tables[k], dead[k], ids[k], tables[k + 1], dead[k + 1])
  }

  ghost predicate Stays(tables: seq<map<Id, Str>>, x: Id, i: nat, j: nat)
    requires j < |tables|
  {
    forall m :: i <= m <= j ==> x in tables[m]
  }

  lemma {:induction false} StaysSame(steps: seq<Step>, ids: seq<Option<Id>>, tables: seq<map<Id, Str>>,
                                     dead: seq<set<Id>>, x: Id, i: nat, j: nat)
    requires Trace(steps, ids, tables, dead) && i <= j < |tables| && Stays(tables, x, i, j)
    ensures tables[j][x] == tables[i][x]
    decreases j
  {
    hide Interned;
    if i < j {
      assert StepOk(steps[j - 1], tables[j - 1], dead[j - 1], ids[j - 1], tables[j], dead[j]);
      StaysSame(steps, ids, tables, dead, x, i, j - 1);
    }
  }

  /** While an object that was given for some contents stays in the table, equal contents give that object and different
      contents another one. */
  lemma OneObject(steps: seq<Step>, ids: seq<Option<Id>>, tables: seq<map<Id, Str>>, dead: seq<set<Id>>, i: nat, j: nat)
    requires Trace(steps, ids, tables, dead) && i < j < |steps| && BothGiven(steps, ids, i, j)
    requires Stays(tables, ids[i].value, i + 1, j)
    ensures ids[i] == ids[j] <==> steps[i].s == steps[j].s
  {
    hide Interned;
    assert StepOk(steps[i], tables[i], dead[i], ids[i], tables[i + 1], dead[i + 1]);
    assert StepOk(steps[j], tables[j], dead[j], ids[j], tables[j + 1], dead[j + 1]);
    StaysSame(steps, ids, tables, dead, ids[i].value, i + 1, j);
    SameObject(tables[j + 1], ids[i].value, ids[j].value);
  }

  /** And it stays there, whatever is swept, at least until the collector changes colours again. */
  lemma {:induction false} GivenStays(steps: seq<Step>, ids: seq<Option<Id>>, tables: seq<map<Id, Str>>,
                                      dead: seq<set<Id>>, i: nat, j: nat)
    requires Trace(steps, ids, tables, dead) && i < j <= |steps| && ids[i].Some?
    requires forall m :: i < m < j ==> !steps[m].Collect?
    ensures Stays(tables, ids[i].value, i + 1, j) && ids[i].value !in dead[j]
    decreases j
  {
    hide Interned;
    assert StepOk(steps[j - 1], tables[j - 1], dead[j - 1], ids[j - 1], tables[j], dead[j]);
    if i + 1 < j { GivenStays(steps, ids, tables, dead, i, j - 1); }
  }

  lemma SameObject(strings: map<Id, Str>, x: Id, y: Id)
    requires Interned(strings) && x in strings && y in strings
    ensures x == y <==> strings[x].chars == strings[y].chars
  {
  }

  lemma ChainedSome(hash: seq<seq<Id>>, strings: map<Id, Str>, all: set<Id>)
    requires Chained(hash, strings, all)
    ensures |hash| > 0
  {
  }
}
