/** When a name can be written into a message, and how long it is there. */
module DnsOutcome {
  import opened Bytes
  import opened DnsName
  import opened DnsWrite

  /** A name and what comes after each of its dots. */
  function Rests(name: seq<Byte>): (r: seq<seq<Byte>>)
    ensures |r| > 0 && r[0] == name
    decreases |name|
  {
    var d := FirstDot(name);
    if d == |name| then [name] else [name] + Rests(name[d + 1..])
  }

  ghost predicate InTable(table: seq<Entry>, name: seq<Byte>)
  {
    exists e :: e in table && e.v == name
  }

  /** The number of the first rest that is in the table, or the number of all rests. */
  ghost function HitAt(name: seq<Byte>, table: seq<Entry>): (h: nat)
    ensures h <= |Rests(name)|
    decreases |name|
  {
    var d := FirstDot(name);
    if InTable(table, name) then 0 else if d == |name| then 1 else 1 + HitAt(name[d + 1..], table)
  }

  /** It is the first one. */
  lemma {:induction false} HitIsFirst(name: seq<Byte>, table: seq<Entry>)
    ensures var h, r := HitAt(name, table), Rests(name);
            (h < |r| ==> InTable(table, r[h])) && forall i :: 0 <= i < h ==> !InTable(table, r[i])
    decreases |name|
  {
    hide FirstDot;
    var d := FirstDot(name);
    if !InTable(table, name) && d < |name| { HitIsFirst(name[d + 1..], table); }
  }

  lemma FoundIff(table: seq<Entry>, name: seq<Byte>)
    ensures Find(table, name) < |table| <==> InTable(table, name)
  {
    if InTable(table, name) {
      var e :| e in table && e.v == name;
      var k :| 0 <= k < |table| && table[k] == e;
      FindIsFirst(table, name, k);
    }
    if Find(table, name) < |table| { assert table[Find(table, name)] in table; }
  }

  /** The longer rests that the name itself has added do not matter to the shorter ones. */
  lemma {:induction false} HitAdd(name: seq<Byte>, table: seq<Entry>, longer: seq<Byte>, pos: nat)
    requires |name| < |longer|
    ensures HitAt(name, Add(table, longer, pos)) == HitAt(name, table)
    decreases |name|
  {
    hide FirstDot;
    assert InTable(Add(table, longer, pos), name) <==> InTable(table, name) by {
      if InTable(table, name) {
        var e :| e in table && e.v == name;
        assert e in Add(table, longer, pos);
      }
    }
    var d := FirstDot(name);
    if d < |name| { HitAdd(name[d + 1..], table, longer, pos); }
  }

  /** The labels before rest `h` are no longer than 63 bytes. */
  ghost predicate ShortBefore(name: seq<Byte>, h: nat)
  {
    forall i :: 0 <= i < h && i < |Rests(name)| ==> FirstDot(Rests(name)[i]) <= 63
  }

  /** The bytes that the labels before rest `h` take, each with its length before it. */
  function Span(name: seq<Byte>, h: nat): nat
    requires h <= |Rests(name)|
  {
    if h < |Rests(name)| then RestFits(name, h); |name| - |Rests(name)[h]| else |name| + 1
  }

  lemma {:induction false} RestFits(name: seq<Byte>, h: nat)
    requires h < |Rests(name)|
    ensures |Rests(name)[h]| <= |name|
    decreases |name|
  {
    if h > 0 { RestFits(name[FirstDot(name) + 1..], h - 1); }
  }

  /** The bytes of the labels before the first rest in the table, and of the pointer to it. */
  ghost function Need(name: seq<Byte>, table: seq<Entry>): nat
  {
    var h := HitAt(name, table);
    if h < |Rests(name)| then Span(name, h) + 2 else |name| + 1
  }

  lemma RestsStep(name: seq<Byte>)
    requires FirstDot(name) < |name|
    ensures var d, r := FirstDot(name), Rests(name);
            |r| == 1 + |Rests(name[d + 1..])| && forall i :: 0 < i < |r| ==> r[i] == Rests(name[d + 1..])[i - 1]
  {
    hide FirstDot;
  }

  lemma ShortStep(name: seq<Byte>, h: nat)
    requires FirstDot(name) < |name| && h > 0
    ensures ShortBefore(name, h) <==> FirstDot(name) <= 63 && ShortBefore(name[FirstDot(name) + 1..], h - 1)
  {
    hide FirstDot, Rests;
    RestsStep(name);
    var r, q := Rests(name), Rests(name[FirstDot(name) + 1..]);
    if ShortBefore(name, h) {
      forall i | 0 <= i < h - 1 && i < |q| ensures FirstDot(q[i]) <= 63 { assert r[i + 1] == q[i]; }
    }
  }

  /** A label of more than 63 bytes is come to: those before it are short and fit. */
  ghost predicate Reached(lim: nat, j: nat, name: seq<Byte>, i: nat)
    requires i < |Rests(name)|
  {
    FirstDot(Rests(name)[i]) > 63 && ShortBefore(name, i) && (i > 0 ==> j + Span(name, i) <= lim)
  }

  ghost predicate TooLongFirst(lim: nat, j: nat, name: seq<Byte>, table: seq<Entry>)
  {
    exists i :: 0 <= i < HitAt(name, table) && Reached(lim, j, name, i)
  }

  /** All of the outcome, but for the limit on the whole name. */
  ghost predicate Outcome(end: int, lim: nat, j: nat, name: seq<Byte>, table: seq<Entry>)
  {
    (end >= 0 <==> ShortBefore(name, HitAt(name, table)) && j + Need(name, table) <= lim) &&
    (end == -1 <==> TooLongFirst(lim, j, name, table)) && end >= -2 &&
    (end >= 0 ==> end == j + Need(name, table) + if HitAt(name, table) == |Rests(name)| && EndsOpen(name) then 1 else 0)
  }

  /** The last byte written is not a zero, so that one is added. */
  predicate EndsOpen(name: seq<Byte>)
  {
    name != [] && name[|name| - 1] != DOT && name[|name| - 1] != 0
  }

  lemma SpanStep(name: seq<Byte>, i: nat)
    requires FirstDot(name) < |name| && 0 < i <= |Rests(name)| && i - 1 <= |Rests(name[FirstDot(name) + 1..])|
    ensures Span(name, i) == FirstDot(name) + 1 + Span(name[FirstDot(name) + 1..], i - 1)
  {
    hide FirstDot, Rests;
    RestsStep(name);
    if i < |Rests(name)| {
      RestFits(name, i);
      RestFits(name[FirstDot(name) + 1..], i - 1);
    }
  }

  lemma HitStep(name: seq<Byte>, table: seq<Entry>)
    requires FirstDot(name) < |name| && !InTable(table, name)
    ensures var rest := name[FirstDot(name) + 1..];
            HitAt(name, table) == 1 + HitAt(rest, table) && |Rests(name)| == 1 + |Rests(rest)| &&
            Need(name, table) == FirstDot(name) + 1 + Need(rest, table)
  {
    hide FirstDot, Rests, InTable, Span;
    RestsStep(name);
    if HitAt(name, table) < |Rests(name)| { SpanStep(name, HitAt(name, table)); }
  }

  lemma ReachedStep(lim: nat, j: nat, name: seq<Byte>, d: nat, rest: seq<Byte>, i: nat)
    requires d == FirstDot(name) < |name| && rest == name[d + 1..] && d <= 63 && j + d + 1 <= lim
    requires 0 < i < |Rests(name)| && i - 1 < |Rests(rest)|
    ensures Reached(lim, j, name, i) <==> Reached(lim, j + 1 + d, rest, i - 1)
  {
    hide FirstDot, Rests, ShortBefore, Span;
    RestsStep(name);
    ShortStep(name, i);
    SpanStep(name, i);
    SpanNone(rest);
  }

  lemma SpanNone(name: seq<Byte>)
    ensures Span(name, 0) == 0
  {
    hide FirstDot;
  }

  lemma TooLongStep(lim: nat, j: nat, name: seq<Byte>, table: seq<Entry>)
    requires FirstDot(name) < |name| && FirstDot(name) <= 63 && j + FirstDot(name) + 1 <= lim && !InTable(table, name)
    ensures var d := FirstDot(name);
            TooLongFirst(lim, j, name, table) <==> TooLongFirst(lim, j + 1 + d, name[d + 1..], table)
  {
    hide FirstDot, Rests, Need, InTable, HitAt, ShortBefore, Span;
    var d := FirstDot(name);
    var rest := name[d + 1..];
    HitStep(name, table);
    RestsFirst(name);
    if TooLongFirst(lim, j, name, table) {
      var i :| 0 <= i < HitAt(name, table) && Reached(lim, j, name, i);
      ReachedStep(lim, j, name, d, rest, i);
    }
    if TooLongFirst(lim, j + 1 + d, rest, table) {
      var i :| 0 <= i < HitAt(rest, table) && Reached(lim, j + 1 + d, rest, i);
      ReachedStep(lim, j, name, d, rest, i + 1);
    }
  }

  lemma OutcomeHit(lim: nat, j: nat, name: seq<Byte>, table: seq<Entry>)
    requires InTable(table, name)
    ensures Outcome(if j + 2 > lim then -2 else j + 2, lim, j, name, table)
  {
    hide FirstDot, InTable;
    SpanNone(name);
  }

  lemma OutcomeLong(lim: nat, j: nat, name: seq<Byte>, table: seq<Entry>)
    requires !InTable(table, name) && FirstDot(name) > 63
    ensures Outcome(-1, lim, j, name, table)
  {
    hide FirstDot, InTable;
    assert Reached(lim, j, name, 0);
  }

  lemma OutcomeFull(lim: nat, j: nat, name: seq<Byte>, table: seq<Entry>)
    requires !InTable(table, name) && FirstDot(name) <= 63 && j + FirstDot(name) + 1 > lim
    ensures Outcome(-2, lim, j, name, table)
  {
    hide FirstDot, InTable, Rests, Span, ShortBefore, Need, HitAt, EndsOpen;
    FullNeed(lim, j, name, table);
    forall i | 0 <= i < HitAt(name, table) ensures !Reached(lim, j, name, i) { FullSpan(name, i); }
  }

  lemma FullNeed(lim: nat, j: nat, name: seq<Byte>, table: seq<Entry>)
    requires !InTable(table, name) && j + FirstDot(name) + 1 > lim
    ensures j + Need(name, table) > lim
  {
    hide FirstDot, InTable;
    if FirstDot(name) < |name| { HitStep(name, table); }
  }

  lemma FullSpan(name: seq<Byte>, i: nat)
    requires i < |Rests(name)|
    ensures if i == 0 then Rests(name)[i] == name else Span(name, i) >= FirstDot(name) + 1
  {
    hide FirstDot, Span;
    if i > 0 {
      RestsStep(name);
      SpanStep(name, i);
    }
  }

  lemma RestsFirst(name: seq<Byte>)
    ensures Rests(name) != [] && Rests(name)[0] == name
  {
    hide FirstDot;
  }

  lemma OutcomeLast(lim: nat, j: nat, name: seq<Byte>, table: seq<Entry>)
    requires !InTable(table, name) && FirstDot(name) == |name| <= 63 && j + |name| + 1 <= lim
    ensures Outcome(j + |name| + 1 + if EndsOpen(name) then 1 else 0, lim, j, name, table)
  {
    hide FirstDot, InTable;
  }

  lemma OutcomeRest(end: int, lim: nat, j: nat, name: seq<Byte>, table: seq<Entry>)
    requires !InTable(table, name) && FirstDot(name) < |name| && FirstDot(name) <= 63 && j + FirstDot(name) + 1 <= lim
    requires Outcome(end, lim, j + 1 + FirstDot(name), name[FirstDot(name) + 1..], Add(table, name, j))
    ensures Outcome(end, lim, j, name, table)
  {
    hide FirstDot, InTable, Rests, Need, HitAt, ShortBefore, TooLongFirst, EndsOpen, Add;
    var d := FirstDot(name);
    var rest := name[d + 1..];
    OpenRest(name);
    SameHits(rest, table, name, j, lim, j + 1 + d);
    HitStep(name, table);
    ShortStep(name, HitAt(name, table));
    TooLongStep(lim, j, name, table);
  }

  lemma OpenRest(name: seq<Byte>)
    requires FirstDot(name) < |name|
    ensures EndsOpen(name) <==> EndsOpen(name[FirstDot(name) + 1..])
  {
    hide FirstDot;
    var rest := name[FirstDot(name) + 1..];
    if rest != [] { assert rest[|rest| - 1] == name[|name| - 1]; }
  }

  lemma SameHits(rest: seq<Byte>, table: seq<Entry>, longer: seq<Byte>, pos: nat, lim: nat, j: nat)
    requires |rest| < |longer|
    ensures var more := Add(table, longer, pos);
            HitAt(rest, more) == HitAt(rest, table) && Need(rest, more) == Need(rest, table) &&
            (TooLongFirst(lim, j, rest, more) <==> TooLongFirst(lim, j, rest, table))
  {
    hide HitAt, Add;
    HitAdd(rest, table, longer, pos);
  }

  lemma {:induction false} WriteOutcome(buf: seq<Byte>, lim: nat, j: nat, name: seq<Byte>, table: seq<Entry>)
    requires lim < |buf|
    ensures Outcome(Write(buf, lim, j, name, table).end, lim, j, name, table)
    decreases |name|
  {
    hide Put, Find, FirstDot, PointerHigh, PointerLow, Write, Outcome, Add, EndsOpen, InTable;
    WriteCases(buf, lim, j, name, table);
    FoundIff(table, name);
    var d := FirstDot(name);
    if InTable(table, name) {
      OutcomeHit(lim, j, name, table);
    } else if d > 63 {
      OutcomeLong(lim, j, name, table);
    } else if j + d + 1 > lim {
      OutcomeFull(lim, j, name, table);
    } else if d < |name| {
      WriteOutcome(Put(buf, j, [d as Byte] + name[..d]), lim, j + 1 + d, name[d + 1..], Add(table, name, j));
      OutcomeRest(Write(buf, lim, j, name, table).end, lim, j, name, table);
    } else {
      OutcomeLast(lim, j, name, table);
      LastByte(buf, j, name);
      LastOpen(name);
      assert name[..d] == name;
    }
  }

  lemma LastOpen(name: seq<Byte>)
    requires FirstDot(name) == |name|
    ensures EndsOpen(name) <==> name != [] && name[|name| - 1] != 0
  {
    NotDot(name);
  }

  /** A name is written if and only if it has at most 255 bytes, its labels before the first rest that is in the table
      have at most 63 bytes each, and they fit, with their lengths and the pointer; then it takes just that much, and
      one byte more for a final zero that is not there yet.  It is refused with -1 for a long label that is come to, and
      with -2 otherwise. */
  lemma NameOutcome(buf: seq<Byte>, lim: nat, j: nat, name: seq<Byte>, table: seq<Entry>)
    requires lim < |buf|
    ensures var end, h, n := WriteName(buf, lim, j, name, table).end, HitAt(name, table), |Rests(name)|;
            (end >= 0 <==>
               |name| <= 255 && (forall i :: 0 <= i < h ==> FirstDot(Rests(name)[i]) <= 63) &&
               j + (if h < n then |name| - |Rests(name)[h]| + 2 else |name| + 1) <= lim) &&
            (end >= 0 ==>
               end == j + if h < n then |name| - |Rests(name)[h]| + 2 else |name| + if EndsOpen(name) then 2 else 1) &&
            (end == -1 <==> |name| <= 255 && TooLongFirst(lim, j, name, table)) && end >= -2
  {
    WriteOutcome(buf, lim, j, name, table);
    hide Write, FirstDot, InTable, EndsOpen, TooLongFirst;
    hide Rests;
  }

  // ----- compression -----

  lemma {:induction false} TableGrows(buf: seq<Byte>, lim: nat, j: nat, name: seq<Byte>, table: seq<Entry>)
    requires lim < |buf|
    ensures table <= Write(buf, lim, j, name, table).table
    decreases |name|
  {
    hide Put, Find, FirstDot, PointerHigh, PointerLow, Write;
    WriteCases(buf, lim, j, name, table);
    var d := FirstDot(name);
    if Find(table, name) == |table| && d <= 63 && j + d + 1 <= lim && d < |name| {
      TableGrows(Put(buf, j, [d as Byte] + name[..d]), lim, j + 1 + d, name[d + 1..], Add(table, name, j));
    }
  }

  /** Unless the table already has 128 entries, a name that was written is in it. */
  lemma WrittenIsKnown(buf: seq<Byte>, lim: nat, j: nat, name: seq<Byte>, table: seq<Entry>)
    requires lim < |buf| && WriteName(buf, lim, j, name, table).end >= 0 && |table| < 128
    ensures InTable(WriteName(buf, lim, j, name, table).table, name)
  {
    hide Put, Find, FirstDot, PointerHigh, PointerLow, Write;
    WriteCases(buf, lim, j, name, table);
    FoundIff(table, name);
    var d, now := FirstDot(name), Write(buf, lim, j, name, table).table;
    if Find(table, name) == |table| {
      if d < |name| {
        TableGrows(Put(buf, j, [d as Byte] + name[..d]), lim, j + 1 + d, name[d + 1..], Add(table, name, j));
      }
      assert Entry(name, j) in Add(table, name, j) && Add(table, name, j) <= now;
      assert Entry(name, j) in now;
    }
  }

  /** So, written again, it takes the two bytes of a pointer. */
  lemma SecondTime(buf: seq<Byte>, lim: nat, j: nat, name: seq<Byte>, table: seq<Entry>, j2: nat)
    requires lim < |buf| && WriteName(buf, lim, j, name, table).end >= 0 && |table| < 128 && j2 + 2 <= lim
    ensures var w := WriteName(buf, lim, j, name, table); WriteName(w.buf, lim, j2, name, w.table).end == j2 + 2
  {
    hide Write, FirstDot, Rests, InTable;
    var w := WriteName(buf, lim, j, name, table);
    WrittenIsKnown(buf, lim, j, name, table);
    NameOutcome(w.buf, lim, j2, name, w.table);
    NameOutcome(buf, lim, j, name, table);
  }
}
