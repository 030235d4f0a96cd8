/** Writing names into a DNS message, with pointers to suffixes that were written before. */
module DnsWrite {
  import opened Bytes
  import opened DnsName
  import opened Options

  const MAX_LABELS := 128
  const MAX_NAME := 255

  datatype Entry = Entry(v: seq<Byte>, pos: nat)

  // ----- names as text -----

  /** The position of the first dot, or the length. */
  function FirstDot(name: seq<Byte>): (d: nat)
    ensures d <= |name| && (d < |name| ==> name[d] == 46)
  {
    if name == [] || name[0] == DOT then 0 else 1 + FirstDot(name[1..])
  }

  /** No dot is before the first one. */
  lemma {:induction false} FirstDotIsFirst(name: seq<Byte>, i: nat)
    requires i < FirstDot(name)
    ensures name[i] != DOT
    decreases |name|
  {
    if i > 0 {
      assert FirstDot(name) == 1 + FirstDot(name[1..]) && name[i] == name[1..][i - 1];
      FirstDotIsFirst(name[1..], i - 1);
    }
  }

  /** The labels of a name; a dot at the end adds none. */
  function LabelsOf(name: seq<Byte>): seq<Label>
    decreases |name|
  {
    if name == [] then []
    else if FirstDot(name) == |name| then [name]
    else [name[..FirstDot(name)]] + LabelsOf(name[FirstDot(name) + 1..])
  }

  /** Labels of 1 to 63 bytes, none of them zero. */
  predicate Legal(name: seq<Byte>)
    decreases |name|
  {
    var d := FirstDot(name);
    (forall i :: 0 <= i < |name| ==> name[i] != 0) &&
    (name != [] ==> 1 <= d <= MAX_LABEL && (d < |name| ==> Legal(name[d + 1..])))
  }

  /** The text of a name without a dot at its end. */
  function Undotted(name: seq<Byte>): seq<Byte>
  {
    if name != [] && name[|name| - 1] == DOT then name[..|name| - 1] else name
  }

  /** Joining the labels gives the name back, but for a dot at its end. */
  lemma {:induction false} JoinLabels(name: seq<Byte>)
    requires Legal(name)
    ensures Join(LabelsOf(name)) == Undotted(name)
    decreases |name|
  {
    hide FirstDot, Join;
    var d := FirstDot(name);
    if name == [] {
      JoinCons([], []);
    } else if d == |name| {
      FirstDotIsFirst(name, |name| - 1);
      JoinCons(name, []);
      assert [name] + [] == [name];
    } else {
      var rest := name[d + 1..];
      LabelsSplit(name);
      hide LabelsOf;
      JoinLabels(rest);
      JoinCons(name[..d], LabelsOf(rest));
      LabelsSome(rest);
      assert name == name[..d] + [DOT] + rest;
      UndottedCons(name[..d], rest);
    }
  }

  lemma JoinCons(word: Label, rest: seq<Label>)
    ensures Join([]) == [] && Join([word] + rest) == if rest == [] then word else word + [DOT] + Join(rest)
  {
    assert ([word] + rest)[1..] == rest;
  }

  lemma LabelsSome(name: seq<Byte>)
    ensures LabelsOf(name) == [] <==> name == []
  {
    hide FirstDot;
  }

  lemma UndottedCons(word: Label, rest: seq<Byte>)
    ensures Undotted(word + [DOT] + rest) == if rest == [] then word else word + [DOT] + Undotted(rest)
  {
    var name := word + [DOT] + rest;
    if rest == [] {
      assert name[..|name| - 1] == word;
    } else if rest[|rest| - 1] == DOT {
      assert name[..|name| - 1] == word + [DOT] + rest[..|rest| - 1];
    }
  }

  /** The labels of a name with a dot in it. */
  lemma LabelsSplit(name: seq<Byte>)
    requires FirstDot(name) < |name|
    ensures LabelsOf(name) == [name[..FirstDot(name)]] + LabelsOf(name[FirstDot(name) + 1..])
  {
    hide FirstDot;
  }

  // ----- the table of suffixes -----

  function Find(table: seq<Entry>, name: seq<Byte>): (i: nat)
    ensures i <= |table| && (i < |table| ==> table[i].v == name)
  {
    if table == [] || table[0].v == name then 0 else 1 + Find(table[1..], name)
  }

  /** The entry found is the first one for the name. */
  lemma {:induction false} FindIsFirst(table: seq<Entry>, name: seq<Byte>, k: nat)
    requires k < |table| && table[k].v == name
    ensures Find(table, name) <= k
    decreases |table|
  {
    if table[0].v != name { FindIsFirst(table[1..], name, k - 1); }
  }

  function Add(table: seq<Entry>, name: seq<Byte>, pos: nat): seq<Entry>
  {
    if |table| >= MAX_LABELS then table else table + [Entry(name, pos)]
  }

  /** `struct dnslabel_table`. */
  class LabelTable {
    var labels: seq<Entry>

    constructor ()
      ensures labels == []
    {
      labels := [];
    }

    /** `dnslabel_table_get_pos`. */
    method GetPos(name: seq<Byte>) returns (pos: int)
      ensures var i := Find(labels, name); pos == if i < |labels| then labels[i].pos else -1
    {
      ghost var at := Find(labels, name);
      for i := 0 to |labels|
        invariant i <= at
      {
        if labels[i].v == name {
          FindIsFirst(labels, name, i);
          return labels[i].pos;
        }
      }
      return -1;
    }

    /** `dnslabel_table_add`. */
    method AddLabel(name: seq<Byte>, pos: nat)
      modifies this
      ensures labels == Add(old(labels), name, pos)
      ensures labels == old(labels) + if |old(labels)| < 128 then [Entry(name, pos)] else []
    {
      if |labels| < MAX_LABELS {
        labels := labels + [Entry(name, pos)];
      }
    }
  }

  // ----- dnsname_to_labels -----

  /** The result of writing: the position after the name or a negative error, the message, and the table. */
  datatype Written = Written(end: int, buf: seq<Byte>, table: seq<Entry>)

  /** `ref | 0xc000` in sixteen bits. */
  function PointerHigh(ref: nat): Byte
  {
    192 + ref % POINTER_LIMIT / 256
  }

  function PointerLow(ref: nat): Byte
  {
    ref % 256
  }

  /** A pointer leads to the position it was made for exactly when that is below 0x4000. */
  lemma PointerLeads(ref: nat)
    ensures PointerHigh(ref) >= 192 && Target(PointerHigh(ref), PointerLow(ref)) == ref % POINTER_LIMIT
    ensures Target(PointerHigh(ref), PointerLow(ref)) == ref <==> ref < 0x4000
  {
    var r := ref % POINTER_LIMIT;
    assert r % 256 == ref % 256;
    assert r == r / 256 * 256 + r % 256 && r / 256 < 64;
  }

  function Put(buf: seq<Byte>, j: nat, bytes: seq<Byte>): (r: seq<Byte>)
    requires j + |bytes| <= |buf|
    ensures |r| == |buf| && r[..j] == buf[..j] && r[j..j + |bytes|] == bytes
  {
    buf[..j] + bytes + buf[j + |bytes|..]
  }

  /** Write the rest `name` of a name at `j`, in a buffer of which `lim` bytes may be used.  The final zero is not
      counted, so there is room for one byte more. */
  function Write(buf: seq<Byte>, lim: nat, j: nat, name: seq<Byte>, table: seq<Entry>): (w: Written)
    requires lim < |buf|
    ensures |w.buf| == |buf| && w.end <= lim + 1 && (w.end < 0 || j < w.end)
    decreases |name|
  {
    var hit := Find(table, name);
    if hit < |table| then
      var ref := table[hit].pos;
      if j + 2 > lim then Written(-2, buf, table)
      else Written(j + 2, Put(buf, j, [PointerHigh(ref), PointerLow(ref)]), table)
    else
      var d := FirstDot(name);
      if d > MAX_LABEL then Written(-1, buf, table)
      else if j + d + 1 > lim then Written(-2, buf, table)
      else
        var buf1 := Put(buf, j, [d as Byte] + name[..d]);
        var j1 := j + 1 + d;
        if d == |name| then
          if buf1[j1 - 1] != 0 then Written(j1 + 1, Put(buf1, j1, [0]), Add(table, name, j))
          else Written(j1, buf1, Add(table, name, j))
        else
          Write(buf1, lim, j1, name[d + 1..], Add(table, name, j))
  }

  /** `dnsname_to_labels` on values. */
  function WriteName(buf: seq<Byte>, lim: nat, j: nat, name: seq<Byte>, table: seq<Entry>): (w: Written)
    requires lim < |buf|
    ensures |w.buf| == |buf| && w.end <= lim + 1 && (w.end < 0 || j < w.end)
  {
    if |name| > MAX_NAME then Written(-2, buf, table) else Write(buf, lim, j, name, table)
  }

  method PutBytes(buf: array<Byte>, j: nat, bytes: seq<Byte>)
    requires j + |bytes| <= buf.Length
    modifies buf
    ensures buf[..] == Put(old(buf[..]), j, bytes)
  {
    ghost var was := buf[..];
    for i := 0 to |bytes|
      invariant buf[..] == was[..j] + bytes[..i] + was[j + i..]
    {
      buf[j + i] := bytes[i];
    }
  }

  /** `dnsname_to_labels`, for a buffer that may be no longer than the limit.  The final zero is not compared with the
      limit: `past` tells whether it was written there, and `after` is the byte of memory behind the buffer. */
  method DnsnameToLabels(buf: array<Byte>, after: Byte, lim: nat, j0: nat, name0: seq<Byte>, table: LabelTable)
    returns (r: int, after': Byte, past: bool)
    requires lim <= buf.Length
    modifies buf, table
    ensures var w := WriteName(old(buf[..]) + [after], lim, j0, name0, old(table.labels));
            r == w.end && buf[..] + [after'] == w.buf && table.labels == w.table
    ensures past <==> RunsPast(lim, j0, name0, old(table.labels))
    ensures (past <==> r == lim + 1) && (!past || lim < buf.Length ==> after' == after)
  {
    PastIff(buf[..] + [after], lim, j0, name0, table.labels);
    after', past := after, false;
    if |name0| > MAX_NAME { return -2, after, false; }
    hide Write, Put, FirstDot, Find, PointerHigh, PointerLow, Add, RunsPast;
    ghost var goal := Write(buf[..] + [after], lim, j0, name0, table.labels);
    var j: nat, name, more := j0, name0, true;
    r := -2;
    while more
      invariant if more then goal == Write(buf[..] + [after'], lim, j, name, table.labels)
                else goal == Written(r, buf[..] + [after'], table.labels)
      invariant if more then !past else past <==> r == lim + 1
      invariant !past || lim < buf.Length ==> after' == after
      decreases more, |name|
    {
      more, r, j, name, after', past := WriteStep(buf, after', lim, j, name, table);
    }
  }

  /** One turn of the loop of `dnsname_to_labels`: a pointer, or a label and what follows it. */
  method WriteStep(buf: array<Byte>, after: Byte, lim: nat, j: nat, name: seq<Byte>, table: LabelTable)
    returns (more: bool, r: int, j': nat, name': seq<Byte>, after': Byte, past: bool)
    requires lim <= buf.Length
    modifies buf, table
    ensures var w := Write(old(buf[..]) + [after], lim, j, name, old(table.labels));
            if more then w == Write(buf[..] + [after'], lim, j', name', table.labels) && |name'| < |name|
            else w == Written(r, buf[..] + [after'], table.labels)
    ensures if more then !past else past <==> r == lim + 1
    ensures !past || lim < buf.Length ==> after' == after
  {
    hide Write, Put, FirstDot, Find, PointerHigh, PointerLow, Add;
    ghost var mem := buf[..] + [after];
    WriteCases(mem, lim, j, name, table.labels);
    more, r, j', name', after', past := false, -2, j, name, after, false;
    var ref := table.GetPos(name);
    if ref >= 0 {
      if j + 2 <= lim {
        PutInside(buf[..], after, j, [PointerHigh(ref), PointerLow(ref)]);
        PutBytes(buf, j, [PointerHigh(ref), PointerLow(ref)]);
        r := j + 2;
      }
      return;
    }
    var d := FirstDot(name);
    if d > MAX_LABEL {
      r := -1;
    } else if j + d + 1 <= lim {
      table.AddLabel(name, j);
      PutInside(buf[..], after, j, [d as Byte] + name[..d]);
      PutBytes(buf, j, [d as Byte] + name[..d]);
      j' := j + 1 + d;
      r := j';
      if d < |name| {
        more, name' := true, name[d + 1..];
      } else if buf[j' - 1] != 0 {
        after', past := EndName(buf, after, lim, j');
        r := j' + 1;
      }
    }
  }

  /** The final zero, wherever it falls. */
  method EndName(buf: array<Byte>, after: Byte, lim: nat, j: nat) returns (after': Byte, past: bool)
    requires j <= lim <= buf.Length
    modifies buf
    ensures buf[..] + [after'] == Put(old(buf[..]) + [after], j, [0])
    ensures (past <==> j == lim) && (!past || lim < buf.Length ==> after' == after)
  {
    after', past := after, j == lim;
    if j < buf.Length {
      PutInside(buf[..], after, j, [0]);
      PutBytes(buf, j, [0]);
    } else {
      assert Put(buf[..] + [after], j, [0]) == buf[..] + [0];
      after' := 0;
    }
  }

  /** Bytes that fit into the buffer leave the memory behind it alone. */
  lemma PutInside(buf: seq<Byte>, after: Byte, j: nat, bytes: seq<Byte>)
    requires j + |bytes| <= |buf|
    ensures Put(buf + [after], j, bytes) == Put(buf, j, bytes) + [after]
  {
  }

  // ----- a final zero behind the buffer -----

  /** No suffix of the name is in the table. */
  predicate NoHit(name: seq<Byte>, table: seq<Entry>)
    decreases |name|
  {
    var d := FirstDot(name);
    Find(table, name) == |table| && (d < |name| ==> NoHit(name[d + 1..], table))
  }

  predicate ShortLabels(name: seq<Byte>)
    decreases |name|
  {
    var d := FirstDot(name);
    d <= MAX_LABEL && (d < |name| ==> ShortLabels(name[d + 1..]))
  }

  /** The name is written in full, its labels fill the buffer to the limit, and it needs a zero behind them. */
  predicate FillsUp(lim: nat, j: nat, name: seq<Byte>, table: seq<Entry>)
  {
    j + |name| + 1 == lim && name != [] && name[|name| - 1] != DOT && name[|name| - 1] != 0 &&
    ShortLabels(name) && NoHit(name, table)
  }

  predicate RunsPast(lim: nat, j: nat, name: seq<Byte>, table: seq<Entry>)
  {
    |name| <= MAX_NAME && FillsUp(lim, j, name, table)
  }

  lemma {:induction false} FindAppend(table: seq<Entry>, e: Entry, name: seq<Byte>)
    requires e.v != name
    ensures Find(table + [e], name) == |table| + 1 <==> Find(table, name) == |table|
    decreases |table|
  {
    if table == [] {
      assert ([] + [e])[1..] == [];
    } else if table[0].v != name {
      assert (table + [e])[0] == table[0] && (table + [e])[1..] == table[1..] + [e];
      FindAppend(table[1..], e, name);
    } else {
      assert (table + [e])[0] == table[0];
    }
  }

  /** The longer suffixes that the name itself has added do not matter to the rest. */
  lemma {:induction false} NoHitAdd(name: seq<Byte>, table: seq<Entry>, longer: seq<Byte>, pos: nat)
    requires |name| < |longer|
    ensures NoHit(name, Add(table, longer, pos)) <==> NoHit(name, table)
    decreases |name|
  {
    hide Find, FirstDot;
    FindAppend(table, Entry(longer, pos), name);
    var d := FirstDot(name);
    if d < |name| { NoHitAdd(name[d + 1..], table, longer, pos); }
  }

  /** A name fills the buffer exactly when the rest of it does, behind its first label. */
  lemma FillsRest(lim: nat, j: nat, name: seq<Byte>, table: seq<Entry>)
    requires FirstDot(name) < |name| && FirstDot(name) <= MAX_LABEL && Find(table, name) == |table|
    ensures var d := FirstDot(name);
            FillsUp(lim, j, name, table) <==> FillsUp(lim, j + 1 + d, name[d + 1..], Add(table, name, j))
  {
    hide Find, FirstDot, Add;
    var rest := name[FirstDot(name) + 1..];
    NoHitAdd(rest, table, name, j);
    assert rest != [] ==> rest[|rest| - 1] == name[|name| - 1];
    assert rest == [] ==> name[|name| - 1] == DOT;
  }

  lemma FillsLast(lim: nat, j: nat, name: seq<Byte>, table: seq<Entry>)
    requires FirstDot(name) == |name| <= MAX_LABEL && Find(table, name) == |table|
    ensures FillsUp(lim, j, name, table) <==> j + |name| + 1 == lim && name != [] && name[|name| - 1] != 0
  {
    NotDot(name);
    hide Find, FirstDot;
  }

  lemma FillsNot(lim: nat, j: nat, name: seq<Byte>, table: seq<Entry>)
    requires Find(table, name) < |table| || FirstDot(name) > MAX_LABEL || j + FirstDot(name) + 1 > lim
    ensures !FillsUp(lim, j, name, table)
  {
    hide Find, FirstDot;
  }

  lemma {:induction false} WritePast(buf: seq<Byte>, lim: nat, j: nat, name: seq<Byte>, table: seq<Entry>)
    requires lim < |buf|
    ensures Write(buf, lim, j, name, table).end == lim + 1 <==> FillsUp(lim, j, name, table)
    decreases |name|
  {
    hide Put, Find, FirstDot, PointerHigh, PointerLow, Write, FillsUp, Add;
    WriteCases(buf, lim, j, name, table);
    var d := FirstDot(name);
    if Find(table, name) < |table| || d > MAX_LABEL || j + d + 1 > lim {
      FillsNot(lim, j, name, table);
    } else if d < |name| {
      FillsRest(lim, j, name, table);
      WritePast(Put(buf, j, [d as Byte] + name[..d]), lim, j + 1 + d, name[d + 1..], Add(table, name, j));
    } else {
      FillsLast(lim, j, name, table);
      LastByte(buf, j, name);
      assert name[..d] == name;
    }
  }

  lemma LastByte(buf: seq<Byte>, j: nat, name: seq<Byte>)
    requires j + 1 + |name| <= |buf| && |name| <= MAX_LABEL
    ensures var b := Put(buf, j, [|name| as Byte] + name);
            b[j + |name|] == if name == [] then 0 else name[|name| - 1]
  {
    LabelAt(buf, j, name);
    var b := Put(buf, j, [|name| as Byte] + name);
    assert name != [] ==> b[j + |name|] == b[j + 1..j + 1 + |name|][|name| - 1];
    hide Put;
  }

  lemma NotDot(name: seq<Byte>)
    requires FirstDot(name) == |name|
    ensures name != [] ==> name[|name| - 1] != DOT
  {
    if name != [] { FirstDotIsFirst(name, |name| - 1); }
  }

  /** The final zero is written behind the limit if and only if a name that is written in full fills the buffer. */
  lemma PastIff(buf: seq<Byte>, lim: nat, j: nat, name: seq<Byte>, table: seq<Entry>)
    requires lim < |buf|
    ensures WriteName(buf, lim, j, name, table).end == lim + 1 <==> RunsPast(lim, j, name, table)
  {
    hide Write;
    WritePast(buf, lim, j, name, table);
  }

  /** The name "a" in a buffer of two bytes: three are written. */
  lemma ShortBuffer(after: Byte)
    ensures var w := WriteName([0, 0, after], 2, 0, [97], []); w.end == 3 && w.buf == [1, 97, 0]
  {
    var buf: seq<Byte>, a: seq<Byte> := [0, 0, after], [97];
    assert FirstDot(a) == 1 && a[..1] == a;
    assert Put(buf, 0, [1] + a) == [1, 97, after];
    assert Put([1, 97, after], 2, [0]) == [1, 97, 0];
  }

  /** The ways in which a name goes on. */
  lemma WriteCases(buf: seq<Byte>, lim: nat, j: nat, name: seq<Byte>, table: seq<Entry>)
    requires lim < |buf|
    ensures var hit, d, w := Find(table, name), FirstDot(name), Write(buf, lim, j, name, table);
            if hit < |table| then
              if j + 2 > lim then w == Written(-2, buf, table)
              else w == Written(j + 2, Put(buf, j, [PointerHigh(table[hit].pos), PointerLow(table[hit].pos)]), table)
            else if d > MAX_LABEL then w == Written(-1, buf, table)
            else if j + d + 1 > lim then w == Written(-2, buf, table)
            else
              var buf1, table1 := Put(buf, j, [d as Byte] + name[..d]), Add(table, name, j);
              if d < |name| then w == Write(buf1, lim, j + 1 + d, name[d + 1..], table1)
              else if buf1[j + d] != 0 then w == Written(j + d + 2, Put(buf1, j + 1 + d, [0]), table1)
              else w == Written(j + d + 1, buf1, table1)
  {
    hide FirstDot, Find, Put, PointerHigh, PointerLow;
  }

  /** The entry that ends the name with a pointer, if there is one, lies where a pointer can lead. */
  predicate NearHit(j: nat, name: seq<Byte>, table: seq<Entry>)
    decreases |name|
  {
    var hit, d := Find(table, name), FirstDot(name);
    if hit < |table| then table[hit].pos < POINTER_LIMIT
    else d < |name| ==> NearHit(j + 1 + d, name[d + 1..], Add(table, name, j))
  }

  // ----- what has been written -----

  /** A name whose pointers all lead to names that end before the pointer. */
  predicate Encoded(p: seq<Byte>, length: nat, pos: nat, labels: seq<Label>, hops: nat)
    requires length <= |p|
    decreases hops, |labels|
  {
    pos < length &&
    if p[pos] == 0 then labels == [] && hops == 0
    else if p[pos] >= 64 then
      pos + 1 < length && hops > 0 &&
      var t := Target(p[pos], p[pos + 1]);
      t < pos && EndOf(p, length, t) <= pos && Encoded(p, length, t, labels, hops - 1)
    else
      var next := pos + 1 + p[pos];
      next < length && labels != [] && labels[0] == p[pos + 1..next] && Encoded(p, length, next, labels[1..], hops)
  }

  lemma {:induction false} EncodedIsNamed(p: seq<Byte>, length: nat, pos: nat, labels: seq<Label>, hops: nat)
    requires length <= |p| && Encoded(p, length, pos, labels, hops)
    ensures Named(p, length, pos, labels, hops) && pos < EndOf(p, length, pos) <= length &&
            2 * hops <= EndOf(p, length, pos)
    decreases hops, |labels|
  {
    if p[pos] >= 64 {
      EncodedIsNamed(p, length, Target(p[pos], p[pos + 1]), labels, hops - 1);
    } else if p[pos] > 0 {
      EncodedIsNamed(p, length, pos + 1 + p[pos], labels[1..], hops);
    }
  }

  /** What comes after a name does not matter to it. */
  lemma {:induction false} EncodedStays(p: seq<Byte>, length: nat, p': seq<Byte>, length': nat, q: nat, pos: nat,
                                        labels: seq<Label>, hops: nat)
    requires length <= |p| && length' <= |p'| && q <= length && q <= length' && p'[..q] == p[..q]
    requires Encoded(p, length, pos, labels, hops) && EndOf(p, length, pos) <= q
    ensures Encoded(p', length', pos, labels, hops) && EndOf(p', length', pos) == EndOf(p, length, pos)
    decreases hops, |labels|
  {
    EncodedIsNamed(p, length, pos, labels, hops);
    assert p'[pos] == p'[..q][pos] == p[..q][pos] == p[pos];
    if p[pos] >= 64 {
      assert p'[pos + 1] == p'[..q][pos + 1] == p[..q][pos + 1] == p[pos + 1];
      EncodedStays(p, length, p', length', q, Target(p[pos], p[pos + 1]), labels, hops - 1);
    } else if p[pos] > 0 {
      var next := pos + 1 + p[pos];
      EncodedIsNamed(p, length, next, labels[1..], hops);
      assert p'[..q][pos + 1..next] == p'[pos + 1..next] && p[..q][pos + 1..next] == p[pos + 1..next];
      EncodedStays(p, length, p', length', q, next, labels[1..], hops);
    }
  }

  /** The name `v` stands at `pos`, ending at `q` or before. */
  ghost predicate Stands(p: seq<Byte>, v: seq<Byte>, pos: nat, q: nat)
  {
    EndOf(p, |p|, pos) <= q <= |p| && exists hops: nat :: Encoded(p, |p|, pos, LabelsOf(v), hops)
  }

  lemma StandsStays(p: seq<Byte>, p': seq<Byte>, v: seq<Byte>, pos: nat, q: nat, j: nat)
    requires Stands(p, v, pos, q) && q <= j <= |p| == |p'| && p'[..j] == p[..j]
    ensures Stands(p', v, pos, q) && EndOf(p', |p'|, pos) == EndOf(p, |p|, pos)
  {
    var hops: nat :| Encoded(p, |p|, pos, LabelsOf(v), hops);
    assert p'[..q] == p'[..j][..q] == p[..j][..q] == p[..q];
    EncodedStays(p, |p|, p', |p'|, q, pos, LabelsOf(v), hops);
  }

  ghost predicate EntryOk(p: seq<Byte>, e: Entry, q: nat)
  {
    Stands(p, e.v, e.pos, q)
  }

  /** Every entry for a suffix no longer than this one stands in the message already. */
  ghost predicate TableOk(p: seq<Byte>, table: seq<Entry>, n: nat, q: nat)
  {
    forall i :: 0 <= i < |table| ==> |table[i].v| > n || EntryOk(p, table[i], q)
  }

  lemma TableStays(p: seq<Byte>, p': seq<Byte>, table: seq<Entry>, n: nat, n': nat, q: nat, j: nat)
    requires TableOk(p, table, n, q) && q <= j <= |p| == |p'| && p'[..j] == p[..j] && n' <= n
    ensures TableOk(p', table, n', q)
  {
    forall i | 0 <= i < |table| ensures |table[i].v| > n' || EntryOk(p', table[i], q) {
      if |table[i].v| <= n { StandsStays(p, p', table[i].v, table[i].pos, q, j); }
    }
  }

  /** What `Write` leaves: the name at `j`, what was before it, and entries that stand. */
  ghost predicate Good(buf: seq<Byte>, lim: nat, j: nat, name: seq<Byte>, table: seq<Entry>, w: Written)
  {
    j < w.end <= lim + 1 <= |buf| == |w.buf| && w.buf[..j] == buf[..j] && table <= w.table &&
    Stands(w.buf, name, j, w.end) && EndOf(w.buf, |w.buf|, j) == w.end &&
    forall i :: |table| <= i < |w.table| ==> EntryOk(w.buf, w.table[i], w.end)
  }

  lemma WritePointer(buf: seq<Byte>, lim: nat, j: nat, name: seq<Byte>, table: seq<Entry>, q: nat)
    requires lim < |buf| && q <= j && TableOk(buf, table, |name|, q)
    requires Find(table, name) < |table| && table[Find(table, name)].pos < POINTER_LIMIT && j + 2 <= lim
    ensures Good(buf, lim, j, name, table, Write(buf, lim, j, name, table))
  {
    var w, e := Write(buf, lim, j, name, table), table[Find(table, name)];
    assert EntryOk(buf, e, q);
    var hops: nat :| Encoded(buf, |buf|, e.pos, LabelsOf(name), hops);
    EncodedIsNamed(buf, |buf|, e.pos, LabelsOf(name), hops);
    EncodedStays(buf, |buf|, w.buf, |buf|, j, e.pos, LabelsOf(name), hops);
    PointerLeads(e.pos);
    assert w.buf[j..j + 2][0] == w.buf[j] && w.buf[j..j + 2][1] == w.buf[j + 1];
    assert Encoded(w.buf, |buf|, j, LabelsOf(name), hops + 1);
  }

  lemma LabelAt(buf: seq<Byte>, j: nat, word: Label)
    requires j + 1 + |word| <= |buf| && |word| <= MAX_LABEL
    ensures var b := Put(buf, j, [|word| as Byte] + word); b[j] == |word| && b[j + 1..j + 1 + |word|] == word
  {
    var b, bytes := Put(buf, j, [|word| as Byte] + word), [|word| as Byte] + word;
    assert b[j..j + |bytes|] == bytes;
    assert b[j] == b[j..j + |bytes|][0];
    assert b[j + 1..j + |bytes|] == b[j..j + |bytes|][1..] == word;
  }

  /** A label before a name that stands makes a name that stands. */
  lemma LabelBefore(p: seq<Byte>, j: nat, word: Label, rest: seq<Label>, hops: nat)
    requires j + 1 + |word| < |p| && 1 <= |word| <= MAX_LABEL && p[j] == |word| && p[j + 1..j + 1 + |word|] == word
    requires Encoded(p, |p|, j + 1 + |word|, rest, hops)
    ensures Encoded(p, |p|, j, [word] + rest, hops) && EndOf(p, |p|, j) == EndOf(p, |p|, j + 1 + |word|)
  {
    assert ([word] + rest)[1..] == rest;
  }

  lemma WriteLast(buf: seq<Byte>, lim: nat, j: nat, name: seq<Byte>, table: seq<Entry>)
    requires lim < |buf| && Legal(name) && Find(table, name) == |table| && FirstDot(name) == |name|
    requires Write(buf, lim, j, name, table).end >= 0
    ensures Good(buf, lim, j, name, table, Write(buf, lim, j, name, table))
  {
    hide Put, Find, FirstDot, Good, Add;
    var w, d := Write(buf, lim, j, name, table), |name|;
    WriteCases(buf, lim, j, name, table);
    assert name[..d] == name;
    if d == 0 {
      LastEmpty(buf, lim, j, table);
    } else {
      LegalRest(name);
      LastLabel(buf, lim, j, name, table);
    }
  }

  lemma LastEmpty(buf: seq<Byte>, lim: nat, j: nat, table: seq<Entry>)
    requires j + 1 <= lim < |buf|
    ensures var buf1 := Put(buf, j, [0] + []);
            buf1[j] == 0 && Good(buf, lim, j, [], table, Written(j + 1, buf1, Add(table, [], j)))
  {
    var buf1 := Put(buf, j, [0] + []);
    assert [0] + [] == [0];
    assert buf1[j] == buf1[j..j + 1][0];
    assert Encoded(buf1, |buf|, j, LabelsOf([]), 0);
  }

  lemma LastBytes(buf: seq<Byte>, j: nat, name: seq<Byte>)
    requires 1 <= |name| <= MAX_LABEL && j + 1 + |name| < |buf|
    ensures var j1, buf1 := j + 1 + |name|, Put(buf, j, [|name| as Byte] + name);
            var p := Put(buf1, j1, [0]);
            buf1[j1 - 1] == name[|name| - 1] && p[..j] == buf[..j] && p[j] == |name| && p[j + 1..j1] == name &&
            p[j1] == 0
  {
    var j1, buf1 := j + 1 + |name|, Put(buf, j, [|name| as Byte] + name);
    var p := Put(buf1, j1, [0]);
    hide Put;
    LabelAt(buf, j, name);
    assert buf1[j1 - 1] == buf1[j + 1..j1][|name| - 1];
    assert p[j1] == p[j1..j1 + 1][0];
    LabelStays(buf, buf1, p, j, name);
  }

  /** One label and a zero are a name. */
  lemma LastStands(p: seq<Byte>, j: nat, name: seq<Byte>)
    requires 1 <= |name| <= MAX_LABEL && FirstDot(name) == |name| && j + 1 + |name| < |p|
    requires p[j] == |name| && p[j + 1..j + 1 + |name|] == name && p[j + 1 + |name|] == 0
    ensures Stands(p, name, j, j + |name| + 2) && EndOf(p, |p|, j) == j + |name| + 2
  {
    hide FirstDot;
    assert Encoded(p, |p|, j + 1 + |name|, [], 0);
    LabelBefore(p, j, name, [], 0);
    assert [name] + [] == LabelsOf(name);
  }

  lemma LastLabel(buf: seq<Byte>, lim: nat, j: nat, name: seq<Byte>, table: seq<Entry>)
    requires 1 <= |name| <= MAX_LABEL && FirstDot(name) == |name| && j + 1 + |name| <= lim < |buf|
    ensures var d, buf1 := |name|, Put(buf, j, [|name| as Byte] + name);
            buf1[j + d] == name[d - 1] &&
            Good(buf, lim, j, name, table, Written(j + d + 2, Put(buf1, j + 1 + d, [0]), Add(table, name, j)))
  {
    hide Put, FirstDot, Good, Add;
    LastBytes(buf, j, name);
    var p := Put(Put(buf, j, [|name| as Byte] + name), j + 1 + |name|, [0]);
    LastStands(p, j, name);
    hide Stands;
    GoodOne(buf, lim, j, name, table, p, j + |name| + 2);
  }

  lemma GoodOne(buf: seq<Byte>, lim: nat, j: nat, name: seq<Byte>, table: seq<Entry>, p: seq<Byte>, end: nat)
    requires j < end <= lim + 1 <= |buf| == |p| && p[..j] == buf[..j] && Stands(p, name, j, end) &&
             EndOf(p, |p|, j) == end
    ensures Good(buf, lim, j, name, table, Written(end, p, Add(table, name, j)))
  {
    hide Stands, EndOf;
  }

  /** Writing the rest of a legal name in fresh space puts a name that stands for it there. */
  lemma {:induction false} WriteGood(buf: seq<Byte>, lim: nat, j: nat, name: seq<Byte>, table: seq<Entry>, q: nat)
    requires lim < |buf| && q <= j && Legal(name) && TableOk(buf, table, |name|, q) && NearHit(j, name, table)
    requires Write(buf, lim, j, name, table).end >= 0
    ensures Good(buf, lim, j, name, table, Write(buf, lim, j, name, table))
    decreases |name|
  {
    hide Write, Good, Put, EntryOk, Legal, TableOk, FirstDot, Find, Add, LabelsOf;
    var d := FirstDot(name);
    if Find(table, name) < |table| {
      PointerFits(buf, lim, j, name, table);
      WritePointer(buf, lim, j, name, table, q);
    } else if d == |name| {
      WriteLast(buf, lim, j, name, table);
    } else {
      WriteUnfolds(buf, lim, j, name, table);
      var buf1, j1, rest, table1 := Put(buf, j, [d as Byte] + name[..d]), j + 1 + d, name[d + 1..], Add(table, name, j);
      LegalRest(name);
      TableGoesOn(buf, j, name, table, q);
      WriteGood(buf1, lim, j1, rest, table1, q);
      WriteLabel(buf, lim, j, name, table);
    }
  }

  lemma PointerFits(buf: seq<Byte>, lim: nat, j: nat, name: seq<Byte>, table: seq<Entry>)
    requires lim < |buf| && Find(table, name) < |table| && Write(buf, lim, j, name, table).end >= 0
    ensures j + 2 <= lim
  {
  }

  lemma LegalRest(name: seq<Byte>)
    requires Legal(name) && name != []
    ensures 1 <= FirstDot(name) <= MAX_LABEL && (FirstDot(name) < |name| ==> Legal(name[FirstDot(name) + 1..]))
  {
  }

  lemma TableGoesOn(buf: seq<Byte>, j: nat, name: seq<Byte>, table: seq<Entry>, q: nat)
    requires FirstDot(name) < |name| && FirstDot(name) <= MAX_LABEL && j + 1 + FirstDot(name) <= |buf| && q <= j &&
             TableOk(buf, table, |name|, q)
    ensures TableOk(Put(buf, j, [FirstDot(name) as Byte] + name[..FirstDot(name)]), Add(table, name, j),
                    |name[FirstDot(name) + 1..]|, q)
  {
    var buf1, rest := Put(buf, j, [FirstDot(name) as Byte] + name[..FirstDot(name)]), name[FirstDot(name) + 1..];
    hide EntryOk;
    TableStays(buf, buf1, table, |name|, |rest|, q, j);
  }

  /** Writing a label and going on with the rest. */
  lemma WriteUnfolds(buf: seq<Byte>, lim: nat, j: nat, name: seq<Byte>, table: seq<Entry>)
    requires lim < |buf| && Find(table, name) == |table| && FirstDot(name) < |name| &&
             Write(buf, lim, j, name, table).end >= 0
    ensures var d := FirstDot(name);
            d <= MAX_LABEL && j + d + 1 <= lim &&
            Write(buf, lim, j, name, table) ==
              Write(Put(buf, j, [d as Byte] + name[..d]), lim, j + 1 + d, name[d + 1..], Add(table, name, j))
  {
  }

  lemma WriteLabel(buf: seq<Byte>, lim: nat, j: nat, name: seq<Byte>, table: seq<Entry>)
    requires lim < |buf| && Legal(name) && Find(table, name) == |table| && FirstDot(name) < |name|
    requires Write(buf, lim, j, name, table).end >= 0 && FirstDot(name) <= MAX_LABEL && j + FirstDot(name) + 1 <= lim
    requires var d := FirstDot(name);
             var buf1, j1, rest, table1 := Put(buf, j, [d as Byte] + name[..d]), j + 1 + d, name[d + 1..],
               Add(table, name, j);
             Good(buf1, lim, j1, rest, table1, Write(buf1, lim, j1, rest, table1))
    ensures Good(buf, lim, j, name, table, Write(buf, lim, j, name, table))
  {
    hide Write, Put, Find, Good, Legal, FirstDot, LabelsOf, Stands, Add, EntryOk;
    var d, w := FirstDot(name), Write(buf, lim, j, name, table);
    var buf1 := Put(buf, j, [d as Byte] + name[..d]);
    WriteUnfolds(buf, lim, j, name, table);
    LabelAt(buf, j, name[..d]);
    LegalRest(name);
    LabelsSplit(name);
    LabelledGood(buf, lim, j, name, name[..d], name[d + 1..], table, buf1, w);
  }

  lemma LabelledGood(buf: seq<Byte>, lim: nat, j: nat, name: seq<Byte>, word: Label, rest: seq<Byte>, table: seq<Entry>,
                     buf1: seq<Byte>, w: Written)
    requires LabelsOf(name) == [word] + LabelsOf(rest) && 1 <= |word| <= MAX_LABEL &&
             j + 1 + |word| <= lim < |buf| == |buf1|
    requires buf1[..j] == buf[..j] && buf1[j] == |word| && buf1[j + 1..j + 1 + |word|] == word
    requires Good(buf1, lim, j + 1 + |word|, rest, Add(table, name, j), w)
    ensures Good(buf, lim, j, name, table, w)
  {
    var table1 := Add(table, name, j);
    LabelStays(buf, buf1, w.buf, j, word);
    hide Stands, EndOf, LabelsOf;
    StandsLabelled(w.buf, name, word, rest, j, w.end);
    forall i | |table| <= i < |w.table| ensures EntryOk(w.buf, w.table[i], w.end) {
      if i < |table1| { assert w.table[i] == table1[i] == Entry(name, j); }
    }
  }

  lemma StandsLabelled(p: seq<Byte>, name: seq<Byte>, word: Label, rest: seq<Byte>, j: nat, q: nat)
    requires LabelsOf(name) == [word] + LabelsOf(rest) && 1 <= |word| <= MAX_LABEL && j + 1 + |word| < |p|
    requires p[j] == |word| && p[j + 1..j + 1 + |word|] == word && Stands(p, rest, j + 1 + |word|, q)
    ensures Stands(p, name, j, q) && EndOf(p, |p|, j) == EndOf(p, |p|, j + 1 + |word|)
  {
    hide Encoded, LabelsOf, EndOf;
    var hops: nat :| Encoded(p, |p|, j + 1 + |word|, LabelsOf(rest), hops);
    LabelBefore(p, j, word, LabelsOf(rest), hops);
  }

  lemma LabelStays(buf: seq<Byte>, buf1: seq<Byte>, p: seq<Byte>, j: nat, word: Label)
    requires j + 1 + |word| <= |p| == |buf1| == |buf| && p[..j + 1 + |word|] == buf1[..j + 1 + |word|] &&
             buf1[..j] == buf[..j]
    ensures p[..j] == buf[..j] && p[j] == buf1[j] && p[j + 1..j + 1 + |word|] == buf1[j + 1..j + 1 + |word|]
  {
    var j1 := j + 1 + |word|;
    assert p[j + 1..j1] == p[..j1][j + 1..] == buf1[..j1][j + 1..] == buf1[j + 1..j1];
    assert p[j] == p[..j1][j] == buf1[..j1][j];
    assert p[..j] == p[..j1][..j] == buf1[..j1][..j] == buf1[..j];
  }

  // ----- a whole message -----

  /** Names written one after another with one table: the message, its end or an error, the table, and where each
      name starts. */
  datatype Message = Message(buf: seq<Byte>, end: int, table: seq<Entry>, starts: seq<nat>)

  function WriteNames(buf: seq<Byte>, lim: nat, j: nat, names: seq<seq<Byte>>, table: seq<Entry>): Message
    requires lim < |buf|
    decreases |names|
  {
    if names == [] then Message(buf, j, table, [])
    else
      var w := WriteName(buf, lim, j, names[0], table);
      if w.end < 0 then Message(w.buf, w.end, w.table, [])
      else
        var rest := WriteNames(w.buf, lim, w.end, names[1..], w.table);
        rest.(starts := [j] + rest.starts)
  }

  /** Every name that ends with a pointer ends with one that can lead where it should. */
  predicate NearHits(buf: seq<Byte>, lim: nat, j: nat, names: seq<seq<Byte>>, table: seq<Entry>)
    requires lim < |buf|
    decreases |names|
  {
    names != [] ==>
      NearHit(j, names[0], table) &&
      var w := WriteName(buf, lim, j, names[0], table);
      w.end >= 0 ==> NearHits(w.buf, lim, w.end, names[1..], w.table)
  }

  /** Where the name after number `i` starts, or the message ends. */
  function NextStart(m: Message, i: nat): int
    requires i < |m.starts|
  {
    if i + 1 < |m.starts| then m.starts[i + 1] else m.end
  }

  /** The name stands where number `i` starts, and ends where the next one starts. */
  ghost predicate NameAt(m: Message, name: seq<Byte>, i: nat)
  {
    i < |m.starts| && 0 <= NextStart(m, i) <= m.end <= |m.buf| && Stands(m.buf, name, m.starts[i], NextStart(m, i)) &&
    EndOf(m.buf, |m.buf|, m.starts[i]) == NextStart(m, i)
  }

  ghost predicate AllStand(m: Message, names: seq<seq<Byte>>)
  {
    |m.starts| == |names| && forall i :: 0 <= i < |names| ==> NameAt(m, names[i], i)
  }

  /** After every name is written, each stands at its start. */
  lemma {:induction false} NamesStand(buf: seq<Byte>, lim: nat, j: nat, names: seq<seq<Byte>>, table: seq<Entry>)
    requires lim < |buf| && j <= lim + 1 && (forall i :: 0 <= i < |names| ==> Legal(names[i]))
    requires forall i :: 0 <= i < |table| ==> EntryOk(buf, table[i], j)
    requires WriteNames(buf, lim, j, names, table).end >= 0 && NearHits(buf, lim, j, names, table)
    ensures var m := WriteNames(buf, lim, j, names, table);
            AllStand(m, names) && |m.buf| == |buf| && m.buf[..j] == buf[..j] && j <= m.end <= lim + 1 &&
            (names != [] ==> m.starts[0] == j)
    decreases |names|
  {
    if names != [] {
      hide WriteNames, Write, Stands, EndOf, WriteName, Good, Legal, EntryOk, TableOk, AllStand, LabelsOf, NearHit,
           NearHits;
      NamesUnfold(buf, lim, j, names, table);
      var w, m := Write(buf, lim, j, names[0], table), WriteNames(buf, lim, j, names, table);
      TableStands(buf, table, |names[0]|, j);
      WriteGood(buf, lim, j, names[0], table, j);
      var rest := WriteNames(w.buf, lim, w.end, names[1..], w.table);
      EntriesStand(buf, lim, j, names[0], table, w);
      NamesStand(w.buf, lim, w.end, names[1..], w.table);
      GoodParts(buf, lim, j, names[0], table, w);
      StandsStays(w.buf, m.buf, names[0], j, w.end, w.end);
      PrefixOf(m.buf, w.buf, w.end, j);
      FirstStands(m, rest, names, j, w.end);
    } else {
      assert AllStand(WriteNames(buf, lim, j, names, table), names);
    }
  }

  lemma PrefixOf(p: seq<Byte>, p': seq<Byte>, n: nat, j: nat)
    requires j <= n <= |p| && n <= |p'| && p[..n] == p'[..n]
    ensures p[..j] == p'[..j]
  {
    assert p[..j] == p[..n][..j] == p'[..n][..j] == p'[..j];
  }

  lemma NamesUnfold(buf: seq<Byte>, lim: nat, j: nat, names: seq<seq<Byte>>, table: seq<Entry>)
    requires lim < |buf| && names != [] && WriteNames(buf, lim, j, names, table).end >= 0
    ensures var w := Write(buf, lim, j, names[0], table);
            w.end >= 0 && var rest := WriteNames(w.buf, lim, w.end, names[1..], w.table);
            rest.end >= 0 &&
            (NearHits(buf, lim, j, names, table) ==>
               NearHit(j, names[0], table) && NearHits(w.buf, lim, w.end, names[1..], w.table)) &&
            WriteNames(buf, lim, j, names, table) == rest.(starts := [j] + rest.starts)
  {
    hide Write;
  }

  lemma TableStands(buf: seq<Byte>, table: seq<Entry>, n: nat, q: nat)
    requires forall i :: 0 <= i < |table| ==> EntryOk(buf, table[i], q)
    ensures TableOk(buf, table, n, q)
  {
  }

  lemma GoodParts(buf: seq<Byte>, lim: nat, j: nat, name: seq<Byte>, table: seq<Entry>, w: Written)
    requires Good(buf, lim, j, name, table, w)
    ensures j < w.end <= lim + 1 <= |buf| == |w.buf| && w.buf[..j] == buf[..j] && Stands(w.buf, name, j, w.end) &&
            EndOf(w.buf, |w.buf|, j) == w.end
  {
  }

  lemma FirstStands(m: Message, rest: Message, names: seq<seq<Byte>>, j: nat, end: nat)
    requires names != [] && m == rest.(starts := [j] + rest.starts) && AllStand(rest, names[1..])
    requires Stands(m.buf, names[0], j, end) && EndOf(m.buf, |m.buf|, j) == end <= rest.end <= |m.buf|
    requires if |names| > 1 then rest.starts[0] == end else rest.end == end
    ensures AllStand(m, names)
  {
    forall i | 0 <= i < |names| ensures NameAt(m, names[i], i) {
      if i > 0 {
        assert NameAt(rest, names[1..][i - 1], i - 1);
        LaterStands(m, rest, names[i], j, i);
      }
    }
  }

  lemma LaterStands(m: Message, rest: Message, name: seq<Byte>, j: nat, i: nat)
    requires m == rest.(starts := [j] + rest.starts) && i > 0 && NameAt(rest, name, i - 1)
    ensures NameAt(m, name, i)
  {
    assert m.starts[i] == rest.starts[i - 1] && NextStart(m, i) == NextStart(rest, i - 1);
  }

  lemma EntriesStand(buf: seq<Byte>, lim: nat, j: nat, name: seq<Byte>, table: seq<Entry>, w: Written)
    requires Good(buf, lim, j, name, table, w) && forall i :: 0 <= i < |table| ==> EntryOk(buf, table[i], j)
    ensures forall i :: 0 <= i < |w.table| ==> EntryOk(w.buf, w.table[i], w.end)
  {
    forall i | 0 <= i < |w.table| ensures EntryOk(w.buf, w.table[i], w.end) {
      if i < |table| {
        assert w.table[i] == table[i];
        StandsStays(buf, w.buf, table[i].v, table[i].pos, j, j);
      }
    }
  }

  /** Names written into a message with one table, each parsed where it starts, come back as they were, but for a
      dot at the end, together with the position after them; whatever follows the message. */
  lemma NamesRoundTrip(buf: seq<Byte>, lim: nat, j: nat, names: seq<seq<Byte>>, packet: seq<Byte>, i: nat)
    requires lim < |buf| && j <= lim + 1 && (forall i :: 0 <= i < |names| ==> Legal(names[i])) && i < |names|
    requires NearHits(buf, lim, j, names, [])
    requires var m := WriteNames(buf, lim, j, names, []);
             0 <= m.end <= |m.buf| && m.end <= |packet| && packet[..m.end] == m.buf[..m.end]
    ensures var m := WriteNames(buf, lim, j, names, []);
            i < |m.starts| && NextStart(m, i) >= 0 &&
            Parse(packet, m.end, m.starts[i], 0) == Some((LabelsOf(names[i]), NextStart(m, i))) &&
            Join(LabelsOf(names[i])) == Undotted(names[i])
  {
    var m := WriteNames(buf, lim, j, names, []);
    NamesStand(buf, lim, j, names, []);
    var labels, pos, next := LabelsOf(names[i]), m.starts[i], NextStart(m, i);
    hide WriteNames, LabelsOf, Legal;
    JoinLabels(names[i]);
    assert NameAt(m, names[i], i);
    var hops: nat :| Encoded(m.buf, |m.buf|, pos, labels, hops);
    EncodedStays(m.buf, |m.buf|, packet, m.end, m.end, pos, labels, hops);
    EncodedIsNamed(packet, m.end, pos, labels, hops);
    ParseComplete(packet, m.end, pos, 0, labels, hops);
  }

  /** A message whose end is below 0x4000 needs no pointer past it. */
  lemma {:induction false} ShortMessage(buf: seq<Byte>, lim: nat, j: nat, names: seq<seq<Byte>>, table: seq<Entry>)
    requires lim < |buf| && AllNear(table)
    requires 0 <= WriteNames(buf, lim, j, names, table).end < POINTER_LIMIT
    ensures NearHits(buf, lim, j, names, table)
    decreases |names|
  {
    if names != [] {
      var w := WriteName(buf, lim, j, names[0], table);
      NamesGoOn(w.buf, lim, w.end, names[1..], w.table);
      WriteNear(buf, lim, j, names[0], table);
      ShortMessage(w.buf, lim, w.end, names[1..], w.table);
    }
  }

  lemma {:induction false} NamesGoOn(buf: seq<Byte>, lim: nat, j: nat, names: seq<seq<Byte>>, table: seq<Entry>)
    requires lim < |buf| && WriteNames(buf, lim, j, names, table).end >= 0
    ensures j <= WriteNames(buf, lim, j, names, table).end
    decreases |names|
  {
    if names != [] {
      var w := WriteName(buf, lim, j, names[0], table);
      NamesGoOn(w.buf, lim, w.end, names[1..], w.table);
    }
  }

  ghost predicate AllNear(table: seq<Entry>)
  {
    forall i :: 0 <= i < |table| ==> table[i].pos < POINTER_LIMIT
  }

  lemma NearAdd(table: seq<Entry>, name: seq<Byte>, pos: nat)
    requires AllNear(table) && pos < POINTER_LIMIT
    ensures AllNear(Add(table, name, pos))
  {
  }

  lemma {:induction false} WriteNear(buf: seq<Byte>, lim: nat, j: nat, name: seq<Byte>, table: seq<Entry>)
    requires lim < |buf| && AllNear(table) && 0 <= Write(buf, lim, j, name, table).end < POINTER_LIMIT
    ensures NearHit(j, name, table) && AllNear(Write(buf, lim, j, name, table).table)
    decreases |name|
  {
    hide Put, FirstDot, Find, PointerHigh, PointerLow, Write, Add;
    WriteCases(buf, lim, j, name, table);
    var d := FirstDot(name);
    if Find(table, name) == |table| {
      NearAdd(table, name, j);
      if d < |name| {
        WriteNear(Put(buf, j, [d as Byte] + name[..d]), lim, j + 1 + d, name[d + 1..], Add(table, name, j));
      }
    }
  }

  const LETTER_A: seq<Byte> := [97]

  lemma FirstA(buf: seq<Byte>, lim: nat, j: nat)
    requires j + 3 <= lim < |buf|
    ensures var w := WriteName(buf, lim, j, LETTER_A, []);
            w.end == j + 3 && w.table == [Entry(LETTER_A, j)] && w.buf[..j] == buf[..j] &&
            w.buf[j] == 1 && w.buf[j + 1] == 97 && w.buf[j + 2] == 0
  {
    var a := LETTER_A;
    assert FirstDot(a) == 1 && a[..1] == a;
    var buf1 := Put(buf, j, [1] + a);
    LabelAt(buf, j, a);
    assert buf1[j + 1] == buf1[j + 1..j + 2][0];
    var w := WriteName(buf, lim, j, a, []);
    assert w == Written(j + 3, Put(buf1, j + 2, [0]), [Entry(a, j)]);
    assert w.buf[j + 2] == w.buf[j + 2..j + 3][0] && w.buf[..j + 2] == buf1[..j + 2];
    assert w.buf[j] == w.buf[..j + 2][j] == buf1[..j + 2][j] &&
           w.buf[j + 1] == w.buf[..j + 2][j + 1] == buf1[..j + 2][j + 1];
    assert w.buf[..j] == w.buf[..j + 2][..j] == buf1[..j + 2][..j] == buf[..j];
  }

  lemma SecondA(buf: seq<Byte>, lim: nat, j: nat, ref: nat)
    requires j + 2 <= lim < |buf|
    ensures var w := WriteName(buf, lim, j, LETTER_A, [Entry(LETTER_A, ref)]);
            w.end == j + 2 && w.buf[..j] == buf[..j] && w.buf[j] == PointerHigh(ref) && w.buf[j + 1] == PointerLow(ref)
  {
    var w := WriteName(buf, lim, j, LETTER_A, [Entry(LETTER_A, ref)]);
    assert w.buf[j] == w.buf[j..j + 2][0] && w.buf[j + 1] == w.buf[j..j + 2][1];
  }

  lemma WriteTwo(buf: seq<Byte>, lim: nat, j: nat, a: seq<Byte>, b: seq<Byte>)
    requires lim < |buf|
    ensures var w := WriteName(buf, lim, j, a, []);
            w.end >= 0 ==>
              var x, m := WriteName(w.buf, lim, w.end, b, w.table), WriteNames(buf, lim, j, [a, b], []);
              x.end >= 0 ==> m.buf == x.buf && m.end == x.end && m.starts == [j, w.end]
  {
    var w := WriteName(buf, lim, j, a, []);
    assert [a, b][1..] == [b] && [b][1..] == [];
    if w.end >= 0 {
      var x := WriteName(w.buf, lim, w.end, b, w.table);
      if x.end >= 0 {
        assert WriteNames(x.buf, lim, x.end, [], x.table) == Message(x.buf, x.end, x.table, []);
        assert WriteNames(w.buf, lim, w.end, [b], w.table).starts == [w.end] + [];
      }
    }
  }

  /** A message in which the second "a" points to the first, at 0x4000, and is read from the start of the message
      instead: an empty name comes back. */
  lemma FarPointer(buf: seq<Byte>, lim: nat)
    requires POINTER_LIMIT + 5 <= lim < |buf| && buf[0] == 0
    ensures var far, m := POINTER_LIMIT, WriteNames(buf, lim, POINTER_LIMIT, [LETTER_A, LETTER_A], []);
            m.starts == [far, far + 3] && m.end == far + 5 && far + 5 <= |m.buf| &&
            Parse(m.buf, far + 5, far, 0) == Some(([LETTER_A], far + 3)) &&
            Parse(m.buf, far + 5, far + 3, 0) == Some(([], far + 5))
  {
    hide WriteName, WriteNames;
    var far, a := POINTER_LIMIT, LETTER_A;
    FirstA(buf, lim, far);
    var w := WriteName(buf, lim, far, a, []);
    SecondA(w.buf, lim, far + 3, far);
    WriteTwo(buf, lim, far, a, a);
    var m := WriteNames(buf, lim, far, [a, a], []);
    forall k | 0 <= k < far + 3 ensures m.buf[k] == w.buf[k] {
      assert m.buf[..far + 3][k] == w.buf[..far + 3][k];
    }
    assert m.buf[0] == w.buf[..far][0] == buf[..far][0];
    FarRead(m.buf, far);
  }

  lemma FarRead(p: seq<Byte>, far: nat)
    requires far == POINTER_LIMIT && far + 5 <= |p| && p[0] == 0 && p[far] == 1 && p[far + 1] == 97 && p[far + 2] == 0
    requires p[far + 3] == PointerHigh(far) && p[far + 4] == PointerLow(far)
    ensures Parse(p, far + 5, far, 0) == Some(([LETTER_A], far + 3)) &&
            Parse(p, far + 5, far + 3, 0) == Some(([], far + 5))
  {
    PointerLeads(far);
    assert Parse(p, far + 5, 0, 1) == Some(([], 1));
    assert Parse(p, far + 5, far + 2, 0) == Some(([], far + 3));
    assert p[far + 1..far + 2] == LETTER_A;
    assert [LETTER_A] + [] == [LETTER_A];
  }
}
