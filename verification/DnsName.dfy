/** Domain names in a DNS message: a series of labels, each with its length before it, ended by a zero byte or
    by a pointer to the rest of a name earlier in the message (section 4.1.4 of RFC 1035). */
module DnsName {
  import opened Options
  import opened Bytes

  type Label = seq<Byte>

  const DOT: Byte := 46
  const MAX_LABEL := 63
  const POINTER_LIMIT := 0x4000

  /** The labels of a name as text, joined by dots. */
  function Join(labels: seq<Label>): seq<Byte>
  {
    if labels == [] then []
    else if |labels| == 1 then labels[0]
    else labels[0] + [DOT] + Join(labels[1..])
  }

  /** The offset that a two-byte pointer names. */
  function Target(hi: Byte, lo: Byte): nat
  {
    hi % 64 * 256 + lo
  }

  // ----- what a name in a message is -----

  /** At `pos` of the message there is the name with these labels, reached by following `hops` pointers, whichever
      way they go.  This is the meaning that the standard gives to the bytes, except that it keeps lengths from 64
      to 191 in reserve, where `name_parse` takes every length from 64 on for a pointer. */
  predicate Named(p: seq<Byte>, length: nat, pos: nat, labels: seq<Label>, hops: nat)
    requires length <= |p|
    decreases hops, |labels|
  {
    pos < length &&
    if p[pos] == 0 then labels == [] && hops == 0
    else if p[pos] >= 64 then
      pos + 1 < length && hops > 0 && Named(p, length, Target(p[pos], p[pos + 1]), labels, hops - 1)
    else
      var next := pos + 1 + p[pos];
      next < length && labels != [] && labels[0] == p[pos + 1..next] && Named(p, length, next, labels[1..], hops)
  }

  /** The position after the name at `pos`, which ends in place with a zero or with its first pointer. */
  function EndOf(p: seq<Byte>, length: nat, pos: nat): nat
    requires length <= |p|
    decreases length - pos
  {
    if pos >= length then pos
    else if p[pos] == 0 then pos + 1
    else if p[pos] >= 64 then pos + 2
    else EndOf(p, length, pos + 1 + p[pos])
  }

  /** A message has at most one name at a position. */
  lemma {:induction false} NamedUnique(p: seq<Byte>, length: nat, pos: nat, l1: seq<Label>, h1: nat, l2: seq<Label>,
                                       h2: nat)
    requires length <= |p| && Named(p, length, pos, l1, h1) && Named(p, length, pos, l2, h2)
    ensures l1 == l2 && h1 == h2
    decreases h1, |l1|
  {
    if p[pos] == 0 {
    } else if p[pos] >= 64 {
      NamedUnique(p, length, Target(p[pos], p[pos + 1]), l1, h1 - 1, l2, h2 - 1);
    } else {
      NamedUnique(p, length, pos + 1 + p[pos], l1[1..], h1, l2[1..], h2);
      assert l1 == [l1[0]] + l1[1..] && l2 == [l2[0]] + l2[1..];
    }
  }

  // ----- a name has no more pointers than the message has bytes -----

  ghost predicate OnTheWay(p: seq<Byte>, length: nat, q: nat, most: nat)
    requires length <= |p|
  {
    q < length && exists labels, hops: nat :: 0 < hops <= most && Named(p, length, q, labels, hops)
  }

  /** The places of the pointers on the way: a place passed twice would have two names. */
  lemma {:induction false} PointerPlaces(p: seq<Byte>, length: nat, pos: nat, labels: seq<Label>, hops: nat)
    returns (places: set<nat>)
    requires length <= |p| && Named(p, length, pos, labels, hops)
    ensures |places| == hops && forall q :: q in places ==> OnTheWay(p, length, q, hops)
    decreases hops, |labels|
  {
    if p[pos] == 0 {
      places := {};
    } else if p[pos] >= 64 {
      places := PointerPlaces(p, length, Target(p[pos], p[pos + 1]), labels, hops - 1);
      if pos in places {
        var labels', hops': nat :| 0 < hops' <= hops - 1 && Named(p, length, pos, labels', hops');
        NamedUnique(p, length, pos, labels, hops, labels', hops');
        assert false;
      }
      places := places + {pos};
      assert OnTheWay(p, length, pos, hops);
    } else {
      places := PointerPlaces(p, length, pos + 1 + p[pos], labels[1..], hops);
    }
  }

  lemma {:induction false} AtMost(places: set<nat>, n: nat)
    requires forall q :: q in places ==> q < n
    ensures |places| <= n
    decreases n
  {
    if n == 0 {
      assert places == {};
    } else {
      AtMost(places - {n - 1}, n - 1);
      assert places <= (places - {n - 1}) + {n - 1};
    }
  }

  lemma FewPointers(p: seq<Byte>, length: nat, pos: nat, labels: seq<Label>, hops: nat)
    requires length <= |p| && Named(p, length, pos, labels, hops)
    ensures hops <= length
  {
    var places := PointerPlaces(p, length, pos, labels, hops);
    forall q | q in places ensures q < length { assert OnTheWay(p, length, q, hops); }
    AtMost(places, length);
  }

  /** At `pos` there is the name with these labels. */
  ghost predicate HasName(p: seq<Byte>, length: nat, pos: nat, labels: seq<Label>)
    requires length <= |p|
  {
    exists hops: nat :: Named(p, length, pos, labels, hops)
  }

  // ----- name_parse -----

  /** What `name_parse` finds at `j`, having followed `ptrs` pointers. */
  function Parse(p: seq<Byte>, length: nat, j: nat, ptrs: nat): Option<(seq<Label>, nat)>
    requires ptrs <= length <= |p|
    decreases length - ptrs, length - j
  {
    if j >= length then None
    else if p[j] == 0 then Some(([], j + 1))
    else if p[j] >= 64 then
      if j + 1 >= length then None
      else
        var t := Target(p[j], p[j + 1]);
        if t >= length || ptrs + 1 > length then None
        else
          match Parse(p, length, t, ptrs + 1)
          case None => None
          case Some(r) => Some((r.0, j + 2))
    else if j + 1 + p[j] > length then None
    else
      match Parse(p, length, j + 1 + p[j], ptrs)
      case None => None
      case Some(r) => Some(([p[j + 1..j + 1 + p[j]]] + r.0, r.1))
  }

  /** What it finds is the name there. */
  lemma {:induction false} ParseSound(p: seq<Byte>, length: nat, j: nat, ptrs: nat) returns (hops: nat)
    requires ptrs <= length <= |p| && Parse(p, length, j, ptrs).Some?
    ensures var r := Parse(p, length, j, ptrs).value;
            Named(p, length, j, r.0, hops) && r.1 == EndOf(p, length, j) && ptrs + hops <= length
    decreases length - ptrs, length - j
  {
    var r := Parse(p, length, j, ptrs).value;
    if p[j] == 0 {
      hops := 0;
    } else if p[j] >= 64 {
      var h := ParseSound(p, length, Target(p[j], p[j + 1]), ptrs + 1);
      hops := h + 1;
    } else {
      hops := ParseSound(p, length, j + 1 + p[j], ptrs);
      assert r.0[1..] == Parse(p, length, j + 1 + p[j], ptrs).value.0;
    }
  }

  /** A name reached by few enough pointers is found. */
  lemma {:induction false} ParseComplete(p: seq<Byte>, length: nat, j: nat, ptrs: nat, labels: seq<Label>, hops: nat)
    requires length <= |p| && Named(p, length, j, labels, hops) && ptrs + hops <= length
    ensures Parse(p, length, j, ptrs) == Some((labels, EndOf(p, length, j)))
    decreases hops, |labels|
  {
    if p[j] == 0 {
    } else if p[j] >= 64 {
      ParseComplete(p, length, Target(p[j], p[j + 1]), ptrs + 1, labels, hops - 1);
    } else {
      ParseComplete(p, length, j + 1 + p[j], ptrs, labels[1..], hops);
      assert labels == [labels[0]] + labels[1..];
    }
  }

  /** The limit on pointers never stands in the way of a name: it is found if and only if it is there. */
  lemma ParseIffNamed(p: seq<Byte>, length: nat, j: nat, labels: seq<Label>)
    requires length <= |p|
    ensures HasName(p, length, j, labels) <==> Parse(p, length, j, 0) == Some((labels, EndOf(p, length, j)))
    ensures Parse(p, length, j, 0).Some? ==> HasName(p, length, j, Parse(p, length, j, 0).value.0)
  {
    if HasName(p, length, j, labels) {
      var hops: nat :| Named(p, length, j, labels, hops);
      FewPointers(p, length, j, labels, hops);
      ParseComplete(p, length, j, 0, labels, hops);
    }
    if Parse(p, length, j, 0).Some? {
      var hops := ParseSound(p, length, j, 0);
    }
  }

  // ----- reads that leave the packet -----

  /** The length of the text when a label of `k` bytes is added to `n` bytes. */
  function GrownLength(n: nat, k: nat): nat
  {
    if n == 0 then k else n + 1 + k
  }

  /** The length of the text when the labels are added to `n` bytes. */
  function TextLength(n: nat, labels: seq<Label>): nat
    decreases |labels|
  {
    if labels == [] then n else TextLength(GrownLength(n, |labels[0]|), labels[1..])
  }

  /** Reading these labels and following `hops` pointers leads from `pos` to `j`. */
  predicate Reaches(p: seq<Byte>, length: nat, pos: nat, labels: seq<Label>, hops: nat, j: nat)
    requires length <= |p|
    decreases hops, |labels|
  {
    if labels == [] && hops == 0 then pos == j
    else if pos >= length || p[pos] == 0 then false
    else if p[pos] >= 64 then
      pos + 1 < length && hops > 0 && Target(p[pos], p[pos + 1]) < length &&
      Reaches(p, length, Target(p[pos], p[pos + 1]), labels, hops - 1, j)
    else
      var next := pos + 1 + p[pos];
      next <= length && labels != [] && labels[0] == p[pos + 1..next] && Reaches(p, length, next, labels[1..], hops, j)
  }

  /** At `j` there is a label that ends after the packet. */
  predicate CutLabel(p: seq<Byte>, length: nat, j: nat)
    requires length <= |p|
  {
    j < length && 0 < p[j] < 64 && j + 1 + p[j] > length
  }

  /** A label that ends after the packet is reached, and it fits in an output of `cap` bytes. */
  ghost predicate CutIsReached(p: seq<Byte>, length: nat, pos: nat, n: nat, cap: nat)
    requires length <= |p|
  {
    exists labels, hops: nat, j: nat ::
      Reaches(p, length, pos, labels, hops, j) && CutLabel(p, length, j) &&
      GrownLength(TextLength(n, labels), p[j]) < cap
  }

  /** There is one way to a label that ends after the packet, and it goes no further. */
  lemma {:induction false} ReachesUnique(p: seq<Byte>, length: nat, pos: nat, j: nat, l1: seq<Label>, h1: nat,
                                         l2: seq<Label>, h2: nat)
    requires length <= |p| && CutLabel(p, length, j)
    requires Reaches(p, length, pos, l1, h1, j) && Reaches(p, length, pos, l2, h2, j)
    ensures h1 == h2
    decreases h1, |l1|
  {
    if !CutLabel(p, length, pos) {
      if p[pos] >= 64 {
        ReachesUnique(p, length, Target(p[pos], p[pos + 1]), j, l1, h1 - 1, l2, h2 - 1);
      } else {
        ReachesUnique(p, length, pos + 1 + p[pos], j, l1[1..], h1, l2[1..], h2);
      }
    }
  }

  ghost predicate OnTheWayTo(p: seq<Byte>, length: nat, j: nat, q: nat, most: nat)
    requires length <= |p|
  {
    q < length && exists labels, hops: nat :: 0 < hops <= most && Reaches(p, length, q, labels, hops, j)
  }

  lemma {:induction false} CutPlaces(p: seq<Byte>, length: nat, pos: nat, labels: seq<Label>, hops: nat, j: nat)
    returns (places: set<nat>)
    requires length <= |p| && Reaches(p, length, pos, labels, hops, j) && CutLabel(p, length, j)
    ensures |places| == hops && forall q :: q in places ==> OnTheWayTo(p, length, j, q, hops)
    decreases hops, |labels|
  {
    if labels == [] && hops == 0 {
      places := {};
    } else if p[pos] >= 64 {
      places := CutPlaces(p, length, Target(p[pos], p[pos + 1]), labels, hops - 1, j);
      if pos in places {
        var labels', hops': nat :| 0 < hops' <= hops - 1 && Reaches(p, length, pos, labels', hops', j);
        ReachesUnique(p, length, pos, j, labels, hops, labels', hops');
        assert false;
      }
      places := places + {pos};
      assert OnTheWayTo(p, length, j, pos, hops);
    } else {
      places := CutPlaces(p, length, pos + 1 + p[pos], labels[1..], hops, j);
    }
  }

  lemma FewPointersTo(p: seq<Byte>, length: nat, pos: nat, labels: seq<Label>, hops: nat, j: nat)
    requires length <= |p| && Reaches(p, length, pos, labels, hops, j) && CutLabel(p, length, j)
    ensures hops <= length
  {
    var places := CutPlaces(p, length, pos, labels, hops, j);
    forall q | q in places ensures q < length { assert OnTheWayTo(p, length, j, q, hops); }
    AtMost(places, length);
  }

  /** Whether `name_parse` reads past the packet, from `j` on with `n` bytes of text: the bytes of a label are copied
      before their end is compared with the length of the packet. */
  predicate Leaves(p: seq<Byte>, length: nat, j: nat, ptrs: nat, n: nat, cap: nat)
    requires ptrs <= length <= |p|
    decreases length - ptrs, length - j
  {
    if j >= length || p[j] == 0 then false
    else if p[j] >= 64 then
      j + 1 < length && Target(p[j], p[j + 1]) < length && ptrs + 1 <= length &&
      Leaves(p, length, Target(p[j], p[j + 1]), ptrs + 1, n, cap)
    else
      GrownLength(n, p[j]) < cap &&
      (j + 1 + p[j] > length || Leaves(p, length, j + 1 + p[j], ptrs, GrownLength(n, p[j]), cap))
  }

  lemma {:induction false} LeavesReaches(p: seq<Byte>, length: nat, pos: nat, ptrs: nat, n: nat, cap: nat)
    returns (labels: seq<Label>, hops: nat, j: nat)
    requires ptrs <= length <= |p| && Leaves(p, length, pos, ptrs, n, cap)
    ensures Reaches(p, length, pos, labels, hops, j) && ptrs + hops <= length && CutLabel(p, length, j)
    ensures GrownLength(TextLength(n, labels), p[j]) < cap
    decreases length - ptrs, length - pos
  {
    if p[pos] >= 64 {
      var h;
      labels, h, j := LeavesReaches(p, length, Target(p[pos], p[pos + 1]), ptrs + 1, n, cap);
      hops := h + 1;
    } else if pos + 1 + p[pos] > length {
      labels, hops, j := [], 0, pos;
    } else {
      var rest;
      rest, hops, j := LeavesReaches(p, length, pos + 1 + p[pos], ptrs, GrownLength(n, p[pos]), cap);
      labels := [p[pos + 1..pos + 1 + p[pos]]] + rest;
      assert labels[1..] == rest;
    }
  }

  lemma {:induction false} TextGrows(n: nat, labels: seq<Label>)
    ensures TextLength(n, labels) >= n
    decreases |labels|
  {
    if labels != [] { TextGrows(GrownLength(n, |labels[0]|), labels[1..]); }
  }

  lemma {:induction false} ReachesLeaves(p: seq<Byte>, length: nat, pos: nat, ptrs: nat, n: nat, cap: nat,
                                         labels: seq<Label>, hops: nat, j: nat)
    requires ptrs <= length <= |p| && Reaches(p, length, pos, labels, hops, j) && ptrs + hops <= length &&
             CutLabel(p, length, j)
    requires GrownLength(TextLength(n, labels), p[j]) < cap
    ensures Leaves(p, length, pos, ptrs, n, cap)
    decreases hops, |labels|
  {
    if labels != [] || hops != 0 {
      if p[pos] >= 64 {
        ReachesLeaves(p, length, Target(p[pos], p[pos + 1]), ptrs + 1, n, cap, labels, hops - 1, j);
      } else {
        TextGrows(GrownLength(n, |labels[0]|), labels[1..]);
        ReachesLeaves(p, length, pos + 1 + p[pos], ptrs, GrownLength(n, p[pos]), cap, labels[1..], hops, j);
      }
    }
  }

  /** A read leaves the packet if and only if a label that ends after it is reached and fits in the output. */
  lemma LeavesIff(p: seq<Byte>, length: nat, pos: nat, n: nat, cap: nat)
    requires length <= |p|
    ensures Leaves(p, length, pos, 0, n, cap) <==> CutIsReached(p, length, pos, n, cap)
  {
    if Leaves(p, length, pos, 0, n, cap) {
      var labels, hops, j := LeavesReaches(p, length, pos, 0, n, cap);
    }
    if CutIsReached(p, length, pos, n, cap) {
      var labels, hops: nat, j: nat :|
        Reaches(p, length, pos, labels, hops, j) && CutLabel(p, length, j) &&
        GrownLength(TextLength(n, labels), p[j]) < cap;
      FewPointersTo(p, length, pos, labels, hops, j);
      ReachesLeaves(p, length, pos, 0, n, cap, labels, hops, j);
    }
  }

  /** A whole name is read without leaving the packet. */
  lemma {:induction false} NameStaysInside(p: seq<Byte>, length: nat, j: nat, ptrs: nat, n: nat, cap: nat)
    requires ptrs <= length <= |p| && Parse(p, length, j, ptrs).Some?
    ensures !Leaves(p, length, j, ptrs, n, cap)
    decreases length - ptrs, length - j
  {
    if p[j] >= 64 {
      NameStaysInside(p, length, Target(p[j], p[j + 1]), ptrs + 1, n, cap);
    } else if p[j] > 0 {
      NameStaysInside(p, length, j + 1 + p[j], ptrs, GrownLength(n, p[j]), cap);
    }
  }

  /** A packet of two bytes, but six are read: a label of five bytes is cut after its first. */
  lemma CutPacket()
    ensures var p: seq<Byte> := [5, 97]; Parse(p, 2, 0, 0).None? && Leaves(p, 2, 0, 0, 0, 255)
  {
  }

  /** Joining appends. */
  function Grown(out: seq<Byte>, word: Label): seq<Byte>
  {
    if out == [] then word else out + [DOT] + word
  }

  /** The text after the labels in `rest` have been added to `out`. */
  function Appended(out: seq<Byte>, rest: seq<Label>): seq<Byte>
    decreases |rest|
  {
    if rest == [] then out else Appended(Grown(out, rest[0]), rest[1..])
  }

  predicate NonEmpty(labels: seq<Label>)
  {
    forall i :: 0 <= i < |labels| ==> labels[i] != []
  }

  lemma {:induction false} AppendedJoin(out: seq<Byte>, rest: seq<Label>)
    requires NonEmpty(rest)
    ensures Appended(out, rest) == if rest == [] then out else if out == [] then Join(rest)
                                   else out + [DOT] + Join(rest)
    ensures |Appended(out, rest)| >= |out|
    decreases |rest|
  {
    if rest != [] {
      AppendedJoin(Grown(out, rest[0]), rest[1..]);
      if |rest| > 1 {
        assert rest[0] + [DOT] + Join(rest[1..]) == Join(rest);
        assert out + [DOT] + rest[0] + [DOT] + Join(rest[1..]) == out + [DOT] + Join(rest);
      }
    }
  }

  lemma {:induction false} ParseNonEmpty(p: seq<Byte>, length: nat, j: nat, ptrs: nat)
    requires ptrs <= length <= |p| && Parse(p, length, j, ptrs).Some?
    ensures NonEmpty(Parse(p, length, j, ptrs).value.0)
    decreases length - ptrs, length - j
  {
    if p[j] >= 64 {
      ParseNonEmpty(p, length, Target(p[j], p[j + 1]), ptrs + 1);
    } else if p[j] > 0 {
      ParseNonEmpty(p, length, j + 1 + p[j], ptrs);
    }
  }

  /** How the result follows from what is left to parse, when the first pointer was at `nameEnd - 2`. */
  function Finish(rest: Option<(seq<Label>, nat)>, nameEnd: int, out: seq<Byte>, cap: nat): Option<(seq<Byte>, nat)>
  {
    if rest.None? || |Appended(out, rest.value.0)| >= cap then None
    else Some((Appended(out, rest.value.0), if nameEnd < 0 then rest.value.1 else nameEnd))
  }

  /** `name_parse`.  It ends for every packet, and succeeds exactly when there is a name at `idx` that fits in
      the output with its final zero; then it gives that name, joined by dots, and the position after it.
      `left` tells whether bytes after the packet were read; `beyond` is what memory holds after the array, and does
      not change the result. */
  method NameParse(packet: array<Byte>, beyond: nat -> Byte, length: nat, idx: nat, out: array<Byte>)
    returns (ok: bool, idx': nat, n: nat, left: bool)
    requires length <= packet.Length && packet != out
    modifies out
    ensures ok <==> exists labels :: HasName(packet[..], length, idx, labels) && |Join(labels)| < out.Length
    ensures ok ==> n < out.Length && out[n] == 0 && idx' == EndOf(packet[..], length, idx)
    ensures ok ==> forall labels :: HasName(packet[..], length, idx, labels) ==> out[..n] == Join(labels)
    ensures !ok ==> idx' == idx
    ensures left <==> CutIsReached(packet[..], length, idx, 0, out.Length)
    ensures ok ==> !left
  {
    ghost var p, cap := packet[..], out.Length;
    ghost var goal := Finish(Parse(p, length, idx, 0), -1, [], cap);
    GoalIsName(p, length, idx, cap);
    LeavesIff(p, length, idx, 0, cap);
    hide CutIsReached, HasName;
    if Parse(p, length, idx, 0).Some? { NameStaysInside(p, length, idx, 0, 0, cap); }
    var nameEnd, j: nat, ptrs: nat := -1, idx, 0;
    var more := true;
    ok, idx', n, left := true, idx, 0, false;
    assert out[..0] == [];
    hide Parse, Finish, Join, Leaves, LeavesStep, Continues;
    while more
      invariant packet[..] == p && ptrs <= length && n <= out.Length && -1 <= nameEnd
      invariant if ok then goal == Finish(Parse(p, length, j, ptrs), nameEnd, out[..n], cap) else goal.None?
      invariant if more then ok else ok ==> j < length && p[j] == 0
      invariant Leaves(p, length, idx, 0, 0, cap) <==> left || (more && Leaves(p, length, j, ptrs, n, cap))
      decreases more, length - ptrs, length - j
    {
      var out1;
      ghost var was, end, text := (j, ptrs, n), nameEnd, out[..n];
      ok, more, j, ptrs, nameEnd, n, out1 := ParseStep(packet, beyond, length, j, ptrs, nameEnd, out, n);
      left := left || out1;
      ContinuesTurn(p, length, was.0, was.1, end, text, cap, ok, j, ptrs, nameEnd, out[..n]);
      LeavesTurn(p, length, was.0, was.1, was.2, cap, out1, more, j, ptrs, n);
    }
    if ok {
      OtherSteps(p, length, j, ptrs, nameEnd, out[..n], cap);
      ok := n < out.Length;
      if ok {
        ghost var before := out[..n];
        out[n] := 0;
        assert out[..n] == before;
        idx' := if nameEnd < 0 then j + 1 else nameEnd;
      }
    }
  }

  /** One turn of the loop of `name_parse`: a pointer is followed or a label is copied; or there is no more, because
      the name has ended or because it is bad. */
  method ParseStep(packet: array<Byte>, beyond: nat -> Byte, length: nat, j: nat, ptrs: nat, nameEnd: int,
                   out: array<Byte>, n: nat)
    returns (ok: bool, more: bool, j': nat, ptrs': nat, nameEnd': int, n': nat, left: bool)
    requires length <= packet.Length && packet != out && ptrs <= length && n <= out.Length && -1 <= nameEnd
    modifies out
    ensures ptrs' <= length && n' <= out.Length && -1 <= nameEnd'
    ensures Continues(packet[..], length, j, ptrs, nameEnd, old(out[..n]), out.Length, ok, j', ptrs', nameEnd',
                      out[..n'])
    ensures if more then ok && j < length && (ptrs' > ptrs || (ptrs' == ptrs && j' > j)) else ok ==>
              j' < length && packet[j'] == 0
    ensures LeavesStep(packet[..], length, j, ptrs, n, out.Length, left, more, j', ptrs', n')
  {
    ok, more, j', ptrs', nameEnd', n', left := false, false, j, ptrs, nameEnd, n, false;
    hide Parse, Finish, LeavesStep, Continues;
    ghost var p, cap := packet[..], out.Length;
    if j >= length || packet[j] == 0 {
      ok := j < length;
      ContinuesNot(p, length, j, ptrs, nameEnd, out[..n], cap);
      LeavesNot(p, length, j, ptrs, n, cap);
    } else if packet[j] >= 64 {
      ok, j', ptrs', nameEnd' := FollowPointer(packet, length, j, ptrs, nameEnd, out[..n], out.Length);
      more := ok;
      LeavesPointer(p, length, j, ptrs, n, cap);
    } else {
      ok, n', left := TakeLabel(packet, beyond, length, j, ptrs, nameEnd, out, n);
      more, j' := ok, j + 1 + packet[j];
      LeavesLabel(p, length, j, ptrs, n, cap);
    }
  }

  method FollowPointer(packet: array<Byte>, length: nat, j: nat, ptrs: nat, nameEnd: int, ghost text: seq<Byte>,
                       ghost cap: nat)
    returns (ok: bool, j': nat, ptrs': nat, nameEnd': int)
    requires length <= packet.Length && ptrs <= length && -1 <= nameEnd && j < length && packet[j] >= 64
    ensures Continues(packet[..], length, j, ptrs, nameEnd, text, cap, ok, j', ptrs', nameEnd', text)
    ensures -1 <= nameEnd' && if ok then ptrs' == ptrs + 1 else ptrs' == ptrs && j' == j
    ensures ok <==> j + 1 < length && Target(packet[j], packet[j + 1]) < length && ptrs + 1 <= length
    ensures ok ==> j' == Target(packet[j], packet[j + 1])
  {
    OtherSteps(packet[..], length, j, ptrs, nameEnd, text, cap);
    hide Parse, Finish;
    ok, j', ptrs', nameEnd' := false, j, ptrs, nameEnd;
    if j + 1 < length {
      var low := packet[j + 1];
      var high: int := packet[j];
      var t := high % 64 * 256 + low;
      assert t == Target(packet[j], packet[j + 1]);
      if t < length && ptrs + 1 <= length {
        ok, j', ptrs' := true, t, ptrs + 1;
        if nameEnd < 0 { nameEnd' := j + 2; }
      }
    }
  }

  method TakeLabel(packet: array<Byte>, beyond: nat -> Byte, length: nat, j: nat, ptrs: nat, nameEnd: int,
                   out: array<Byte>, n: nat)
    returns (ok: bool, n': nat, left: bool)
    requires length <= packet.Length && packet != out && ptrs <= length && n <= out.Length && j < length &&
             0 < packet[j] < 64
    modifies out
    ensures n' <= out.Length && packet[..] == old(packet[..])
    ensures Continues(packet[..], length, j, ptrs, nameEnd, old(out[..n]), out.Length, ok, j + 1 + packet[j], ptrs,
                      nameEnd, out[..n'])
    ensures ok <==> GrownLength(n, packet[j]) < out.Length
    ensures n' == (if ok then GrownLength(n, packet[j]) else n) && (left <==> ok && j + 1 + packet[j] > length)
  {
    hide Parse, Finish, Grown;
    ghost var p := packet[..];
    LabelStep(p, length, j, ptrs, nameEnd, out[..n], out.Length);
    var labelLen := packet[j];
    ok, n', left := false, n, false;
    if n != 0 && n + 1 >= out.Length { return; }
    var at := if n == 0 then 0 else n + 1;
    if at + labelLen >= out.Length { return; }
    CopyLabel(packet, beyond, j + 1, labelLen, out, n);
    assert packet[..] == p;
    assert j + 1 + labelLen <= length ==> packet[j + 1..j + 1 + labelLen] == p[j + 1..j + 1 + labelLen];
    ok, n', left := true, at + labelLen, j + 1 + labelLen > length;
    if left { FinishNone(nameEnd, out[..n'], out.Length); }
  }

  lemma FinishNone(nameEnd: int, out: seq<Byte>, cap: nat)
    ensures Finish(None, nameEnd, out, cap).None?
  {
  }

  /** The result from `j` on is the result after one turn of the loop; or there is none. */
  ghost predicate Continues(p: seq<Byte>, length: nat, j: nat, ptrs: nat, nameEnd: int, text: seq<Byte>, cap: nat,
                            ok: bool, j': nat, ptrs': nat,
                            nameEnd': int, text': seq<Byte>)
  {
    ptrs <= length <= |p| && ptrs' <= length &&
    var was := Finish(Parse(p, length, j, ptrs), nameEnd, text, cap);
    if ok then was == Finish(Parse(p, length, j', ptrs'), nameEnd', text', cap) else was.None?
  }

  lemma ContinuesNot(p: seq<Byte>, length: nat, j: nat, ptrs: nat, nameEnd: int, text: seq<Byte>, cap: nat)
    requires ptrs <= length <= |p|
    ensures Continues(p, length, j, ptrs, nameEnd, text, cap, j < length, j, ptrs, nameEnd, text)
  {
  }

  lemma ContinuesTurn(p: seq<Byte>, length: nat, j: nat, ptrs: nat, nameEnd: int, text: seq<Byte>, cap: nat, ok: bool,
                      j': nat, ptrs': nat,
                      nameEnd': int, text': seq<Byte>)
    requires Continues(p, length, j, ptrs, nameEnd, text, cap, ok, j', ptrs', nameEnd', text')
    ensures ptrs <= length <= |p| && ptrs' <= length
    ensures var was := Finish(Parse(p, length, j, ptrs), nameEnd, text, cap);
            if ok then was == Finish(Parse(p, length, j', ptrs'), nameEnd', text', cap) else was.None?
  {
  }

  /** The steps that end the parse, and the step along a pointer. */
  lemma OtherSteps(p: seq<Byte>, length: nat, j: nat, ptrs: nat, nameEnd: int, out: seq<Byte>, cap: nat)
    requires ptrs <= length <= |p|
    ensures var r := Finish(Parse(p, length, j, ptrs), nameEnd, out, cap);
            if j >= length then r.None?
            else if p[j] == 0 then r == if |out| >= cap then None
                 else Some((out, if nameEnd < 0 then j + 1 else nameEnd))
            else if p[j] >= 64 then
              if j + 1 >= length || Target(p[j], p[j + 1]) >= length || ptrs + 1 > length then r.None?
              else r == Finish(Parse(p, length, Target(p[j], p[j + 1]), ptrs + 1), if nameEnd < 0 then j + 2
                else nameEnd, out, cap)
            else true
  {
  }

  /** Whether a read leaves the packet, said by one turn of the loop and what comes after it. */
  ghost predicate LeavesStep(p: seq<Byte>, length: nat, j: nat, ptrs: nat, n: nat, cap: nat, left: bool, more: bool,
                             j': nat, ptrs': nat, n': nat)
  {
    ptrs <= length <= |p| && ptrs' <= length &&
    (Leaves(p, length, j, ptrs, n, cap) <==> left || (more && Leaves(p, length, j', ptrs', n', cap)))
  }

  lemma LeavesTurn(p: seq<Byte>, length: nat, j: nat, ptrs: nat, n: nat, cap: nat, left: bool, more: bool, j': nat,
                   ptrs': nat, n': nat)
    requires LeavesStep(p, length, j, ptrs, n, cap, left, more, j', ptrs', n')
    ensures ptrs <= length <= |p| && ptrs' <= length &&
            (Leaves(p, length, j, ptrs, n, cap) <==> left || (more && Leaves(p, length, j', ptrs', n', cap)))
  {
  }

  lemma LeavesNot(p: seq<Byte>, length: nat, j: nat, ptrs: nat, n: nat, cap: nat)
    requires ptrs <= length <= |p| && (j >= length || p[j] == 0)
    ensures LeavesStep(p, length, j, ptrs, n, cap, false, false, j, ptrs, n)
  {
  }

  lemma LeavesPointer(p: seq<Byte>, length: nat, j: nat, ptrs: nat, n: nat, cap: nat)
    requires ptrs <= length <= |p| && j < length && p[j] >= 64
    ensures if j + 1 < length && Target(p[j], p[j + 1]) < length && ptrs + 1 <= length
            then LeavesStep(p, length, j, ptrs, n, cap, false, true, Target(p[j], p[j + 1]), ptrs + 1, n)
            else LeavesStep(p, length, j, ptrs, n, cap, false, false, j, ptrs, n)
  {
  }

  lemma LeavesLabel(p: seq<Byte>, length: nat, j: nat, ptrs: nat, n: nat, cap: nat)
    requires ptrs <= length <= |p| && j < length && 0 < p[j] < 64
    ensures var next, longer := j + 1 + p[j], GrownLength(n, p[j]);
            if longer < cap then LeavesStep(p, length, j, ptrs, n, cap, next > length, true, next, ptrs, longer)
            else LeavesStep(p, length, j, ptrs, n, cap, false, false, next, ptrs, n)
  {
  }

  lemma GoalIs(p: seq<Byte>, length: nat, idx: nat, cap: nat)
    requires length <= |p|
    ensures var parsed := Parse(p, length, idx, 0);
            Finish(parsed, -1, [], cap) ==
            if parsed.Some? && |Join(parsed.value.0)| < cap then Some((Join(parsed.value.0), parsed.value.1)) else None
  {
    if Parse(p, length, idx, 0).Some? {
      ParseNonEmpty(p, length, idx, 0);
      AppendedJoin([], Parse(p, length, idx, 0).value.0);
    }
  }

  /** The result, in terms of the names that are there. */
  lemma GoalIsName(p: seq<Byte>, length: nat, idx: nat, cap: nat)
    requires length <= |p|
    ensures var goal := Finish(Parse(p, length, idx, 0), -1, [], cap);
            (goal.Some? <==> exists labels :: HasName(p, length, idx, labels) && |Join(labels)| < cap) &&
            (goal.Some? ==> goal.value.1 == EndOf(p, length, idx)) &&
            (goal.Some? ==> forall labels :: HasName(p, length, idx, labels) ==> goal.value.0 == Join(labels))
  {
    hide HasName, Parse, Finish, Join;
    GoalIs(p, length, idx, cap);
    forall labels
      ensures HasName(p, length, idx, labels) ==> Parse(p, length, idx, 0) == Some((labels, EndOf(p, length, idx)))
    {
      ParseIffNamed(p, length, idx, labels);
    }
    ParseIffNamed(p, length, idx, []);
  }

  /** A label is added to the text; if it does not fit, nothing will. */
  lemma LabelStep(p: seq<Byte>, length: nat, j: nat, ptrs: nat, nameEnd: int, out: seq<Byte>, cap: nat)
    requires ptrs <= length <= |p| && j < length && 0 < p[j] < 64
    ensures var was, next := Finish(Parse(p, length, j, ptrs), nameEnd, out, cap), j + 1 + p[j];
            if next > length then was.None? && Parse(p, length, next, ptrs).None?
            else
              var longer := Grown(out, p[j + 1..next]);
              was == Finish(Parse(p, length, next, ptrs), nameEnd, longer, cap) &&
              |longer| == GrownLength(|out|, p[j]) &&
              (|longer| >= cap ==> was.None?)
  {
    var next := j + 1 + p[j];
    if next <= length && Parse(p, length, next, ptrs).Some? {
      var rest, word := Parse(p, length, next, ptrs), p[j + 1..next];
      assert ([word] + rest.value.0)[1..] == rest.value.0;
      ParseNonEmpty(p, length, next, ptrs);
      AppendedJoin(Grown(out, word), rest.value.0);
    }
  }

  /** The dot and the bytes of one label, copied into the output. */
  method CopyLabel(packet: array<Byte>, beyond: nat -> Byte, from: nat, labelLen: nat, out: array<Byte>, n: nat)
    requires packet != out && 0 < labelLen && GrownLength(n, labelLen) < out.Length
    modifies out
    ensures from + labelLen <= packet.Length ==>
              out[..GrownLength(n, labelLen)] == Grown(old(out[..n]), packet[from..from + labelLen])
  {
    var at := 0;
    if n != 0 {
      out[n] := DOT;
      at := n + 1;
    }
    ghost var before := out[..at];
    assert n != 0 ==> before == old(out[..n]) + [DOT];
    for i := 0 to labelLen
      invariant from + labelLen <= packet.Length ==> out[..at] == before && out[at..at + i] == packet[from..from + i]
    {
      out[at + i] := if from + i < packet.Length then packet[from + i] else beyond(from + i);
      assert from + labelLen <= packet.Length ==> out[at..at + i + 1] == packet[from..from + i] + [packet[from + i]];
    }
    assert out[..at + labelLen] == out[..at] + out[at..at + labelLen];
  }
}
