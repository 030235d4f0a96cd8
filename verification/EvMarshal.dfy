/** Records written to a buffer one after another and read back. */
module EvMarshal {
  import opened Options
  import opened Bytes
  import opened EvTag
  import opened EvBuffer

  type Wild = (nat, Byte, nat) -> nat

  datatype Record = Record(tag: nat, data: seq<Byte>)

  ghost predicate Fits(r: Record)
  {
    r.tag < WORD && |r.data| < WORD
  }

  function Code(r: Record): seq<Byte>
    requires Fits(r)
  {
    TagCode(r.tag) + IntCode(|r.data|) + r.data
  }

  ghost function CodeAll(rs: seq<Record>): seq<Byte>
    requires forall i :: 0 <= i < |rs| ==> Fits(rs[i])
  {
    if rs == [] then [] else Code(rs[0]) + CodeAll(rs[1..])
  }

  /** A record's tag and the size of its data, and how many bytes these two take. */
  datatype Header = Header(tag: nat, size: nat, length: nat)

  function DecodeHeader(s: seq<Byte>, wild: Wild): (h: Option<Header>)
    ensures h.Some? ==> h.value.length <= |s|
  {
    match DecodeTag(s, wild)
    case None => None
    case Some(t) =>
      TagInside(s, wild);
      IntBound(s[t.length..]);
      match DecodeInt(s[t.length..])
      case None => None
      case Some(n) => Some(Header(t.value, n.value, t.length + n.length))
  }

  /** What is left when the header could not be read: the tag is gone if it could. */
  function AfterFailure(s: seq<Byte>, wild: Wild): seq<Byte>
  {
    match DecodeTag(s, wild)
    case None => s
    case Some(t) => TagInside(s, wild); s[t.length..]
  }

  lemma TagInside(s: seq<Byte>, wild: Wild)
    ensures var t := DecodeTag(s, wild); t.Some? ==> 1 <= t.value.length <= |s|
  {
    TagFromInside(s, 0, 0, wild);
  }

  lemma {:induction false} TagFromInside(s: seq<Byte>, i: nat, number: nat, wild: Wild)
    ensures var t := TagFrom(s, i, number, wild); t.Some? ==> i < t.value.length <= |s|
    decreases AsInt(|s|) - i
  {
    if i < AsInt(|s|) && i < |s| && s[i] >= 128 {
      TagFromInside(s, i + 1, TagBits(number, s[i], i, wild), wild);
    }
  }

  /** What is left when the header was to be read. */
  function AfterHeader(s: seq<Byte>, wild: Wild): seq<Byte>
  {
    var h := DecodeHeader(s, wild);
    if h.Some? then s[h.value.length..] else AfterFailure(s, wild)
  }

  /** Reads one record; the second part is what is left of the bytes. */
  function Unmarshalled(s: seq<Byte>, wild: Wild): (Option<Record>, seq<Byte>)
  {
    var h, left := DecodeHeader(s, wild), AfterHeader(s, wild);
    if h.None? || |left| < h.value.size then (None, left)
    else (Some(Record(h.value.tag, left[..h.value.size])), left[h.value.size..])
  }

  lemma HeaderRoundTrip(r: Record, rest: seq<Byte>, wild: Wild)
    requires Fits(r) && |Code(r) + rest| < 0x8000_0000
    ensures DecodeHeader(Code(r) + rest, wild) == Some(Header(r.tag, |r.data|, |TagCode(r.tag)| + |IntCode(|r.data|)|))
  {
    hide TagCode, IntCode, DecodeTag, DecodeInt, Packs, Nibbles;
    var t, n := TagCode(r.tag), IntCode(|r.data|);
    var s := Code(r) + rest;
    assert s == t + (n + (r.data + rest));
    TagRoundTrip(r.tag, n + (r.data + rest), wild);
    assert s[|t|..] == n + (r.data + rest);
    IntRoundTrip(|r.data|, n, r.data + rest);
  }

  /** A record is read back as it was written, and what follows it is left. */
  lemma RecordRoundTrip(r: Record, rest: seq<Byte>, wild: Wild)
    requires Fits(r) && |Code(r) + rest| < 0x8000_0000
    ensures Unmarshalled(Code(r) + rest, wild) == (Some(r), rest)
  {
    hide TagCode, IntCode, DecodeHeader, Packs, Nibbles;
    HeaderRoundTrip(r, rest, wild);
    var s, h := Code(r) + rest, |TagCode(r.tag)| + |IntCode(|r.data|)|;
    assert s[h..] == r.data + rest;
  }

  /** Reads `n` records one after another. */
  ghost function UnmarshalledAll(s: seq<Byte>, n: nat, wild: Wild): (Option<seq<Record>>, seq<Byte>)
  {
    if n == 0 then (Some([]), s)
    else
      var first := Unmarshalled(s, wild);
      if first.0.None? then (None, first.1)
      else
        var others := UnmarshalledAll(first.1, n - 1, wild);
        (if others.0.None? then None else Some([first.0.value] + others.0.value), others.1)
  }

  /** Any list of records of less than 2^31 bytes is read back as it was written, and only what follows it is left. */
  lemma {:induction false} ListRoundTrip(rs: seq<Record>, rest: seq<Byte>, wild: Wild)
    requires forall i :: 0 <= i < |rs| ==> Fits(rs[i])
    requires |CodeAll(rs) + rest| < 0x8000_0000
    ensures UnmarshalledAll(CodeAll(rs) + rest, |rs|, wild) == (Some(rs), rest)
  {
    hide Code, Unmarshalled;
    if rs == [] {
      assert CodeAll(rs) + rest == rest;
    } else {
      var others := CodeAll(rs[1..]) + rest;
      assert CodeAll(rs) + rest == Code(rs[0]) + others;
      RecordRoundTrip(rs[0], others, wild);
      ListRoundTrip(rs[1..], rest, wild);
      assert rs == [rs[0]] + rs[1..];
    }
  }

  /** No record can be read in a buffer whose length is not positive as a signed integer of 32 bits; these are the
      lengths whose lowest 32 bits are zero or make 2^31 and more. */
  lemma TooLong(s: seq<Byte>, wild: Wild)
    ensures AsInt(|s|) <= 0 <==> |s| % WORD == 0 || |s| % WORD >= 0x8000_0000
    ensures AsInt(|s|) <= 0 ==> Unmarshalled(s, wild) == (None, s)
  {
  }

  // ----- looking ahead and skipping -----

  /** The length of the first record, in 32 bits. */
  function PeekedLength(s: seq<Byte>, wild: Wild): Option<nat>
  {
    match DecodeHeader(s, wild)
    case None => None
    case Some(h) => Some((h.size + h.length) % WORD)
  }

  /** Whether there was a record to skip, and what is left then. */
  function Consumed(s: seq<Byte>, wild: Wild): (bool, seq<Byte>)
  {
    var h, left := DecodeHeader(s, wild), AfterHeader(s, wild);
    if h.None? then (false, left)
    else (true, if h.value.size <= |left| then left[h.value.size..] else [])
  }

  /** There is a length to see ahead if and only if there is a record to skip; and it is what is skipped if and only if
      the bytes are as many as the header says. */
  lemma PeekIsConsumed(s: seq<Byte>, wild: Wild)
    requires |s| < 0x8000_0000
    ensures PeekedLength(s, wild).Some? <==> Consumed(s, wild).0
    ensures DecodeHeader(s, wild).Some? ==>
              var h := DecodeHeader(s, wild).value;
              PeekedLength(s, wild).Some? &&
              (PeekedLength(s, wild).value == |s| - |Consumed(s, wild).1| <==> h.length + h.size <= |s|)
  {
    if DecodeHeader(s, wild).Some? { HeaderBound(s, wild); }
  }

  lemma HeaderBound(s: seq<Byte>, wild: Wild)
    requires DecodeHeader(s, wild).Some?
    ensures var h := DecodeHeader(s, wild).value; h.size < WORD && 2 <= h.length <= |s|
  {
    TagInside(s, wild);
    IntBound(s[DecodeTag(s, wild).value.length..]);
  }

  /** A record cut short: two bytes are skipped, but seven were seen ahead. */
  lemma CutShort(wild: Wild)
    ensures var s: seq<Byte> := [0, 5];
            PeekedLength(s, wild) == Some(7) && Consumed(s, wild) == (true, []) && Unmarshalled(s, wild) == (None, [])
  {
    var s: seq<Byte> := [0, 5];
    assert TagFrom(s, 0, 0, wild) == Some(Decoded(0, 1));
    assert s[1..] == [5];
    var t: seq<Byte> := [5];
    assert NumberAt(t, 2, 1) == 0 && NumberAt(t, 1, 1) == 5;
    assert DecodeInt(t) == Some(Decoded(5, 1));
    assert DecodeHeader(s, wild) == Some(Header(0, 5, 2));
  }

  // ----- the operations on buffers -----

  /** The nibbles written so far: the first `done` digits, and zeros. */
  ghost predicate Written(data: seq<Byte>, digits: seq<nat>, done: nat)
  {
    |data| == 5 && done <= |digits| <= 8 &&
    forall p :: 0 <= p < 10 ==> NibbleAt(data, p) == if 1 <= p <= done then digits[p - 1] else 0
  }

  lemma WrittenOne(data: seq<Byte>, digits: seq<nat>, done: nat, b: Byte)
    requires Written(data, digits, done) && done < |digits| && digits[done] < 16
    requires var i := (done + 1) / 2;
             b == if (done + 1) % 2 == 1 then data[i] / 16 * 16 + digits[done] else data[i] % 16 + digits[done] * 16
    ensures Written(data[(done + 1) / 2 := b], digits, done + 1)
  {
    var i := (done + 1) / 2;
    var data' := data[i := b];
    forall p | 0 <= p < 10 ensures NibbleAt(data', p) == if 1 <= p <= done + 1 then digits[p - 1] else 0 {
      assert p / 2 != i ==> NibbleAt(data', p) == NibbleAt(data, p);
      assert NibbleAt(data, p) == if 1 <= p <= done then digits[p - 1] else 0;
      if p / 2 == i {
        assert p == 2 * i || p == 2 * i + 1;
        assert b / 16 < 16 && b % 16 < 16;
      }
    }
  }

  /** With the count in the first nibble, the bytes are the code. */
  lemma WrittenAll(data: seq<Byte>, n: nat, count: Byte)
    requires n < WORD && Written(data, Digits(n), |Digits(n)|) && count == (if n < 16 then 0 else |Digits(n)| - 1)
    ensures data[0] % 16 + count * 16 < 256
    ensures Packs(data[0 := data[0] % 16 + count * 16][..(|Digits(n)| + 2) / 2], Nibbles(n))
  {
    var data' := data[0 := data[0] % 16 + count * 16];
    var code := data'[..(|Digits(n)| + 2) / 2];
    forall p | 0 <= p < 2 * |code| ensures NibbleAt(code, p) == Get(Nibbles(n), p) {
      assert NibbleAt(code, p) == NibbleAt(data', p);
      assert NibbleAt(data, p) == if 1 <= p <= |Digits(n)| then Digits(n)[p - 1] else 0;
    }
  }

  /** The digits from `done` on are those of the number. */
  ghost predicate ToWrite(digits: seq<nat>, done: nat, number: nat)
  {
    done <= |digits| && digits[done..] == Digits(number)
  }

  lemma ToWriteOne(digits: seq<nat>, done: nat, number: nat)
    requires ToWrite(digits, done, number) && number > 0
    ensures done < |digits| && digits[done] == number % 16 && ToWrite(digits, done + 1, number / 16)
  {
    assert digits[done..][0] == digits[done] && digits[done..][1..] == digits[done + 1..];
  }

  lemma StartWriting(n: nat)
    requires n < WORD
    ensures ToWrite(Digits(n), 0, n) && Written([0, 0, 0, 0, 0], Digits(n), 0)
    ensures if n == 0 then |Digits(n)| == 0 else if n < 16 then |Digits(n)| == 1 else |Digits(n)| >= 2
  {
    DigitsCount(n, 8);
    SmallDigits(n);
    assert Digits(n)[0..] == Digits(n);
  }

  lemma WrittenLength(data: seq<Byte>, digits: seq<nat>, done: nat)
    requires Written(data, digits, done)
    ensures |data| == 5 && done <= |digits| <= 8
  {
  }

  lemma ToWriteNone(digits: seq<nat>, done: nat)
    requires ToWrite(digits, done, 0)
    ensures done == |digits|
  {
  }

  method IntBytes(n: nat) returns (code: seq<Byte>)
    requires n < WORD
    ensures code == IntCode(n)
  {
    hide Digits, Written, ToWrite, Nibbles, Packs, IntCode;
    ghost var digits := Digits(n);
    StartWriting(n);
    var data: seq<Byte> := [0, 0, 0, 0, 0];
    var number, off := n, 1;
    while number != 0
      invariant off >= 1 && ToWrite(digits, off - 1, number) && Written(data, digits, off - 1)
      decreases number
    {
      ToWriteOne(digits, off - 1, number);
      WrittenLength(data, digits, off - 1);
      var b: int := if off % 2 == 1 then data[off / 2] / 16 * 16 + number % 16
                    else data[off / 2] % 16 + number % 16 * 16;
      WrittenOne(data, digits, off - 1, b);
      data := data[off / 2 := b];
      number := number / 16;
      off := off + 1;
    }
    ToWriteNone(digits, off - 1);
    WrittenLength(data, digits, off - 1);
    var nibbles := if off > 2 then off - 2 else 0;
    WrittenAll(data, n, nibbles);
    data := data[0 := data[0] % 16 + nibbles * 16];
    code := data[..(off + 1) / 2];
    PacksOnce(code, IntCode(n), Nibbles(n));
  }

  lemma TagStep(t: nat, lower: Byte)
    requires lower == t % 128 + if t / 128 != 0 then 128 else 0
    ensures TagCode(t) == [lower] + if t / 128 != 0 then TagCode(t / 128) else []
  {
  }

  lemma Regroup(a: seq<Byte>, b: seq<Byte>, c: seq<Byte>)
    ensures a + (b + c) == a + b + c
  {
  }

  method TagBytes(tag: nat) returns (code: seq<Byte>)
    ensures code == TagCode(tag)
  {
    hide TagCode;
    code := [];
    var t, more := tag, true;
    ghost var rest := TagCode(tag);
    while more
      invariant code + rest == TagCode(tag) && rest == if more then TagCode(t) else []
      decreases more, t
    {
      ghost var t0 := t;
      var lower: int := t % 128;
      t := t / 128;
      if t != 0 { lower := lower + 128; }
      more := t != 0;
      TagStep(t0, lower);
      rest := if more then TagCode(t) else [];
      Regroup(code, [lower], rest);
      code := code + [lower];
    }
  }

  method ReadTag(s: seq<Byte>, wild: Wild) returns (r: Option<Decoded>)
    ensures r == DecodeTag(s, wild)
  {
    var len := AsInt(|s|);
    var number: nat, count: nat := 0, 0;
    while count < len
      invariant TagFrom(s, count, number, wild) == DecodeTag(s, wild)
      decreases len - count
    {
      var lower := s[count];
      number := TagBits(number, lower, count, wild);
      count := count + 1;
      if lower < 128 { return Some(Decoded(number, count)); }
    }
    r := None;
  }

  method ReadInt(s: seq<Byte>) returns (r: Option<Decoded>)
    ensures r == DecodeInt(s)
  {
    var len := AsInt(|s|);
    if len == 0 || s == [] { return None; }
    var nibbles := s[0] / 16 + 1;
    if nibbles > 8 || nibbles / 2 + 1 > len { return None; }
    len := nibbles / 2 + 1;
    ghost var k := nibbles;
    var number := 0;
    while nibbles > 0
      invariant 0 <= nibbles <= k && number == NumberAt(s, nibbles + 1, k)
    {
      number := number * 16 + NibbleAt(s, nibbles);
      nibbles := nibbles - 1;
    }
    r := Some(Decoded(number, len));
  }

  /** Writes a record at the end of a buffer. */
  method Marshal(evbuf: Buffer, r: Record)
    requires evbuf.Valid() && Fits(r)
    modifies evbuf, evbuf.memory
    ensures evbuf.Valid() && evbuf.Contents() == old(evbuf.Contents()) + Code(r) &&
            (evbuf.memory == old(evbuf.memory) || fresh(evbuf.memory))
  {
    hide TagCode, IntCode, Packs;
    ghost var was := evbuf.Contents();
    var tag := TagBytes(r.tag);
    var _ := evbuf.Add(tag, true);
    var size := IntBytes(|r.data|);
    var _ := evbuf.Add(size, true);
    var _ := evbuf.Add(r.data, true);
    Regroup(was, tag, size);
    Regroup(was, tag + size, r.data);
  }

  /** Reads a tag, and takes it from the buffer. */
  method TakeTag(evbuf: Buffer, wild: Wild) returns (r: Option<Decoded>)
    requires evbuf.Valid()
    modifies evbuf
    ensures evbuf.Valid() && evbuf.memory == old(evbuf.memory) && r == DecodeTag(old(evbuf.Contents()), wild)
    ensures evbuf.Contents() == AfterFailure(old(evbuf.Contents()), wild)
  {
    hide DecodeTag;
    TagInside(evbuf.Contents(), wild);
    r := ReadTag(evbuf.memory[evbuf.start..evbuf.start + evbuf.off], wild);
    if r.Some? { evbuf.Drain(r.value.length); }
  }

  /** What is left when an integer was to be read. */
  function AfterInt(s: seq<Byte>): seq<Byte>
  {
    IntBound(s);
    var n := DecodeInt(s);
    if n.Some? then s[n.value.length..] else s
  }

  /** Reads an integer, and takes it from the buffer. */
  method TakeInt(evbuf: Buffer) returns (r: Option<Decoded>)
    requires evbuf.Valid()
    modifies evbuf
    ensures evbuf.Valid() && evbuf.memory == old(evbuf.memory) && r == DecodeInt(old(evbuf.Contents()))
    ensures evbuf.Contents() == AfterInt(old(evbuf.Contents()))
  {
    hide DecodeInt;
    IntBound(evbuf.Contents());
    r := ReadInt(evbuf.memory[evbuf.start..evbuf.start + evbuf.off]);
    if r.Some? { evbuf.Drain(r.value.length); }
  }

  /** A header is a tag and then an integer. */
  lemma HeaderParts(s: seq<Byte>, wild: Wild)
    ensures var t, left := DecodeTag(s, wild), AfterFailure(s, wild);
            if t.None? || DecodeInt(left).None? then DecodeHeader(s, wild) == None && AfterHeader(s, wild) == left
            else var n := DecodeInt(left).value;
                 DecodeHeader(s, wild) == Some(Header(t.value.value, n.value, t.value.length + n.length)) &&
                 AfterHeader(s, wild) == AfterInt(left)
  {
    hide DecodeTag, DecodeInt;
    TagInside(s, wild);
    var t := DecodeTag(s, wild);
    if t.Some? {
      IntBound(s[t.value.length..]);
      var n := DecodeInt(s[t.value.length..]);
      if n.Some? { assert s[t.value.length..][n.value.length..] == s[t.value.length + n.value.length..]; }
    }
  }

  /** An integer that could not be read leaves the bytes. */
  lemma AfterNoInt(s: seq<Byte>)
    requires DecodeInt(s).None?
    ensures AfterInt(s) == s
  {
  }

  /** Reads the header of a record, and takes it from the buffer. */
  method TakeHeader(evbuf: Buffer, wild: Wild) returns (h: Option<Header>)
    requires evbuf.Valid()
    modifies evbuf
    ensures evbuf.Valid() && evbuf.memory == old(evbuf.memory) && h == DecodeHeader(old(evbuf.Contents()), wild)
    ensures evbuf.Contents() == AfterHeader(old(evbuf.Contents()), wild)
  {
    hide DecodeTag, DecodeInt, AfterInt, AfterFailure, AfterHeader, DecodeHeader;
    HeaderParts(evbuf.Contents(), wild);
    var t := TakeTag(evbuf, wild);
    if t.None? { return None; }
    ghost var left := evbuf.Contents();
    var n := TakeInt(evbuf);
    if n.None? {
      AfterNoInt(left);
      return None;
    }
    h := Some(Header(t.value.value, n.value.value, t.value.length + n.value.length));
  }

  /** The data of the record does not fit, and there is no more memory. */
  ghost predicate NoRoom(src: Buffer, dst: Buffer, wild: Wild, enough: bool)
    requires src.Valid() && dst.Valid()
    reads src, src.memory, dst
  {
    var r := Unmarshalled(src.Contents(), wild).0;
    !enough && r.Some? && dst.totallen < dst.misalign + dst.off + |r.value.data| && dst.misalign < |r.value.data|
  }

  /** Reads a record from one buffer and adds its data to another. */
  method Unmarshal(src: Buffer, dst: Buffer, wild: Wild, enough: bool) returns (tag: Option<nat>)
    requires src.Valid() && dst.Valid() && src != dst && src.memory != dst.memory
    modifies src, dst, dst.memory
    ensures src.Valid() && dst.Valid()
    ensures tag.None? <==> Unmarshalled(old(src.Contents()), wild).0.None? || old(NoRoom(src, dst, wild, enough))
    ensures tag.None? ==>
              src.Contents() == AfterHeader(old(src.Contents()), wild) && dst.Contents() == old(dst.Contents())
    ensures tag.Some? ==>
              var (r, left) := Unmarshalled(old(src.Contents()), wild);
              src.Contents() == left && tag.value == r.value.tag && dst.Contents() == old(dst.Contents()) + r.value.data
  {
    hide DecodeHeader, AfterHeader;
    var h := TakeHeader(src, wild);
    if h.None? || src.off < h.value.size { return None; }
    var data := src.memory[src.start..src.start + h.value.size];
    assert data == src.Contents()[..h.value.size];
    var r := dst.Add(data, enough);
    if r == -1 { return None; }
    src.Drain(h.value.size);
    tag := Some(h.value.tag);
  }

  /** The length of the first record; nothing is taken. */
  method PeekLength(evbuf: Buffer, wild: Wild) returns (r: Option<nat>)
    requires evbuf.Valid()
    ensures r == PeekedLength(evbuf.Contents(), wild)
  {
    hide DecodeTag, DecodeInt;
    var s := evbuf.memory[evbuf.start..evbuf.start + evbuf.off];
    var t := ReadTag(s, wild);
    if t.None? { return None; }
    TagInside(s, wild);
    var n := ReadInt(s[t.value.length..]);
    if n.None? { return None; }
    r := Some((n.value.value + n.value.length + t.value.length) % WORD);
  }

  /** Skips a record. */
  method Consume(evbuf: Buffer, wild: Wild) returns (ok: bool)
    requires evbuf.Valid()
    modifies evbuf
    ensures evbuf.Valid() && (ok, evbuf.Contents()) == Consumed(old(evbuf.Contents()), wild)
  {
    hide DecodeHeader, AfterHeader;
    var h := TakeHeader(evbuf, wild);
    if h.None? { return false; }
    evbuf.Drain(h.value.size);
    ok := true;
  }
}
