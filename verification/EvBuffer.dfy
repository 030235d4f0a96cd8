/** Buffers: bytes are added at the end and drained from the front of one piece of memory. */
module EvBuffer {
  import opened Options
  import opened Bytes

  /** The pattern stands at `i`. */
  ghost predicate StandsAt(s: seq<Byte>, what: seq<Byte>, i: int)
  {
    0 <= i && i + |what| <= |s| && s[i..i + |what|] == what
  }

  class Buffer {
    /** The memory, and where the data begins in it. */
    var memory: array<Byte>
    var start: nat
    var misalign: nat
    var totallen: nat
    var off: nat

    ghost predicate Valid()
      reads this
    {
      start == misalign && misalign + off <= totallen == memory.Length
    }

    ghost function Contents(): seq<Byte>
      requires Valid()
      reads this, memory
    {
      memory[start..start + off]
    }

    constructor ()
      ensures Valid() && fresh(memory) && Contents() == []
    {
      memory := new Byte[0];
      start, misalign, totallen, off := 0, 0, 0, 0;
    }

    /** Moves the data to the beginning of the memory. */
    method Align()
      requires Valid()
      modifies this, memory
      ensures Valid() && memory == old(memory) && misalign == 0 && off == old(off) && Contents() == old(Contents())
    {
      forall k | 0 <= k < off { memory[k] := memory[start + k]; }
      start := 0;
      misalign := 0;
    }

    /** Makes room for more bytes; `enough` says whether there is more memory. */
    method Expand(datlen: nat, enough: bool) returns (r: int)
      requires Valid()
      modifies this, memory
      ensures Valid() && (memory == old(memory) || fresh(memory)) && Contents() == old(Contents())
      ensures r == 0 || r == -1
      ensures r == 0 ==> misalign + off + datlen <= totallen
      ensures r == -1 <==> old(totallen < misalign + off + datlen && misalign < datlen) && !enough
    {
      var need := misalign + off + datlen;
      if totallen >= need { return 0; }
      if misalign >= datlen {
        Align();
      } else {
        var length := totallen;
        if length < 256 { length := 256; }
        while length < need
          invariant 256 <= length && totallen <= length
          decreases need - length
        {
          length := length * 2;
        }
        if start != 0 { Align(); }
        if !enough { return -1; }
        Grow(length);
      }
      r := 0;
    }

    /** The data moves to a larger piece of memory. */
    method Grow(length: nat)
      requires Valid() && start == 0 && totallen <= length
      modifies this
      ensures Valid() && fresh(memory) && off == old(off) && start == 0 && totallen == length &&
              Contents() == old(Contents())
    {
      var larger := new Byte[length];
      forall k | 0 <= k < totallen { larger[k] := memory[k]; }
      memory := larger;
      totallen := length;
    }

    /** Adding is appending. */
    method Add(data: seq<Byte>, enough: bool) returns (r: int)
      requires Valid()
      modifies this, memory
      ensures Valid() && (memory == old(memory) || fresh(memory))
      ensures r == 0 || r == -1
      ensures r == -1 <==> old(totallen < misalign + off + |data| && misalign < |data|) && !enough
      ensures Contents() == if r == 0 then old(Contents()) + data else old(Contents())
    {
      var need := misalign + off + |data|;
      if totallen < need {
        r := Expand(|data|, enough);
        if r == -1 { return; }
      }
      Append(data);
      r := 0;
    }

    method Append(data: seq<Byte>)
      requires Valid() && misalign + off + |data| <= totallen
      modifies this, memory
      ensures Valid() && memory == old(memory) && Contents() == old(Contents()) + data
    {
      forall k | 0 <= k < |data| { memory[start + off + k] := data[k]; }
      off := off + |data|;
    }

    /** Draining is dropping. */
    method Drain(len: nat)
      requires Valid()
      modifies this
      ensures Valid() && memory == old(memory) && Contents() == if len <= old(off) then old(Contents())[len..] else []
    {
      if len >= off {
        off := 0;
        start := 0;
        misalign := 0;
        return;
      }
      start := start + len;
      misalign := misalign + len;
      off := off - len;
    }

    /** Removing is taking and then dropping. */
    method Remove(datlen: nat) returns (data: seq<Byte>)
      requires Valid()
      modifies this
      ensures Valid() && memory == old(memory) && |data| == (if datlen <= old(off) then datlen else old(off))
      ensures data + Contents() == old(Contents())
    {
      var nread := datlen;
      if nread >= off { nread := off; }
      data := memory[start..start + nread];
      Drain(nread);
    }

    /** Moves everything from the other buffer to the end of this one. */
    method AddBuffer(inbuf: Buffer, enough: bool) returns (r: int)
      requires Valid() && inbuf.Valid() && inbuf != this && inbuf.memory != memory
      modifies this, memory, inbuf
      ensures Valid() && inbuf.Valid() && inbuf.memory != memory
      ensures r == 0 || r == -1
      ensures r == -1 <==> old(off > 0 && totallen < misalign + off + inbuf.off && misalign < inbuf.off) && !enough
      ensures r == -1 ==> Contents() == old(Contents()) && inbuf.Contents() == old(inbuf.Contents())
      ensures r == 0 ==> Contents() == old(Contents()) + old(inbuf.Contents()) && inbuf.Contents() == []
    {
      if off == 0 {
        memory, inbuf.memory := inbuf.memory, memory;
        start, inbuf.start := inbuf.start, start;
        misalign, inbuf.misalign := inbuf.misalign, misalign;
        totallen, inbuf.totallen := inbuf.totallen, totallen;
        off, inbuf.off := inbuf.off, off;
        return 0;
      }
      r := Add(inbuf.memory[inbuf.start..inbuf.start + inbuf.off], enough);
      if r == 0 { inbuf.Drain(inbuf.off); }
    }

    /** The first place of the pattern's first byte, from `search` on. */
    method FindByte(b: Byte, search: nat) returns (p: nat)
      requires Valid() && search <= off
      ensures search <= p <= off && (p < off ==> Contents()[p] == b) &&
              forall k :: search <= k < p ==> Contents()[k] != b
    {
      p := search;
      while p < off && memory[start + p] != b
        invariant search <= p <= off && forall k :: search <= k < p ==> Contents()[k] != b
      {
        p := p + 1;
      }
    }

    /** Finds the leftmost place of a pattern that is not empty. */
    method Find(what: seq<Byte>) returns (r: Option<nat>)
      requires Valid() && what != []
      ensures r.Some? ==> StandsAt(Contents(), what, r.value) && AbsentBefore(Contents(), what, r.value)
      ensures r.None? ==> AbsentBefore(Contents(), what, off)
    {
      hide StandsAt, AbsentBefore;
      var search: nat := 0;
      AbsentNone(Contents(), what);
      while search < off
        invariant search <= off && AbsentBefore(Contents(), what, search)
      {
        var p := FindByte(what[0], search);
        AbsentFurther(Contents(), what, search, p);
        if p + |what| > off {
          AbsentAtEnd(Contents(), what, p);
          return None;
        }
        SliceOfSlice(memory[..], start, off, p, |what|);
        if memory[start + p..start + p + |what|] == what {
          StandsHere(Contents(), what, p);
          return Some(p);
        }
        AbsentHere(Contents(), what, p);
        search := p + 1;
      }
      r := None;
    }
  }

  /** The pattern stands nowhere before `n`. */
  ghost predicate AbsentBefore(s: seq<Byte>, what: seq<Byte>, n: nat)
  {
    forall i :: 0 <= i < n ==> !StandsAt(s, what, i)
  }

  lemma AbsentNone(s: seq<Byte>, what: seq<Byte>)
    ensures AbsentBefore(s, what, 0)
  {
  }

  /** The pattern cannot stand where its first byte does not. */
  lemma AbsentFurther(s: seq<Byte>, what: seq<Byte>, i: nat, j: nat)
    requires AbsentBefore(s, what, i) && what != [] && j <= |s| && forall k :: i <= k < j ==> s[k] != what[0]
    ensures AbsentBefore(s, what, j)
  {
    forall k | i <= k < j ensures !StandsAt(s, what, k) {
      assert k + |what| <= |s| ==> s[k..k + |what|][0] == s[k];
    }
  }

  lemma AbsentAtEnd(s: seq<Byte>, what: seq<Byte>, p: nat)
    requires AbsentBefore(s, what, p) && p + |what| > |s|
    ensures AbsentBefore(s, what, |s|)
  {
  }

  lemma AbsentHere(s: seq<Byte>, what: seq<Byte>, p: nat)
    requires AbsentBefore(s, what, p) && p + |what| <= |s| && s[p..p + |what|] != what
    ensures AbsentBefore(s, what, p + 1)
  {
  }

  lemma StandsHere(s: seq<Byte>, what: seq<Byte>, p: nat)
    requires p + |what| <= |s| && s[p..p + |what|] == what
    ensures StandsAt(s, what, p)
  {
  }

  lemma SliceOfSlice(m: seq<Byte>, start: nat, off: nat, p: nat, n: nat)
    requires start + off <= |m| && p + n <= off
    ensures m[start..start + off][p..p + n] == m[start + p..start + p + n]
  {
    var a, b := m[start..start + off][p..p + n], m[start + p..start + p + n];
    forall k | 0 <= k < n ensures a[k] == b[k] {
      assert a[k] == m[start..start + off][p + k];
    }
  }
}
