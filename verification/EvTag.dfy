/** Tagged records: a tag and a length, both of variable size, and then the data. */
module EvTag {
  import opened Options
  import opened Bytes

  /** What was read, and how many bytes it took. */
  datatype Decoded = Decoded(value: nat, length: nat)

  const WORD: nat := 0x1_0000_0000

  /** A length stored in a signed integer of 32 bits. */
  function AsInt(n: nat): int
  {
    var m := n % WORD;
    if m < 0x8000_0000 then m else m - WORD
  }

  // ----- integers: a nibble with the number of digits less one, and then the digits, the least first -----

  function Digits(n: nat): seq<nat>
  {
    if n == 0 then [] else [n % 16] + Digits(n / 16)
  }

  function ValueOf(digits: seq<nat>): nat
  {
    if digits == [] then 0 else digits[0] + 16 * ValueOf(digits[1..])
  }

  function Nibbles(n: nat): seq<nat>
  {
    [if n < 16 then 0 else |Digits(n)| - 1] + Digits(n)
  }

  function Get(nibbles: seq<nat>, p: nat): nat
  {
    if p < |nibbles| then nibbles[p] else 0
  }

  /** Two nibbles make a byte, the first one in the high half. */
  ghost predicate Packs(bytes: seq<Byte>, nibbles: seq<nat>)
  {
    |bytes| == (|nibbles| + 1) / 2 && forall p :: 0 <= p < 2 * |bytes| ==> NibbleAt(bytes, p) == Get(nibbles, p)
  }

  function NibbleAt(bytes: seq<Byte>, p: nat): nat
    requires p / 2 < |bytes|
  {
    if p % 2 == 1 then bytes[p / 2] % 16 else bytes[p / 2] / 16
  }

  lemma {:induction false} DigitsValue(n: nat)
    ensures ValueOf(Digits(n)) == n && (forall i :: 0 <= i < |Digits(n)| ==> Digits(n)[i] < 16) &&
            (n > 0 <==> Digits(n) != [])
  {
    if n > 0 {
      DigitsValue(n / 16);
      assert Digits(n)[1..] == Digits(n / 16);
    }
  }

  /** A number below 16 to the k has at most k digits. */
  lemma {:induction false} DigitsCount(n: nat, k: nat)
    requires n < Pow16(k)
    ensures |Digits(n)| <= k
  {
    if n > 0 && k > 0 {
      DigitsCount(n / 16, k - 1);
    }
  }

  function Pow16(k: nat): nat
  {
    if k == 0 then 1 else 16 * Pow16(k - 1)
  }

  /** The number whose digits are the nibbles from `j` to `k`. */
  function NumberAt(bytes: seq<Byte>, j: nat, k: nat): nat
    requires k / 2 < |bytes|
    decreases k + 1 - j
  {
    if j > k then 0 else NibbleAt(bytes, j) + 16 * NumberAt(bytes, j + 1, k)
  }

  function DecodeInt(s: seq<Byte>): Option<Decoded>
  {
    var len := AsInt(|s|);
    if len == 0 || s == [] then None
    else
      var k := s[0] / 16 + 1;
      if k > 8 || k / 2 + 1 > len then None else Some(Decoded(NumberAt(s, 1, k), k / 2 + 1))
  }

  lemma {:induction false} NumberIsValue(bytes: seq<Byte>, digits: seq<nat>, j: nat)
    requires 1 <= j <= |digits| + 1 && |digits| / 2 < |bytes| &&
             forall p :: 1 <= p <= |digits| ==> NibbleAt(bytes, p) == digits[p - 1]
    ensures NumberAt(bytes, j, |digits|) == ValueOf(digits[j - 1..])
    decreases |digits| + 1 - j
  {
    if j <= |digits| {
      NumberIsValue(bytes, digits, j + 1);
      assert digits[j - 1..][0] == digits[j - 1] && digits[j - 1..][1..] == digits[j..];
    }
  }

  /** How many nibbles the decoder reads. */
  function DigitCount(n: nat): nat
  {
    if n < 16 then 1 else |Digits(n)|
  }

  lemma CodeFacts(n: nat, code: seq<Byte>, rest: seq<Byte>)
    requires n < WORD && Packs(code, Nibbles(n))
    ensures var k := DigitCount(n); k <= 8 && |code| == k / 2 + 1 && code[0] / 16 == k - 1
    ensures forall p :: 1 <= p <= DigitCount(n) ==> NibbleAt(code + rest, p) == Get(Digits(n), p - 1)
  {
    DigitsCount(n, 8);
    SmallDigits(n);
    assert NibbleAt(code, 0) == Nibbles(n)[0];
    forall p | 1 <= p <= DigitCount(n) ensures NibbleAt(code + rest, p) == Get(Digits(n), p - 1) {
      assert NibbleAt(code + rest, p) == NibbleAt(code, p);
    }
  }

  lemma NumberRead(n: nat, s: seq<Byte>)
    requires DigitCount(n) / 2 < |s| && forall p :: 1 <= p <= DigitCount(n) ==> NibbleAt(s, p) == Get(Digits(n), p - 1)
    ensures NumberAt(s, 1, DigitCount(n)) == n
  {
    DigitsValue(n);
    SmallDigits(n);
    if n == 0 {
      assert NumberAt(s, 2, 1) == 0;
    } else {
      NumberIsValue(s, Digits(n), 1);
      assert Digits(n)[0..] == Digits(n);
    }
  }

  /** Every 32-bit integer is read back as it was written, whatever follows it. */
  lemma IntRoundTrip(n: nat, code: seq<Byte>, rest: seq<Byte>)
    requires n < WORD && Packs(code, Nibbles(n)) && |code + rest| < 0x8000_0000
    ensures DecodeInt(code + rest) == Some(Decoded(n, |code|))
  {
    hide Packs, Nibbles, DigitCount, Get, NumberAt, NibbleAt;
    CodeFacts(n, code, rest);
    NumberRead(n, code + rest);
  }

  lemma SmallDigits(n: nat)
    ensures |Digits(n)| == if n == 0 then 0 else 1 + |Digits(n / 16)|
    ensures 0 < n < 16 ==> |Digits(n)| == 1
    ensures n >= 16 ==> |Digits(n)| >= 2
  {
    if 0 < n < 16 { assert Digits(n / 16) == []; }
  }

  ghost predicate Small(nibbles: seq<nat>)
  {
    forall i :: 0 <= i < |nibbles| ==> nibbles[i] < 16
  }

  lemma NibblesSmall(n: nat)
    requires n < WORD
    ensures Small(Nibbles(n))
  {
    DigitsValue(n);
    DigitsCount(n, 8);
    SmallDigits(n);
  }

  function ByteAt(nibbles: seq<nat>, i: nat): (b: Byte)
    requires Small(nibbles)
    ensures b / 16 == Get(nibbles, 2 * i) && b % 16 == Get(nibbles, 2 * i + 1)
  {
    Get(nibbles, 2 * i) * 16 + Get(nibbles, 2 * i + 1)
  }

  function Pack(nibbles: seq<nat>): (code: seq<Byte>)
    requires Small(nibbles)
    ensures Packs(code, nibbles)
  {
    seq((|nibbles| + 1) / 2, i requires i >= 0 => ByteAt(nibbles, i))
  }

  /** The code of an integer. */
  function IntCode(n: nat): (code: seq<Byte>)
    requires n < WORD
    ensures Packs(code, Nibbles(n))
  {
    NibblesSmall(n);
    Pack(Nibbles(n))
  }

  lemma PacksOnce(a: seq<Byte>, b: seq<Byte>, nibbles: seq<nat>)
    requires Packs(a, nibbles) && Packs(b, nibbles)
    ensures a == b
  {
    forall i | 0 <= i < |a| ensures a[i] == b[i] {
      assert NibbleAt(a, 2 * i) == NibbleAt(b, 2 * i) && NibbleAt(a, 2 * i + 1) == NibbleAt(b, 2 * i + 1);
    }
  }

  /** The number after `i` shifts to the right by a digit. */
  function Shift16(n: nat, i: nat): nat
  {
    if i == 0 then n else Shift16(n / 16, i - 1)
  }

  lemma {:induction false} DigitAt(n: nat, i: nat)
    requires i <= |Digits(n)|
    ensures if i < |Digits(n)| then Shift16(n, i) > 0 && Digits(n)[i] == Shift16(n, i) % 16 else Shift16(n, i) == 0
  {
    if i > 0 { DigitAt(n / 16, i - 1); }
  }

  /** How many digits there are: as few as do, but one at least. */
  lemma CountIsLeast(n: nat)
    ensures var k := DigitCount(n); Shift16(n, k) == 0 && (k > 1 ==> Shift16(n, k - 1) > 0)
  {
    SmallDigits(n);
    if n > 0 {
      DigitAt(n, |Digits(n)|);
      DigitAt(n, |Digits(n)| - 1);
    }
  }

  lemma DigitGot(n: nat, i: nat)
    requires i < DigitCount(n)
    ensures Get(Digits(n), i) == Shift16(n, i) % 16
  {
    SmallDigits(n);
    if n > 0 { DigitAt(n, i); }
  }

  /** The half byte where digit `i` of a code is. */
  function HalfAt(code: seq<Byte>, i: nat): nat
    requires (i + 1) / 2 < |code|
  {
    if i % 2 == 0 then code[(i + 1) / 2] % 16 else code[(i + 1) / 2] / 16
  }

  lemma HalfIsNibble(code: seq<Byte>, i: nat)
    requires (i + 1) / 2 < |code|
    ensures HalfAt(code, i) == NibbleAt(code, i + 1)
  {
  }

  /** The bytes of an integer's code: the first half byte says how many digits there are, and then they follow, the
      least first. */
  lemma IntFormat(n: nat)
    requires n < WORD
    ensures var code := IntCode(n); var k := code[0] / 16 + 1;
            k <= 8 && |code| == k / 2 + 1 && Shift16(n, k) == 0 && (k > 1 ==> Shift16(n, k - 1) > 0) &&
            forall i :: 0 <= i < k ==> HalfAt(code, i) == Shift16(n, i) % 16
  {
    hide Packs, Nibbles, DigitCount, Get, NibbleAt, HalfAt, Shift16, IntCode;
    var code, k := IntCode(n), DigitCount(n);
    CodeFacts(n, code, []);
    assert code + [] == code;
    CountIsLeast(n);
    forall i | 0 <= i < k ensures HalfAt(code, i) == Shift16(n, i) % 16 {
      HalfIsNibble(code, i);
      DigitGot(n, i);
    }
  }

  // ----- tags: seven bits a byte, the least first; the high bit says that more follow -----

  function TagCode(tag: nat): seq<Byte>
  {
    if tag < 128 then [tag] else [tag % 128 + 128] + TagCode(tag / 128)
  }

  function Shift128(n: nat, i: nat): nat
  {
    if i == 0 then n else Shift128(n / 128, i - 1)
  }

  /** The bytes of a tag's code: seven bits each, the least first, and a high bit on all but the last. */
  lemma {:induction false} TagFormat(tag: nat, i: nat)
    requires i < |TagCode(tag)|
    ensures var code, seven := TagCode(tag), Shift128(tag, i);
            code[i] % 128 == seven % 128 && (code[i] >= 128 <==> i + 1 < |code|) &&
            (i + 1 == |code| ==> seven < 128) && (i > 0 ==> seven > 0)
  {
    if i > 0 { TagFormat(tag / 128, i - 1); }
  }

  function Pow128(i: nat): nat
  {
    if i == 0 then 1 else 128 * Pow128(i - 1)
  }

  /** Seven more bits of a tag. A shift by 32 or more has no meaning of its own: `wild` says what the machine makes
      of it. */
  function TagBits(number: nat, b: Byte, i: nat, wild: (nat, Byte, nat) -> nat): nat
  {
    if i < 5 then number + (b % 128 * Pow128(i)) % WORD else wild(number, b, i)
  }

  /** Reads a tag from byte `i` on; `number` has the bits before. */
  function TagFrom(s: seq<Byte>, i: nat, number: nat, wild: (nat, Byte, nat) -> nat): Option<Decoded>
    decreases AsInt(|s|) - i
  {
    if i >= AsInt(|s|) || i >= |s| then None
    else
      var now := TagBits(number, s[i], i, wild);
      if s[i] < 128 then Some(Decoded(now, i + 1)) else TagFrom(s, i + 1, now, wild)
  }

  function DecodeTag(s: seq<Byte>, wild: (nat, Byte, nat) -> nat): Option<Decoded>
  {
    TagFrom(s, 0, 0, wild)
  }

  /** One more byte of a tag's code adds its seven bits. */
  lemma TagBitsAdd(tag: nat, number: nat, b: Byte, i: nat, wild: (nat, Byte, nat) -> nat)
    requires b % 128 == tag % 128 && number + tag * Pow128(i) < WORD && (tag > 0 || i == 0)
    ensures TagBits(number, b, i, wild) == number + tag % 128 * Pow128(i)
    ensures tag % 128 * Pow128(i) + tag / 128 * Pow128(i + 1) == tag * Pow128(i)
  {
    TagFits(tag, i);
    TagParts(tag, Pow128(i));
  }

  /** The bytes from `i` on begin with the code. */
  ghost predicate CodeAt(s: seq<Byte>, i: nat, code: seq<Byte>)
  {
    i + |code| <= |s| && s[i..i + |code|] == code
  }

  lemma CodeAtStep(s: seq<Byte>, i: nat, b: Byte, code: seq<Byte>)
    requires CodeAt(s, i, [b] + code)
    ensures i < |s| && s[i] == b && CodeAt(s, i + 1, code)
  {
    var whole := [b] + code;
    assert s[i] == s[i..i + |whole|][0];
    assert s[i + 1..i + 1 + |code|] == s[i..i + |whole|][1..];
  }

  lemma {:induction false} TagFromRoundTrip(tag: nat, s: seq<Byte>, i: nat, number: nat, wild: (nat, Byte, nat) -> nat)
    requires |s| < 0x8000_0000 && CodeAt(s, i, TagCode(tag)) && number + tag * Pow128(i) < WORD && (tag > 0 || i == 0)
    ensures TagFrom(s, i, number, wild) == Some(Decoded(number + tag * Pow128(i), i + |TagCode(tag)|))
    decreases tag
  {
    hide CodeAt, Pow128, TagBits;
    if tag < 128 {
      assert TagCode(tag) == [tag] + [];
      CodeAtStep(s, i, tag, []);
      TagBitsAdd(tag, number, tag, i, wild);
    } else {
      CodeAtStep(s, i, tag % 128 + 128, TagCode(tag / 128));
      TagBitsAdd(tag, number, tag % 128 + 128, i, wild);
      TagFromRoundTrip(tag / 128, s, i + 1, number + tag % 128 * Pow128(i), wild);
    }
  }

  lemma TagParts(tag: nat, p: nat)
    ensures tag % 128 * p + tag / 128 * (128 * p) == tag * p && tag % 128 * p <= tag * p
  {
    assert tag == tag % 128 + 128 * (tag / 128);
    assert (tag % 128 + 128 * (tag / 128)) * p == tag % 128 * p + tag / 128 * (128 * p);
  }

  lemma TagFits(tag: nat, i: nat)
    requires tag * Pow128(i) < WORD && (tag > 0 || i == 0)
    ensures i < 5
  {
    if i >= 5 {
      PowGrows(i);
      Multiple(tag, Pow128(i));
    }
  }

  lemma Multiple(a: nat, p: nat)
    requires a > 0
    ensures a * p >= p
  {
  }

  lemma {:induction false} PowGrows(i: nat)
    requires i >= 5
    ensures Pow128(i) >= WORD
  {
    if i > 5 { PowGrows(i - 1); }
    assert Pow128(5) == 128 * 128 * 128 * 128 * 128 by {
      assert Pow128(2) == 128 * 128; assert Pow128(4) == 128 * 128 * 128 * 128;
    }
  }

  /** Every 32-bit tag is read back as it was written, whatever follows it. */
  lemma TagRoundTrip(tag: nat, rest: seq<Byte>, wild: (nat, Byte, nat) -> nat)
    requires tag < WORD && |TagCode(tag) + rest| < 0x8000_0000
    ensures DecodeTag(TagCode(tag) + rest, wild) == Some(Decoded(tag, |TagCode(tag)|))
  {
    var s := TagCode(tag) + rest;
    assert CodeAt(s, 0, TagCode(tag));
    assert tag * Pow128(0) == tag;
    TagFromRoundTrip(tag, s, 0, 0, wild);
  }

  lemma {:induction false} NumberBound(bytes: seq<Byte>, j: nat, k: nat)
    requires k / 2 < |bytes| && j <= k + 1
    ensures NumberAt(bytes, j, k) < Pow16(k + 1 - j)
    decreases k + 1 - j
  {
    if j <= k { NumberBound(bytes, j + 1, k); }
  }

  /** What is read is an integer of 32 bits, inside the bytes. */
  lemma IntBound(s: seq<Byte>)
    ensures var n := DecodeInt(s); n.Some? ==> n.value.value < WORD && 1 <= n.value.length <= |s|
  {
    if DecodeInt(s).Some? {
      var k := s[0] / 16 + 1;
      NumberBound(s, 1, k);
      Pow16Grows(k, 8);
    }
  }

  lemma {:induction false} Pow16Grows(j: nat, k: nat)
    requires j <= k
    ensures Pow16(j) <= Pow16(k)
    decreases k
  {
    if j < k { Pow16Grows(j, k - 1); }
  }
}
