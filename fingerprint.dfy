/** The text form of a fingerprint (fingerprint.rs): the compressed
    Chromaprint bytes written in the URL-safe base64 alphabet of section 5
    of RFC 4648, without `=` padding. Fingerprint generation and
    compression are foreign and given as their outcome. */
module Fingerprint {
  import opened Wrappers

  /** A `u8`. */
  type byte = x: int | 0 <= x < 256

  const U32Modulus: int := 0x1_0000_0000

  /** A `u32`. */
  type u32 = x: int | 0 <= x < 0x1_0000_0000

  const UpperCase: string := "ABCDEFGHIJKLMNOPQRSTUVWXYZ"
  const LowerCase: string := "abcdefghijklmnopqrstuvwxyz"
  const DecimalDigits: string := "0123456789"

  /** The 64 characters of the URL-safe alphabet, in order. */
  const Alphabet: string := UpperCase + LowerCase + DecimalDigits + "-_"

  /** The character for a 6-bit value, by the table of section 5 of
      RFC 4648: the upper-case letters, the lower-case letters, the digits,
      then '-' and '_'. */
  function Digit(k: int): char
    requires 0 <= k < 64
  {
    if k < 26 then (k + 65) as char
    else if k < 52 then (k + 71) as char
    else if k < 62 then (k - 4) as char
    else if k == 62 then '-'
    else '_'
  }

  lemma UpperRun(k: int)
    requires 0 <= k < 26
    ensures UpperCase[k] == (k + 65) as char
  {
  }

  lemma LowerRun(k: int)
    requires 0 <= k < 26
    ensures LowerCase[k] == (k + 97) as char
  {
  }

  lemma DigitRun(k: int)
    requires 0 <= k < 10
    ensures DecimalDigits[k] == (k + 48) as char
  {
  }

  /** The table agrees with the alphabet string the encoder indexes. */
  lemma AlphabetTable(k: int)
    requires 0 <= k < 64
    ensures Alphabet[k] == Digit(k)
  {
    if k < 26 {
      UpperRun(k);
      assert Alphabet[k] == UpperCase[k];
    } else if k < 52 {
      LowerRun(k - 26);
      assert Alphabet[k] == LowerCase[k - 26];
    } else if k < 62 {
      DigitRun(k - 52);
      assert Alphabet[k] == DecimalDigits[k - 52];
    }
  }

  // ---------------------------------------------------------------------------
  // the `u32` operations of the encoder, on the numbers they stand for

  function Pow2(n: nat): (r: nat)
    ensures r > 0
  {
    if n == 0 then 1 else 2 * Pow2(n - 1)
  }

  /** `x << n`: the bits moved past bit 31 are lost. */
  function Shl(x: u32, n: nat): u32 {
    x * Pow2(n) % U32Modulus
  }

  /** `x >> n`. */
  function Shr(x: u32, n: nat): int {
    x / Pow2(n)
  }

  /** `(buffer << 8) | byte as u32`: the shift clears the low eight bits,
      so the `|` places the byte there. */
  function ShiftIn(buffer: u32, b: byte): u32 {
    ShiftedClear(buffer);
    Shl(buffer, 8) + b
  }

  lemma ShiftedClear(buffer: u32)
    ensures Shl(buffer, 8) % 256 == 0
    ensures Shl(buffer, 8) + 255 < U32Modulus
  {
    assert Pow2(8) == 256;
  }

  // ---------------------------------------------------------------------------
  // the encoding as the RFC states it: each group of three bytes becomes four
  // characters, a final group of one or two bytes becomes two or three

  /** First character of a group: the top six bits of its first byte. */
  function C0(b0: byte): char {
    Digit(b0 / 4)
  }

  /** Second character: two bits of the first byte, four of the second. */
  function C1(b0: byte, b1: byte): char {
    Digit(b0 % 4 * 16 + b1 / 16)
  }

  /** Third character: four bits of the second byte, two of the third. */
  function C2(b1: byte, b2: byte): char {
    Digit(b1 % 16 * 4 + b2 / 64)
  }

  /** Fourth character: the low six bits of the third byte. */
  function C3(b2: byte): char {
    Digit(b2 % 64)
  }

  /** A final group of one byte: two characters, the second padded with
      four zero bits. */
  function Tail1(b0: byte): string {
    [C0(b0), Digit(b0 % 4 * 16)]
  }

  /** A final group of two bytes: three characters, the third padded with
      two zero bits. */
  function Tail2(b0: byte, b1: byte): string {
    [C0(b0), C1(b0, b1), Digit(b1 % 16 * 4)]
  }

  /** A whole group of three bytes: four characters. */
  function Quad(b0: byte, b1: byte, b2: byte): string {
    [C0(b0), C1(b0, b1), C2(b1, b2), C3(b2)]
  }

  function Encode(s: seq<byte>): string {
    if |s| == 0 then []
    else if |s| == 1 then Tail1(s[0])
    else if |s| == 2 then Tail2(s[0], s[1])
    else Quad(s[0], s[1], s[2]) + Encode(s[3..])
  }

  /** Encoding is compositional at group boundaries. */
  lemma {:induction false} EncodeAppend(a: seq<byte>, b: seq<byte>)
    requires |a| % 3 == 0
    ensures Encode(a + b) == Encode(a) + Encode(b)
    decreases |a|
  {
    if |a| == 0 {
      assert a + b == b;
    } else {
      var ab := a + b;
      assert ab[0] == a[0] && ab[1] == a[1] && ab[2] == a[2];
      assert ab[3..] == a[3..] + b;
      EncodeAppend(a[3..], b);
    }
  }

  /** Eight bits per byte, six per character, the last one padded with
      zero bits: ceil(8n / 6) characters. */
  lemma {:induction false} EncodeLength(s: seq<byte>)
    ensures |Encode(s)| == (8 * |s| + 5) / 6
    decreases |s|
  {
    if |s| >= 3 {
      EncodeLength(s[3..]);
    }
  }

  /** Every character comes from the URL-safe alphabet. */
  lemma {:induction false} EncodeInAlphabet(s: seq<byte>)
    ensures forall c :: c in Encode(s) ==> c in Alphabet
    decreases |s|
  {
    if |s| >= 1 {
      AlphabetTable(s[0] / 4);
    }
    if |s| == 1 {
      AlphabetTable(s[0] % 4 * 16);
    } else if |s| == 2 {
      AlphabetTable(s[0] % 4 * 16 + s[1] / 16);
      AlphabetTable(s[1] % 16 * 4);
    } else if |s| >= 3 {
      AlphabetTable(s[0] % 4 * 16 + s[1] / 16);
      AlphabetTable(s[1] % 16 * 4 + s[2] / 64);
      AlphabetTable(s[2] % 64);
      EncodeInAlphabet(s[3..]);
    }
  }

  lemma EncodeEmpty()
    ensures Encode([]) == ""
  {
  }

  // ---------------------------------------------------------------------------
  // the state of the encoder between bytes

  /** How the position within a group moves on by one byte. */
  lemma NextPhase(i: nat)
    ensures i % 3 == 0 ==> (i + 1) % 3 == 1 && GroupStart(i + 1) == i
    ensures i % 3 == 1 ==> (i + 1) % 3 == 2 && GroupStart(i + 1) == i - 1
    ensures i % 3 == 2 ==> (i + 1) % 3 == 0 && GroupStart(i + 1) == i + 1
    ensures (2 * (i % 3) + 8) % 6 == 2 * ((i + 1) % 3)
  {
  }

  /** Where the group holding byte `i` starts. */
  function GroupStart(i: nat): (g: nat)
    ensures g <= i && g % 3 == 0 && i - g == i % 3
  {
    i - i % 3
  }

  /** The characters of the partial group after `i` bytes that the encoder
      has already written. */
  function Head(data: seq<byte>, i: nat): string
    requires i <= |data|
  {
    if i % 3 == 0 then []
    else if i % 3 == 1 then [C0(data[i - 1])]
    else [C0(data[i - 2]), C1(data[i - 2], data[i - 1])]
  }

  /** What has been written after `i` bytes: the whole groups, then the
      head of the partial one. */
  function Written(data: seq<byte>, i: nat): string
    requires i <= |data|
  {
    Encode(data[..GroupStart(i)]) + Head(data, i)
  }

  /** The low bits of the buffer that the next character still needs:
      two bits of the group's first byte, or four of its second. */
  predicate Carried(data: seq<byte>, i: nat, buffer: u32)
    requires i <= |data|
  {
    && (i % 3 == 1 ==> buffer % 4 == data[i - 1] % 4)
    && (i % 3 == 2 ==> buffer % 16 == data[i - 1] % 16)
  }

  /** The characters the inner loop still has to write while more than
      `fb` bits are buffered. */
  function Remaining(buffer: u32, bits: nat, fb: nat): string
    decreases bits
  {
    if bits < fb + 6 || bits < 6 then [] else [Digit(Shr(buffer, bits - 6) % 64)] + Remaining(buffer, bits - 6, fb)
  }

  // ---------------------------------------------------------------------------
  // the encoder

  /** `base64_encode`: a 32-bit buffer into which each byte is shifted,
      written out six bits at a time. */
  method Base64Encode(data: seq<byte>) returns (result: string)
    ensures result == Encode(data)
  {
    result := "";
    var buffer: u32 := 0;
    var bits: nat := 0;
    for i := 0 to |data|
      invariant bits == 2 * (i % 3)
      invariant result == Written(data, i)
      invariant Carried(data, i, buffer)
    {
      buffer, bits, result := PushByte(data, i, buffer, bits, result);
    }
    if bits > 0 {
      ghost var last := buffer;
      buffer := Shl(buffer, 6 - bits);
      var idx := buffer % 64;
      PaddedChar(last, bits);
      if bits == 2 {
        FinalOne(data);
      } else {
        FinalTwo(data);
      }
      result := result + [Digit(idx)];
    } else {
      FinalNone(data);
    }
  }

  /** One pass of the outer loop: byte `i` is shifted into the buffer and
      every complete six bits are written. */
  method PushByte(data: seq<byte>, i: nat, buffer0: u32, bits0: nat, result0: string)
    returns (buffer: u32, bits: nat, result: string)
    requires i < |data|
    requires bits0 == 2 * (i % 3) && result0 == Written(data, i) && Carried(data, i, buffer0)
    ensures bits == 2 * ((i + 1) % 3) && result == Written(data, i + 1) && Carried(data, i + 1, buffer)
  {
    buffer := ShiftIn(buffer0, data[i]);
    bits := bits0 + 8;
    NextPhase(i);
    ByteStep(data, i, buffer0, result0);
    bits, result := WriteSextets(buffer, bits, result0);
    KeepLowBits(buffer0, data[i]);
  }

  /** The inner `while bits >= 6` loop: writes the buffered bits above the
      lowest `fb`, six at a time, most significant first. */
  method WriteSextets(buffer: u32, bits0: nat, result0: string) returns (bits: nat, result: string)
    requires 6 <= bits0 <= 12
    ensures bits == bits0 % 6
    ensures result == result0 + Remaining(buffer, bits0, bits0 % 6)
  {
    ghost var fb := bits0 % 6;
    bits := bits0;
    result := result0;
    while bits >= 6
      invariant bits == fb || bits == fb + 6 || bits == fb + 12
      invariant bits <= bits0
      invariant result + Remaining(buffer, bits, fb) == result0 + Remaining(buffer, bits0, fb)
    {
      bits := bits - 6;
      var idx := Shr(buffer, bits) % 64;
      Reassociate(result, Digit(idx), Remaining(buffer, bits, fb));
      result := result + [Digit(idx)];
    }
    assert Remaining(buffer, bits, fb) == [];
  }

  lemma Reassociate(s: string, c: char, t: string)
    ensures (s + [c]) + t == s + ([c] + t)
  {
  }

  // ---------------------------------------------------------------------------
  // the arithmetic of the buffer, one fact at a time

  /** The byte shifted in fills the low eight bits; above them sit the
      buffer's own low bits. */
  lemma ShiftInBits(buffer: u32, x: byte)
    ensures ShiftIn(buffer, x) % 256 == x
    ensures ShiftIn(buffer, x) % 1024 == buffer % 4 * 256 + x
    ensures ShiftIn(buffer, x) % 4096 == buffer % 16 * 256 + x
  {
    assert Pow2(8) == 256;
    ShiftDropsHigh(buffer);
    LowOfShifted(buffer % 0x100_0000, x);
    LowOfLow(buffer);
  }

  /** Shifting left by eight drops the top eight bits. */
  lemma ShiftDropsHigh(buffer: u32)
    ensures buffer * 256 % U32Modulus == buffer % 0x100_0000 * 256
  {
    var high := buffer / 0x100_0000;
    assert buffer * 256 == U32Modulus * high + buffer % 0x100_0000 * 256;
  }

  lemma LowOfShifted(c: nat, x: byte)
    ensures (c * 256 + x) % 256 == x
    ensures (c * 256 + x) % 1024 == c % 4 * 256 + x
    ensures (c * 256 + x) % 4096 == c % 16 * 256 + x
  {
    LowOfShiftedBy(c, x, 4, 1024);
    LowOfShiftedBy(c, x, 16, 4096);
  }

  lemma LowOfShiftedBy(c: nat, x: byte, k: nat, m: nat)
    requires (k == 4 && m == 1024) || (k == 16 && m == 4096)
    ensures (c * 256 + x) % 256 == x
    ensures (c * 256 + x) % m == c % k * 256 + x
  {
    var q := c / k;
    assert c == k * q + c % k;
    assert c * 256 + x == m * q + (c % k * 256 + x);
  }

  lemma LowOfLow(buffer: u32)
    ensures buffer % 0x100_0000 % 4 == buffer % 4
    ensures buffer % 0x100_0000 % 16 == buffer % 16
  {
    assert buffer == 0x100_0000 * (buffer / 0x100_0000) + buffer % 0x100_0000;
  }

  lemma KeepLowBits(buffer: u32, x: byte)
    ensures ShiftIn(buffer, x) % 4 == x % 4
    ensures ShiftIn(buffer, x) % 16 == x % 16
  {
    ShiftInBits(buffer, x);
    var b := ShiftIn(buffer, x);
    assert b == 256 * (b / 256) + x;
    assert b == 4 * (64 * (b / 256)) + x;
    assert b == 16 * (16 * (b / 256)) + x;
  }

  lemma ShiftFirst(buffer: u32, x: byte)
    ensures Shr(ShiftIn(buffer, x), 2) % 64 == x / 4
  {
    ShiftInBits(buffer, x);
    assert Pow2(2) == 4;
    SextetAboveTwo(ShiftIn(buffer, x));
  }

  lemma ShiftSecond(buffer: u32, p: byte, x: byte)
    requires buffer % 4 == p % 4
    ensures Shr(ShiftIn(buffer, x), 4) % 64 == p % 4 * 16 + x / 16
  {
    ShiftInBits(buffer, x);
    assert Pow2(4) == 16;
    SextetAboveFour(ShiftIn(buffer, x));
    assert (p % 4 * 256 + x) / 16 == p % 4 * 16 + x / 16;
  }

  lemma ShiftThird(buffer: u32, p: byte, x: byte)
    requires buffer % 16 == p % 16
    ensures Shr(ShiftIn(buffer, x), 6) % 64 == p % 16 * 4 + x / 64
  {
    ShiftInBits(buffer, x);
    assert Pow2(6) == 64;
    SextetAboveSix(ShiftIn(buffer, x));
    assert (p % 16 * 256 + x) / 64 == p % 16 * 4 + x / 64;
  }

  lemma ShiftFourth(buffer: u32, x: byte)
    ensures Shr(ShiftIn(buffer, x), 0) % 64 == x % 64
  {
    ShiftInBits(buffer, x);
    assert Pow2(0) == 1;
    var b := ShiftIn(buffer, x);
    assert b == 256 * (b / 256) + x;
    assert b == 64 * (4 * (b / 256)) + x;
  }

  /** The six bits above the lowest two, four or six are read off the
      lowest eight, ten or twelve. */
  lemma SextetAboveTwo(b: nat)
    ensures b / 4 % 64 == b % 256 / 4
  {
    assert b == 256 * (b / 256) + b % 256;
    assert b / 4 == 64 * (b / 256) + b % 256 / 4;
  }

  lemma SextetAboveFour(b: nat)
    ensures b / 16 % 64 == b % 1024 / 16
  {
    assert b == 1024 * (b / 1024) + b % 1024;
    assert b / 16 == 64 * (b / 1024) + b % 1024 / 16;
  }

  lemma SextetAboveSix(b: nat)
    ensures b / 64 % 64 == b % 4096 / 64
  {
    assert b == 4096 * (b / 4096) + b % 4096;
    assert b / 64 == 64 * (b / 4096) + b % 4096 / 64;
  }

  /** The flush shifts the leftover bits to the top of a last character. */
  lemma PaddedChar(buffer: u32, bits: nat)
    requires bits == 2 || bits == 4
    ensures bits == 2 ==> Shl(buffer, 6 - bits) % 64 == buffer % 4 * 16
    ensures bits == 4 ==> Shl(buffer, 6 - bits) % 64 == buffer % 16 * 4
  {
    if bits == 2 {
      assert Pow2(4) == 16;
      PaddedByFour(buffer);
    } else {
      assert Pow2(2) == 4;
      PaddedByTwo(buffer);
    }
  }

  lemma PaddedByFour(buffer: u32)
    ensures buffer * 16 % U32Modulus % 64 == buffer % 4 * 16
  {
    var s := buffer * 16;
    assert buffer == 4 * (buffer / 4) + buffer % 4;
    assert s == 64 * (buffer / 4) + buffer % 4 * 16;
    assert s % U32Modulus == s - U32Modulus * (s / U32Modulus);
    assert U32Modulus == 64 * 0x400_0000;
  }

  lemma PaddedByTwo(buffer: u32)
    ensures buffer * 4 % U32Modulus % 64 == buffer % 16 * 4
  {
    var s := buffer * 4;
    assert buffer == 16 * (buffer / 16) + buffer % 16;
    assert s == 64 * (buffer / 16) + buffer % 16 * 4;
    assert s % U32Modulus == s - U32Modulus * (s / U32Modulus);
    assert U32Modulus == 64 * 0x400_0000;
  }

  lemma RemainingOne(b: u32, bits: nat)
    requires bits == 8 || bits == 10
    ensures Remaining(b, bits, bits - 6) == [Digit(Shr(b, bits - 6) % 64)]
  {
    assert Remaining(b, bits - 6, bits - 6) == [];
  }

  lemma RemainingTwo(b: u32)
    ensures Remaining(b, 12, 0) == [Digit(Shr(b, 6) % 64), Digit(Shr(b, 0) % 64)]
  {
    assert Remaining(b, 0, 0) == [];
  }

  /** Three bytes are one group. */
  lemma EncodeGroup(b0: byte, b1: byte, b2: byte)
    ensures Encode([b0, b1, b2]) == Quad(b0, b1, b2)
  {
    assert [b0, b1, b2][3..] == [];
  }

  /** Appending byte `i` leaves the written prefix plus the characters of
      the freshly filled buffer equal to what is written after `i + 1`
      bytes. */
  lemma ByteStep(data: seq<byte>, i: nat, buffer: u32, result: string)
    requires i < |data|
    requires result == Written(data, i)
    requires Carried(data, i, buffer)
    ensures result + Remaining(ShiftIn(buffer, data[i]), 2 * (i % 3) + 8, 2 * ((i + 1) % 3)) == Written(data, i + 1)
  {
    NextPhase(i);
    if i % 3 == 0 {
      StartGroup(data, i, buffer, result);
    } else if i % 3 == 1 {
      SecondByte(data, i, buffer, result);
    } else {
      CloseGroup(data, i, buffer, result);
    }
  }

  lemma StartGroup(data: seq<byte>, i: nat, buffer: u32, result: string)
    requires i < |data| && i % 3 == 0
    requires result == Written(data, i)
    ensures result + Remaining(ShiftIn(buffer, data[i]), 8, 2) == Written(data, i + 1)
  {
    NextPhase(i);
    ShiftFirst(buffer, data[i]);
    RemainingOne(ShiftIn(buffer, data[i]), 8);
    assert Head(data, i + 1) == [C0(data[i])];
    assert Written(data, i + 1) == Encode(data[..i]) + [C0(data[i])];
  }

  lemma SecondByte(data: seq<byte>, i: nat, buffer: u32, result: string)
    requires i < |data| && i % 3 == 1
    requires result == Written(data, i)
    requires buffer % 4 == data[i - 1] % 4
    ensures result + Remaining(ShiftIn(buffer, data[i]), 10, 4) == Written(data, i + 1)
  {
    NextPhase(i);
    ShiftSecond(buffer, data[i - 1], data[i]);
    RemainingOne(ShiftIn(buffer, data[i]), 10);
    var e := Encode(data[..i - 1]);
    assert Head(data, i + 1) == [C0(data[i - 1]), C1(data[i - 1], data[i])];
    assert Written(data, i + 1) == e + [C0(data[i - 1]), C1(data[i - 1], data[i])];
  }

  lemma CloseGroup(data: seq<byte>, i: nat, buffer: u32, result: string)
    requires i < |data| && i % 3 == 2
    requires result == Written(data, i)
    requires buffer % 16 == data[i - 1] % 16
    ensures result + Remaining(ShiftIn(buffer, data[i]), 12, 0) == Written(data, i + 1)
  {
    LastTwoChars(buffer, data[i - 1], data[i]);
    GroupClosed(data, i);
  }

  /** With the second byte's low four bits still buffered, the third byte
      releases the last two characters of the group. */
  lemma LastTwoChars(buffer: u32, p: byte, x: byte)
    requires buffer % 16 == p % 16
    ensures Remaining(ShiftIn(buffer, x), 12, 0) == [C2(p, x), C3(x)]
  {
    ShiftThird(buffer, p, x);
    ShiftFourth(buffer, x);
    RemainingTwo(ShiftIn(buffer, x));
  }

  /** The third byte of a group turns the head of two characters into a
      whole group of four. */
  lemma GroupClosed(data: seq<byte>, i: nat)
    requires i < |data| && i % 3 == 2
    ensures Written(data, i) + [C2(data[i - 1], data[i]), C3(data[i])] == Written(data, i + 1)
  {
    NextPhase(i);
    var g := i - 2;
    assert data[..i + 1] == data[..g] + [data[i - 2], data[i - 1], data[i]];
    EncodeAppend(data[..g], [data[i - 2], data[i - 1], data[i]]);
    EncodeGroup(data[i - 2], data[i - 1], data[i]);
    assert Head(data, i + 1) == [];
  }

  /** Without a partial group, the whole groups are the encoding. */
  lemma FinalNone(data: seq<byte>)
    requires |data| % 3 == 0
    ensures Written(data, |data|) == Encode(data)
  {
    assert data[..|data|] == data;
  }

  /** The flush of a last group of one byte completes the encoding. */
  lemma FinalOne(data: seq<byte>)
    requires |data| % 3 == 1
    ensures Written(data, |data|) + [Digit(data[|data| - 1] % 4 * 16)] == Encode(data)
  {
    var n := |data|;
    var x := data[n - 1];
    var w, t := data[..n - 1], data[n - 1..];
    assert GroupStart(n) == n - 1;
    assert data == w + t && t == [x];
    FinalTail(w, t);
    assert Head(data, n) == [C0(x)];
    Reassociate(Encode(w), C0(x), [Digit(x % 4 * 16)]);
  }

  /** The flush of a last group of two bytes completes the encoding. */
  lemma FinalTwo(data: seq<byte>)
    requires |data| % 3 == 2
    ensures Written(data, |data|) + [Digit(data[|data| - 1] % 16 * 4)] == Encode(data)
  {
    var n := |data|;
    var x, y := data[n - 2], data[n - 1];
    var w, t := data[..n - 2], data[n - 2..];
    assert GroupStart(n) == n - 2;
    assert data == w + t && t == [x, y];
    FinalTail(w, t);
    assert Head(data, n) == [C0(x), C1(x, y)];
    assert Head(data, n) + [Digit(y % 16 * 4)] == Tail2(x, y);
    assert Written(data, n) == Encode(w) + Head(data, n);
  }

  /** Whole groups followed by a partial one of one or two bytes. */
  lemma FinalTail(whole: seq<byte>, tail: seq<byte>)
    requires |whole| % 3 == 0 && 1 <= |tail| <= 2
    ensures |tail| == 1 ==> Encode(whole + tail) == Encode(whole) + Tail1(tail[0])
    ensures |tail| == 2 ==> Encode(whole + tail) == Encode(whole) + Tail2(tail[0], tail[1])
  {
    EncodeAppend(whole, tail);
  }

  // ---------------------------------------------------------------------------
  // the fingerprint

  datatype ChromaprintRun = StartFailed(reason: string) | Printed(raw: seq<int>, compressed: seq<byte>)

  /** `compute_fingerprint_from_samples`. */
  function FingerprintFromSamples(samples: seq<int>, run: ChromaprintRun): (r: Result<string>)
    ensures samples == [] ==> r == Err("No audio samples provided")
    ensures r.Ok? <==> samples != [] && run.Printed? && run.raw != []
    ensures r.Ok? ==> r.value == Encode(run.compressed)
  {
    if samples == [] then Err("No audio samples provided")
    else match run
      case StartFailed(reason) => Err("Failed to start fingerprinter: " + reason)
      case Printed(raw, compressed) =>
        if raw == [] then Err("No fingerprint generated") else Ok(Encode(compressed))
  }
}
