/** Signed LEB128, as section 7.6 of DWARF Version 5 defines it, decoded with the 64-bit
    arithmetic of the network loader, and the encoder that is its inverse. */
module Leb128 {
  type Byte = x: int | 0 <= x < 256

  datatype Error =
    | SizeMismatch(expected: nat, got: nat)
    | VersionMismatch(got: nat)
    | BadMagic
    | TooManyBytes(left: nat, bound: nat)
    | Truncated
    | Exceeds64Bits
    | OutOfRange(value: int)
    | UnusedBytes(unused: nat)

  datatype Result<T> = Ok(value: T) | Err(error: Error) {
    predicate IsFailure() {
      Err?
    }

    function PropagateFailure<U>(): Result<U>
      requires Err?
    {
      Err(error)
    }

    function Extract(): T
      requires Ok?
    {
      value
    }
  }

  /** A value read, and where the reader stands after it. */
  datatype Read<T> = Read(value: T, pos: nat)

  function Pow2(n: nat): (p: nat)
    ensures p >= 1
  {
    if n == 0 then 1 else 2 * Pow2(n - 1)
  }

  const WORD := 0x1_0000_0000_0000_0000

  /** A 64-bit pattern read as a two's-complement number. */
  function Signed(pattern: int): int {
    if pattern >= WORD / 2 then pattern - WORD else pattern
  }

  /** The bits from `shift` on set, if `sign` asks for it. */
  function SignExtend(pattern: int, shift: nat, sign: bool): int {
    if shift < 64 && sign then pattern + (WORD - Pow2(shift)) else pattern
  }

  // ----- decoding -----

  function Take(payload: seq<Byte>, pos: nat, acc: int, shift: nat): Result<Read<int>>
    decreases |payload| - pos
  {
    if pos >= |payload| then Err(Truncated)
    else if shift >= 64 then Err(Exceeds64Bits)
    else
      var b := payload[pos];
      var next := (acc + b % 128 * Pow2(shift)) % WORD;
      if b < 128 then Ok(Read(Signed(SignExtend(next, shift + 7, b % 128 >= 64)), pos + 1))
      else Take(payload, pos + 1, next, shift + 7)
  }

  function ReadSigned(payload: seq<Byte>, pos: nat): Result<Read<int>> {
    Take(payload, pos, 0, 0)
  }

  method ReadSignedLeb128(payload: seq<Byte>, pos0: nat) returns (r: Result<Read<int>>)
    ensures r == ReadSigned(payload, pos0)
  {
    var pos, acc, shift, power := pos0, 0, 0, 1;
    while true
      invariant power == Pow2(shift)
      invariant Take(payload, pos, acc, shift) == ReadSigned(payload, pos0)
      decreases |payload| - pos
    {
      if pos >= |payload| {
        return Err(Truncated);
      }
      var b := payload[pos];
      pos := pos + 1;
      if shift >= 64 {
        return Err(Exceeds64Bits);
      }
      acc := (acc + b % 128 * power) % WORD;
      SevenMore(shift);
      shift, power := shift + 7, power * 128;
      if b < 128 {
        return Ok(Read(Signed(if shift < 64 && b % 128 >= 64 then acc + (WORD - power) else acc), pos));
      }
    }
  }

  lemma SevenMore(n: nat)
    ensures Pow2(n + 7) == 128 * Pow2(n)
  {
    assert Pow2(n + 7) == 2 * Pow2(n + 6);
    assert Pow2(n + 6) == 2 * Pow2(n + 5);
    assert Pow2(n + 5) == 2 * Pow2(n + 4);
    assert Pow2(n + 4) == 2 * Pow2(n + 3);
    assert Pow2(n + 3) == 2 * Pow2(n + 2);
    assert Pow2(n + 2) == 2 * Pow2(n + 1);
  }

  // ----- encoding -----

  /** The last byte of a value: nothing but its sign is left above the seven bits. */
  predicate Last(v: int) {
    (v / 128 == 0 && v % 128 < 64) || (v / 128 == -1 && v % 128 >= 64)
  }

  function Encode(v: int): (r: seq<Byte>)
    ensures r != []
    decreases if v < 0 then -v else v
  {
    if Last(v) then [v % 128] else [v % 128 + 128] + Encode(v / 128)
  }

  lemma EncodeLast(v: int)
    requires Last(v)
    ensures Encode(v) == [v % 128] && v == if v % 128 >= 64 then v % 128 - 128 else v % 128
  {}

  lemma EncodeMore(v: int)
    requires !Last(v)
    ensures Encode(v) == [v % 128 + 128] + Encode(v / 128) && v == 128 * (v / 128) + v % 128
  {}

  /** The weight of the digits read so far. */
  lemma Scale(v: int, low: int, rest: int, p: int)
    requires v == 128 * rest + low
    ensures v * p == rest * (128 * p) + low * p
  {}

  lemma {:induction false} PowBelow(a: nat, b: nat)
    requires a <= b
    ensures Pow2(a) <= Pow2(b)
  {
    if a < b {
      PowBelow(a, b - 1);
    }
  }

  lemma Pow63()
    ensures Pow2(63) == WORD / 2
  {
    PowZero();
    hide Pow2;
    SevenMore(0);
    SevenMore(7);
    SevenMore(14);
    SevenMore(21);
    SevenMore(28);
    SevenMore(35);
    SevenMore(42);
    SevenMore(49);
    SevenMore(56);
  }

  lemma PowZero()
    ensures Pow2(0) == 1
  {}

  lemma DigitFits(acc: int, low: int, p: int)
    requires 0 <= acc < p && 0 <= low < 128
    ensures 0 <= acc + low * p < 128 * p
  {
    assert low * p <= 127 * p;
  }

  lemma SignedDigit(v: int, low: int, p: int)
    ensures v == low - 128 ==> v * p == low * p - 128 * p
    ensures low >= 64 && p >= 0 ==> low * p >= 64 * p
  {}

  /** The pattern with its sign extended is the number. */
  lemma PatternValue(x: int, q: int)
    requires 0 < q <= WORD / 2 && 0 <= x < q
    ensures Signed(x) == x
    ensures x % WORD == x
    ensures x >= q / 2 ==> Signed(x + (WORD - q)) == x - q
  {}

  lemma TakesOne(payload: seq<Byte>, pos: nat, acc: int, shift: nat)
    requires pos < |payload| && payload[pos] < 128 && shift < 64
    ensures var b := payload[pos] % 128;
      Take(payload, pos, acc, shift)
      == Ok(Read(Signed(SignExtend((acc + b * Pow2(shift)) % WORD, shift + 7, b >= 64)), pos + 1))
  {
    hide Pow2, Signed, SignExtend;
  }

  /** The sign bit of the last byte is that of the whole pattern. */
  lemma SignOfLast(x: int, bits: nat, negative: bool)
    requires bits < 64 && Pow2(bits) <= WORD / 2 && 0 <= x < Pow2(bits) && (negative ==> x >= Pow2(bits) / 2)
    ensures Signed(SignExtend(x % WORD, bits, negative)) == if negative then x - Pow2(bits) else x
  {
    hide Pow2, Signed;
    PatternValue(x, Pow2(bits));
  }

  /** The last byte completes the value, sign included. */
  lemma TakeLast(payload: seq<Byte>, pos: nat, acc: int, shift: nat, v: int)
    requires pos < |payload| && payload[pos] == v % 128 && Last(v)
    requires 0 <= acc < Pow2(shift) && shift + 7 <= 63
    ensures Take(payload, pos, acc, shift) == Ok(Read(acc + v * Pow2(shift), pos + 1))
  {
    hide Pow2, Signed, SignExtend, Take, Last, Encode;
    var low, p := v % 128, Pow2(shift);
    SevenMore(shift);
    PowBelow(shift + 7, 63);
    Pow63();
    EncodeLast(v);
    DigitFits(acc, low, p);
    SignedDigit(v, low, p);
    assert payload[pos] % 128 == low;
    TakesOne(payload, pos, acc, shift);
    assert low >= 64 ==> acc + low * p >= 128 * p / 2;
    SignOfLast(acc + low * p, shift + 7, low >= 64);
  }

  lemma TakeMore(payload: seq<Byte>, pos: nat, acc: int, shift: nat, v: int)
    requires pos < |payload| && payload[pos] == v % 128 + 128
    requires 0 <= acc < Pow2(shift) && shift + 7 <= 63
    ensures Take(payload, pos, acc, shift) == Take(payload, pos + 1, acc + v % 128 * Pow2(shift), shift + 7)
    ensures 0 <= acc + v % 128 * Pow2(shift) < Pow2(shift + 7)
  {
    var low, p := v % 128, Pow2(shift);
    hide Pow2, Signed;
    SevenMore(shift);
    PowBelow(shift + 7, 63);
    Pow63();
    DigitFits(acc, low, p);
    PatternValue(acc + low * p, 128 * p);
    assert payload[pos] % 128 == low;
  }

  /** What is left of a 64-bit value at bit `shift`. */
  predicate Fits(v: int, shift: nat) {
    shift <= 63 && 0 <= v + Pow2(63 - shift) && v < Pow2(63 - shift)
  }

  lemma FitsMore(v: int, shift: nat)
    requires Fits(v, shift) && shift % 7 == 0 && !Last(v)
    ensures shift + 7 <= 63 && Fits(v / 128, shift + 7)
  {
    if shift == 63 {
      PowZero();
    } else {
      SevenMore(56 - shift);
      hide Pow2;
      var p := Pow2(56 - shift);
      assert -128 * p <= v < 128 * p;
    }
  }

  /** The tenth byte holds nothing but the sign. */
  lemma TakeTenth(payload: seq<Byte>, pos: nat, acc: int, v: int)
    requires pos < |payload| && Last(v) && payload[pos] == v % 128
    requires 0 <= acc < Pow2(63) && Fits(v, 63)
    ensures Take(payload, pos, acc, 63) == Ok(Read(acc + v * Pow2(63), pos + 1))
  {
    PowZero();
    Pow63();
    hide Pow2;
    assert v == 0 || v == -1;
    assert payload[pos] % 128 == v % 128;
    if v == -1 {
      assert (acc + 127 * (WORD / 2)) % WORD == acc + WORD / 2 by {
        assert acc + 127 * (WORD / 2) == (acc + WORD / 2) + 63 * WORD;
      }
    }
  }

  /** Decoding picks up an encoded value wherever it stands and stops right behind it. */
  lemma {:induction false} TakesEncoded(payload: seq<Byte>, pos: nat, acc: int, shift: nat, v: int)
    requires pos + |Encode(v)| <= |payload| && payload[pos..pos + |Encode(v)|] == Encode(v)
    requires 0 <= acc < Pow2(shift) && shift % 7 == 0 && Fits(v, shift)
    ensures Take(payload, pos, acc, shift) == Ok(Read(acc + v * Pow2(shift), pos + |Encode(v)|))
    decreases |Encode(v)|
  {
    hide Take, Encode, Pow2, Fits;
    var code := Encode(v);
    assert payload[pos] == payload[pos..pos + |code|][0] == code[0];
    if Last(v) {
      EncodeLast(v);
      LastByte(payload, pos, acc, shift, v);
    } else {
      EncodeMore(v);
      FitsMore(v, shift);
      TakeMore(payload, pos, acc, shift, v);
      assert payload[pos + 1..pos + 1 + |Encode(v / 128)|] == code[1..] == Encode(v / 128);
      TakesEncoded(payload, pos + 1, acc + v % 128 * Pow2(shift), shift + 7, v / 128);
      SevenMore(shift);
      Scale(v, v % 128, v / 128, Pow2(shift));
    }
  }

  lemma LastByte(payload: seq<Byte>, pos: nat, acc: int, shift: nat, v: int)
    requires pos < |payload| && Last(v) && payload[pos] == v % 128
    requires 0 <= acc < Pow2(shift) && shift % 7 == 0 && Fits(v, shift)
    ensures Take(payload, pos, acc, shift) == Ok(Read(acc + v * Pow2(shift), pos + 1))
  {
    hide Take, Pow2;
    if shift == 63 {
      TakeTenth(payload, pos, acc, v);
    } else {
      TakeLast(payload, pos, acc, shift, v);
    }
  }

  /** Sixteen bits take at most three bytes. */
  lemma ThreeBytes(v: int)
    requires -0x8000 <= v < 0x8000
    ensures |Encode(v)| <= 3
  {
    if !Last(v) {
      EncodeMore(v);
      if !Last(v / 128) {
        EncodeMore(v / 128);
        assert Last(v / 128 / 128);
      }
    }
  }

  /** Every 64-bit value is read back exactly, whatever stands around it; the longest take
      ten bytes. */
  lemma RoundTrip(before: seq<Byte>, v: int, after: seq<Byte>)
    requires -0x8000_0000_0000_0000 <= v < 0x8000_0000_0000_0000
    ensures ReadSigned(before + Encode(v) + after, |before|) == Ok(Read(v, |before| + |Encode(v)|))
    ensures |Encode(v)| <= 10
  {
    var payload := before + Encode(v) + after;
    assert payload[|before|..|before| + |Encode(v)|] == Encode(v);
    Pow63();
    PowZero();
    hide Take, Encode, Pow2;
    assert Fits(v, 0);
    TakesEncoded(payload, |before|, 0, 0, v);
    TenBytes(v, 0);
  }

  lemma {:induction false} TenBytes(v: int, shift: nat)
    requires Fits(v, shift) && shift % 7 == 0
    ensures 7 * |Encode(v)| + shift <= 70
    decreases |Encode(v)|
  {
    hide Encode, Fits;
    if Last(v) {
      EncodeLast(v);
      FitsShift(v, shift);
    } else {
      EncodeMore(v);
      FitsMore(v, shift);
      TenBytes(v / 128, shift + 7);
    }
  }

  lemma FitsShift(v: int, shift: nat)
    requires Fits(v, shift)
    ensures shift <= 63
  {}

  // ----- what any code means, the shortest or not -----

  /** How many bytes from `pos` on ask for another. */
  function Going(payload: seq<Byte>, pos: nat): (m: nat)
    ensures pos <= |payload| ==> pos + m <= |payload|
    ensures forall i :: pos <= i < pos + m && i < |payload| ==> payload[i] >= 128
    ensures pos + m < |payload| ==> payload[pos + m] < 128
    decreases |payload| - pos
  {
    if pos < |payload| && payload[pos] >= 128 then 1 + Going(payload, pos + 1) else 0
  }

  /** The digits of `k` bytes, seven bits each, the lowest first. */
  function Digits(payload: seq<Byte>, pos: nat, k: nat): nat
    requires pos + k <= |payload|
  {
    if k == 0 then 0 else Digits(payload, pos, k - 1) + payload[pos + k - 1] % 128 * Pow2(7 * (k - 1))
  }

  lemma AddModulo(x: int, y: int)
    ensures (x % WORD + y) % WORD == (x + y) % WORD
  {
    var q := x / WORD;
    assert x + y == WORD * q + (x % WORD + y);
  }

  lemma TakeNext(payload: seq<Byte>, pos: nat, k: nat)
    requires pos + k < |payload| && payload[pos + k] >= 128 && k <= 9
    ensures Take(payload, pos + k, Digits(payload, pos, k) % WORD, 7 * k)
         == Take(payload, pos + k + 1, Digits(payload, pos, k + 1) % WORD, 7 * (k + 1))
  {
    AddModulo(Digits(payload, pos, k), payload[pos + k] % 128 * Pow2(7 * k));
    hide Pow2;
  }

  /** After `k` bytes that ask for another. */
  lemma {:induction false} TakeGoesOn(payload: seq<Byte>, pos: nat, k: nat)
    requires pos + k <= |payload| && k <= 10 && forall i :: pos <= i < pos + k ==> payload[i] >= 128
    ensures ReadSigned(payload, pos) == Take(payload, pos + k, Digits(payload, pos, k) % WORD, 7 * k)
  {
    if k > 0 {
      TakeGoesOn(payload, pos, k - 1);
      TakeNext(payload, pos, k - 1);
      hide Take, Pow2;
    }
  }

  lemma {:induction false} DigitsBelow(payload: seq<Byte>, pos: nat, k: nat)
    requires pos + k <= |payload|
    ensures Digits(payload, pos, k) < Pow2(7 * k)
  {
    if k > 0 {
      DigitsBelow(payload, pos, k - 1);
      SevenMore(7 * (k - 1));
      hide Pow2;
      DigitFits(Digits(payload, pos, k - 1), payload[pos + k - 1] % 128, Pow2(7 * (k - 1)));
    }
  }

  /** The 64-bit number with the residue of `x`. */
  function Wrapped(x: int): (v: int)
    ensures -WORD / 2 <= v < WORD / 2 && (v - x) % WORD == 0
  {
    var r := x % WORD;
    assert x == WORD * (x / WORD) + r;
    if r >= WORD / 2 then r - WORD else r
  }

  /** The last byte: its seventh bit is the sign, as long as the word has room above it. */
  lemma TakeEnds(payload: seq<Byte>, pos: nat, k: nat)
    requires pos + k < |payload| && payload[pos + k] < 128 && k <= 9
    ensures var d := Digits(payload, pos, k + 1);
      Take(payload, pos + k, Digits(payload, pos, k) % WORD, 7 * k)
      == Ok(Read(Wrapped(if payload[pos + k] >= 64 && k < 9 then d - Pow2(7 * (k + 1)) else d), pos + k + 1))
  {
    hide Pow2, Take, Digits, Signed, SignExtend, Wrapped;
    var b, d, p := payload[pos + k] % 128, Digits(payload, pos, k + 1), Pow2(7 * k);
    assert b == payload[pos + k];
    DigitsNext(payload, pos, k);
    AddModulo(Digits(payload, pos, k), b * p);
    TakesOne(payload, pos + k, Digits(payload, pos, k) % WORD, 7 * k);
    DigitsBelow(payload, pos, k + 1);
    if k < 9 {
      PowBelow(7 * (k + 1), 63);
      Pow63();
    }
    ExtendedIsWrapped(d, 7 * (k + 1), b >= 64);
  }

  lemma DigitsNext(payload: seq<Byte>, pos: nat, k: nat)
    requires pos + k < |payload|
    ensures Digits(payload, pos, k + 1) == Digits(payload, pos, k) + payload[pos + k] % 128 * Pow2(7 * k)
  {
    hide Pow2;
  }

  lemma ExtendedIsWrapped(d: nat, bits: nat, sign: bool)
    requires bits < 64 ==> d < Pow2(bits) <= WORD / 2
    ensures Signed(SignExtend(d % WORD, bits, sign)) == Wrapped(if sign && bits < 64 then d - Pow2(bits) else d)
  {
    hide Pow2;
    if bits < 64 {
      assert d % WORD == d;
      assert sign ==> (d - Pow2(bits)) % WORD == d - Pow2(bits) + WORD;
    }
  }

  /** What every sequence of bytes is read as: a code of up to ten bytes is the sum of its
      digits, less the next power if the last byte has its seventh bit set and the word has
      room for it, in 64 bits; an eleventh byte is refused before its value matters, and so
      is an end without a last byte. */
  lemma ReadsAs(payload: seq<Byte>, pos: nat)
    requires pos <= |payload|
    ensures var m := Going(payload, pos);
      ReadSigned(payload, pos) ==
      if m <= 10 && pos + m == |payload| then Err(Truncated)
      else if m >= 10 then Err(Exceeds64Bits)
      else
        var d := Digits(payload, pos, m + 1);
        Ok(Read(Wrapped(if payload[pos + m] >= 64 && m < 9 then d - Pow2(7 * (m + 1)) else d), pos + m + 1))
  {
    hide Pow2, Wrapped;
    var m := Going(payload, pos);
    var k := if m < 10 then m else 10;
    TakeGoesOn(payload, pos, k);
    if m < 10 && pos + m < |payload| {
      TakeEnds(payload, pos, m);
      hide Take;
    }
  }

  // ----- a reader never looks beyond where it stops -----

  lemma {:induction false} TakeStable(payload: seq<Byte>, pos: nat, acc: int, shift: nat, more: seq<Byte>)
    requires Take(payload, pos, acc, shift).Ok?
    ensures Take(payload + more, pos, acc, shift) == Take(payload, pos, acc, shift)
    ensures pos < Take(payload, pos, acc, shift).value.pos <= |payload|
    decreases |payload| - pos
  {
    assert (payload + more)[pos] == payload[pos];
    if payload[pos] >= 128 {
      TakeStable(payload, pos + 1, (acc + payload[pos] % 128 * Pow2(shift)) % WORD, shift + 7, more);
    }
  }
}
