/** The framing of the network file: which files are accepted, and that what the encoder
    writes is read back. */
module NetworkFile {
  import opened Leb128

  const VERSION := 0x7AF3_2F16
  const MAGIC: seq<Byte> := [67, 79, 77, 80, 82, 69, 83, 83, 69, 68, 95, 76, 69, 66, 49, 50, 56]

  predicate IsI16(v: int) {
    -0x8000 <= v < 0x8000
  }

  // ----- the reader on values -----

  function Slice(f: seq<Byte>, pos: nat, n: nat): Result<Read<seq<Byte>>> {
    if pos + n > |f| then Err(SizeMismatch(pos + n, |f|)) else Ok(Read(f[pos..pos + n], pos + n))
  }

  function FromLe(b: seq<Byte>): nat
    requires |b| == 4
  {
    var b0: int, b1: int, b2: int, b3: int := b[0], b[1], b[2], b[3];
    b0 + 0x100 * b1 + 0x1_0000 * b2 + 0x100_0000 * b3
  }

  function U32(f: seq<Byte>, pos: nat): Result<Read<nat>> {
    var s :- Slice(f, pos, 4);
    Ok(Read(FromLe(s.value), s.pos))
  }

  /** `count` values, one after the other. */
  function Values(payload: seq<Byte>, pos: nat, count: nat): Result<Read<seq<int>>>
    decreases count
  {
    if count == 0 then Ok(Read([], pos))
    else
      var front :- Values(payload, pos, count - 1);
      var v :- ReadSigned(payload, front.pos);
      if !IsI16(v.value) then Err(OutOfRange(v.value)) else Ok(Read(front.value + [v.value], v.pos))
  }

  /** Magic, length, payload; the payload must hold exactly the values. */
  function Block(f: seq<Byte>, pos: nat, count: nat): Result<Read<seq<int>>> {
    var magic :- Slice(f, pos, |MAGIC|);
    if magic.value != MAGIC then Err(BadMagic)
    else
      var left :- U32(f, magic.pos);
      if left.value > 3 * count then Err(TooManyBytes(left.value, 3 * count))
      else
        var payload :- Slice(f, left.pos, left.value);
        var values :- Values(payload.value, 0, count);
        if values.pos != |payload.value| then
          Err(UnusedBytes(if values.pos < |payload.value| then |payload.value| - values.pos else 0))
        else Ok(Read(values.value, payload.pos))
  }

  /** Feature-transformer values are doubled and must stay in range. */
  function Doubled(values: seq<int>): Result<seq<int>> {
    if values == [] then Ok([])
    else
      var front :- Doubled(values[..|values| - 1]);
      var v := values[|values| - 1];
      if IsI16(2 * v) then Ok(front + [2 * v]) else Err(OutOfRange(v))
  }

  datatype Dims = Dims(hidden: nat, features: nat, stacks: nat,
                       fc0Out: nat, fc0In: nat, fc1Out: nat, fc1In: nat, fc2Out: nat, fc2In: nat)
  {
    /** The number of values in the feature transformer's weights. */
    function Weights(): nat {
      hidden * features
    }
  }

  /** The sizes in bytes of the six arrays of one layer stack. */
  function Sizes(d: Dims): (r: seq<nat>)
    ensures |r| == 6
  {
    [4 * d.fc0Out, d.fc0Out * d.fc0In, 4 * d.fc1Out, d.fc1Out * d.fc1In, 4 * d.fc2Out, d.fc2Out * d.fc2In]
  }

  function Arrays(f: seq<Byte>, pos: nat, sizes: seq<nat>): Result<Read<seq<seq<Byte>>>> {
    if sizes == [] then Ok(Read([], pos))
    else
      var front :- Arrays(f, pos, sizes[..|sizes| - 1]);
      var last :- Slice(f, front.pos, sizes[|sizes| - 1]);
      Ok(Read(front.value + [last.value], last.pos))
  }

  datatype Stack = Stack(hash: nat, arrays: seq<seq<Byte>>)

  function Stacks(f: seq<Byte>, pos: nat, d: Dims, n: nat): Result<Read<seq<Stack>>>
    decreases n
  {
    if n == 0 then Ok(Read([], pos))
    else
      var front :- Stacks(f, pos, d, n - 1);
      var hash :- U32(f, front.pos);
      var arrays :- Arrays(f, hash.pos, Sizes(d));
      Ok(Read(front.value + [Stack(hash.value, arrays.value)], arrays.pos))
  }

  datatype Network = Network(hash: nat, arch: seq<Byte>, ftHash: nat, biases: seq<int>, weights: seq<int>,
                             stacks: seq<Stack>)

  datatype Header = Header(hash: nat, arch: seq<Byte>)

  function ReadHeader(f: seq<Byte>, pos: nat): Result<Read<Header>> {
    var version :- U32(f, pos);
    if version.value != VERSION then Err(VersionMismatch(version.value))
    else
      var hash :- U32(f, version.pos);
      var size :- U32(f, hash.pos);
      var arch :- Slice(f, size.pos, size.value);
      Ok(Read(Header(hash.value, arch.value), arch.pos))
  }

  /** Everything up to the end of the last stack. */
  function Body(f: seq<Byte>, d: Dims): Result<Read<Network>> {
    var header :- ReadHeader(f, 0);
    var ftHash :- U32(f, header.pos);
    var rawBiases :- Block(f, ftHash.pos, d.hidden);
    var biases :- Doubled(rawBiases.value);
    var rawWeights :- Block(f, rawBiases.pos, d.Weights());
    var weights :- Doubled(rawWeights.value);
    var stacks :- Stacks(f, rawWeights.pos, d, d.stacks);
    Ok(Read(Network(header.value.hash, header.value.arch, ftHash.value, biases, weights, stacks.value), stacks.pos))
  }

  /** Nothing may follow. */
  function Parse(f: seq<Byte>, d: Dims): Result<Network> {
    var body :- Body(f, d);
    if body.pos != |f| then Err(SizeMismatch(body.pos, |f|)) else Ok(body.value)
  }

  // ----- accepted files are prefix-free -----

  lemma SliceStable(f: seq<Byte>, pos: nat, n: nat, more: seq<Byte>)
    requires Slice(f, pos, n).Ok?
    ensures Slice(f + more, pos, n) == Slice(f, pos, n) && Slice(f, pos, n).value.pos <= |f|
  {
    assert (f + more)[pos..pos + n] == f[pos..pos + n];
  }

  lemma U32Stable(f: seq<Byte>, pos: nat, more: seq<Byte>)
    requires U32(f, pos).Ok?
    ensures U32(f + more, pos) == U32(f, pos) && U32(f, pos).value.pos <= |f|
  {
    SliceStable(f, pos, 4, more);
  }

  lemma BlockStable(f: seq<Byte>, pos: nat, count: nat, more: seq<Byte>)
    requires Block(f, pos, count).Ok?
    ensures Block(f + more, pos, count) == Block(f, pos, count)
  {
    SliceStable(f, pos, |MAGIC|, more);
    var magic := Slice(f, pos, |MAGIC|).value;
    U32Stable(f, magic.pos, more);
    var left := U32(f, magic.pos).value;
    SliceStable(f, left.pos, left.value, more);
    hide Slice, U32, Values;
  }

  lemma {:induction false} ArraysStable(f: seq<Byte>, pos: nat, sizes: seq<nat>, more: seq<Byte>)
    requires Arrays(f, pos, sizes).Ok?
    ensures Arrays(f + more, pos, sizes) == Arrays(f, pos, sizes)
  {
    if sizes != [] {
      var front := sizes[..|sizes| - 1];
      ArraysStable(f, pos, front, more);
      SliceStable(f, Arrays(f, pos, front).value.pos, sizes[|sizes| - 1], more);
    }
  }

  lemma {:induction false} StacksStable(f: seq<Byte>, pos: nat, d: Dims, n: nat, more: seq<Byte>)
    requires Stacks(f, pos, d, n).Ok?
    ensures Stacks(f + more, pos, d, n) == Stacks(f, pos, d, n)
    decreases n
  {
    hide U32, Arrays, Sizes;
    if n > 0 {
      StacksStable(f, pos, d, n - 1, more);
      var front := Stacks(f, pos, d, n - 1).value;
      U32Stable(f, front.pos, more);
      ArraysStable(f, U32(f, front.pos).value.pos, Sizes(d), more);
    }
  }

  lemma HeaderStable(f: seq<Byte>, pos: nat, more: seq<Byte>)
    requires ReadHeader(f, pos).Ok?
    ensures ReadHeader(f + more, pos) == ReadHeader(f, pos)
  {
    hide U32, Slice;
    U32Stable(f, pos, more);
    var version := U32(f, pos).value;
    U32Stable(f, version.pos, more);
    var hash := U32(f, version.pos).value;
    U32Stable(f, hash.pos, more);
    var size := U32(f, hash.pos).value;
    SliceStable(f, size.pos, size.value, more);
  }

  lemma BodyStable(f: seq<Byte>, d: Dims, more: seq<Byte>)
    requires Body(f, d).Ok?
    ensures Body(f + more, d) == Body(f, d)
  {
    hide ReadHeader, U32, Block, Doubled, Stacks;
    HeaderStable(f, 0, more);
    var header := ReadHeader(f, 0).value;
    U32Stable(f, header.pos, more);
    var ftHash := U32(f, header.pos).value;
    BlockStable(f, ftHash.pos, d.hidden, more);
    var biases := Block(f, ftHash.pos, d.hidden).value;
    BlockStable(f, biases.pos, d.Weights(), more);
    var weights := Block(f, biases.pos, d.Weights()).value;
    StacksStable(f, weights.pos, d, d.stacks, more);
  }

  /** No proper extension of an accepted file is accepted, and so no proper prefix. */
  lemma AcceptedFilesArePrefixFree(f: seq<Byte>, more: seq<Byte>, d: Dims)
    requires Parse(f, d).Ok?
    ensures Parse(f + more, d) == if more == [] then Parse(f, d) else Err(SizeMismatch(|f|, |f| + |more|))
  {
    hide Body;
    BodyStable(f, d, more);
    if more == [] {
      assert f + more == f;
    }
  }

  // ----- the block encoder -----

  function ToLe(n: nat): (b: seq<Byte>)
    ensures |b| == 4
  {
    [n % 0x100, n / 0x100 % 0x100, n / 0x1_0000 % 0x100, n / 0x100_0000 % 0x100]
  }

  lemma LeRoundTrip(n: nat)
    requires n < 0x1_0000_0000
    ensures FromLe(ToLe(n)) == n
  {
    var q1 := n / 0x100;
    var q2 := q1 / 0x100;
    assert n / 0x1_0000 == q2 && n / 0x100_0000 == q2 / 0x100;
    assert n == 0x100 * q1 + n % 0x100 && q1 == 0x100 * q2 + q1 % 0x100 && q2 == 0x100 * (q2 / 0x100) + q2 % 0x100;
  }

  function EncodeAll(values: seq<int>): (r: seq<Byte>) {
    if values == [] then [] else EncodeAll(values[..|values| - 1]) + Encode(values[|values| - 1])
  }

  function EncodeBlock(values: seq<int>): seq<Byte> {
    MAGIC + ToLe(|EncodeAll(values)|) + EncodeAll(values)
  }

  lemma {:induction false} EncodedSize(values: seq<int>)
    requires forall i :: 0 <= i < |values| ==> IsI16(values[i])
    ensures |EncodeAll(values)| <= 3 * |values|
  {
    if values != [] {
      EncodedSize(values[..|values| - 1]);
      ThreeBytes(values[|values| - 1]);
    }
  }

  lemma ValuesNext(payload: seq<Byte>, front: seq<int>, v: int, pos: nat, end: nat)
    requires Values(payload, 0, |front|) == Ok(Read(front, pos))
    requires ReadSigned(payload, pos) == Ok(Read(v, end)) && IsI16(v)
    ensures Values(payload, 0, |front| + 1) == Ok(Read(front + [v], end))
  {
    hide ReadSigned;
  }

  lemma EncodeAllLast(front: seq<int>, v: int)
    ensures EncodeAll(front + [v]) == EncodeAll(front) + Encode(v)
  {
    hide Encode;
    assert (front + [v])[..|front|] == front;
  }

  lemma {:induction false} ValuesRoundTrip(values: seq<int>, after: seq<Byte>)
    requires forall i :: 0 <= i < |values| ==> IsI16(values[i])
    ensures Values(EncodeAll(values) + after, 0, |values|) == Ok(Read(values, |EncodeAll(values)|))
  {
    if values != [] {
      hide Encode, ReadSigned, Values, EncodeAll;
      var front, v := values[..|values| - 1], values[|values| - 1];
      assert values == front + [v];
      EncodeAllLast(front, v);
      var payload := EncodeAll(values) + after;
      assert payload == EncodeAll(front) + (Encode(v) + after) == EncodeAll(front) + Encode(v) + after;
      ValuesRoundTrip(front, Encode(v) + after);
      RoundTrip(EncodeAll(front), v, after);
      ValuesNext(payload, front, v, |EncodeAll(front)|, |EncodeAll(front)| + |Encode(v)|);
    }
  }

  // ----- reading a piece where it stands -----

  ghost predicate At(f: seq<Byte>, pos: nat, piece: seq<Byte>) {
    pos + |piece| <= |f| && f[pos..pos + |piece|] == piece
  }

  lemma AtParts(f: seq<Byte>, pos: nat, a: seq<Byte>, b: seq<Byte>)
    requires At(f, pos, a + b)
    ensures At(f, pos, a) && At(f, pos + |a|, b)
  {
    assert f[pos..pos + |a|] == f[pos..pos + |a + b|][..|a|];
    assert f[pos + |a|..pos + |a| + |b|] == f[pos..pos + |a + b|][|a|..];
  }

  lemma SliceAt(f: seq<Byte>, pos: nat, piece: seq<Byte>)
    requires At(f, pos, piece)
    ensures Slice(f, pos, |piece|) == Ok(Read(piece, pos + |piece|))
  {}

  lemma U32At(f: seq<Byte>, pos: nat, n: nat)
    requires n < 0x1_0000_0000 && At(f, pos, ToLe(n))
    ensures U32(f, pos) == Ok(Read(n, pos + 4))
  {
    hide FromLe, ToLe, Slice, At;
    LeRoundTrip(n);
    SliceAt(f, pos, ToLe(n));
  }

  /** An encoded block is read back exactly, and consumed exactly, wherever it stands. */
  lemma BlockAt(f: seq<Byte>, pos: nat, values: seq<int>)
    requires forall i :: 0 <= i < |values| ==> IsI16(values[i])
    requires 3 * |values| < 0x1_0000_0000 && At(f, pos, EncodeBlock(values))
    ensures Block(f, pos, |values|) == Ok(Read(values, pos + |EncodeBlock(values)|))
  {
    var payload := EncodeAll(values);
    EncodedSize(values);
    ValuesRoundTrip(values, []);
    assert payload + [] == payload;
    hide EncodeAll, Values, ToLe, Slice, U32, At;
    assert EncodeBlock(values) == MAGIC + (ToLe(|payload|) + payload);
    AtParts(f, pos, MAGIC, ToLe(|payload|) + payload);
    AtParts(f, pos + |MAGIC|, ToLe(|payload|), payload);
    SliceAt(f, pos, MAGIC);
    U32At(f, pos + |MAGIC|, |payload|);
    SliceAt(f, pos + |MAGIC| + 4, payload);
  }

  lemma BlockRoundTrip(before: seq<Byte>, values: seq<int>, after: seq<Byte>)
    requires forall i :: 0 <= i < |values| ==> IsI16(values[i])
    requires 3 * |values| < 0x1_0000_0000
    ensures Block(before + EncodeBlock(values) + after, |before|, |values|)
         == Ok(Read(values, |before| + |EncodeBlock(values)|))
  {
    hide EncodeBlock, Block;
    BlockAt(before + EncodeBlock(values) + after, |before|, values);
  }

  // ----- the reader itself -----

  class ByteReader {
    const bytes: seq<Byte>
    var pos: nat

    constructor (bytes: seq<Byte>)
      ensures this.bytes == bytes && pos == 0
    {
      this.bytes := bytes;
      pos := 0;
    }

    /** Advances only on success. */
    method ReadSlice(n: nat) returns (r: Result<seq<Byte>>)
      modifies this
      ensures match Slice(bytes, old(pos), n)
              case Ok(s) => r == Ok(s.value) && pos == s.pos
              case Err(e) => r == Err(e) && pos == old(pos)
    {
      var end := pos + n;
      if end > |bytes| {
        return Err(SizeMismatch(end, |bytes|));
      }
      r := Ok(bytes[pos..end]);
      pos := end;
    }

    method ReadU32() returns (r: Result<nat>)
      modifies this
      ensures match U32(bytes, old(pos))
              case Ok(s) => r == Ok(s.value) && pos == s.pos
              case Err(e) => r == Err(e) && pos == old(pos)
    {
      var s :- ReadSlice(4);
      r := Ok(FromLe(s));
    }

    /** Decodes one block into `out`, whose length is the number of values. */
    method ReadBlockInto(out: array<int>) returns (r: Result<()>)
      modifies this, out
      ensures match Block(bytes, old(pos), out.Length)
              case Ok(b) => r == Ok(()) && out[..] == b.value && pos == b.pos
              case Err(e) => r == Err(e)
    {
      hide Take, ReadSigned;
      var count := out.Length;
      var magic :- ReadSlice(|MAGIC|);
      if magic != MAGIC {
        return Err(BadMagic);
      }
      var left :- ReadU32();
      if left > 3 * count {
        return Err(TooManyBytes(left, 3 * count));
      }
      var payload :- ReadSlice(left);
      var at :- DecodeInto(payload, out);
      if at != |payload| {
        return Err(UnusedBytes(if at < |payload| then |payload| - at else 0));
      }
      r := Ok(());
    }
  }

  lemma {:induction false} ValuesFail(payload: seq<Byte>, k: nat, count: nat)
    requires k <= count && Values(payload, 0, k).Err?
    ensures Values(payload, 0, count) == Values(payload, 0, k)
    decreases count
  {
    if k < count {
      ValuesFail(payload, k, count - 1);
    }
  }

  method DecodeInto(payload: seq<Byte>, out: array<int>) returns (r: Result<nat>)
    modifies out
    ensures match Values(payload, 0, out.Length)
            case Ok(v) => r == Ok(v.pos) && out[..] == v.value
            case Err(e) => r == Err(e)
  {
    hide ReadSigned;
    var pos := 0;
    for k := 0 to out.Length
      invariant Values(payload, 0, k) == Ok(Read(out[..k], pos))
    {
      var v := ReadSignedLeb128(payload, pos);
      if v.Err? {
        ValuesFail(payload, k + 1, out.Length);
        return Err(v.error);
      }
      if !IsI16(v.value.value) {
        ValuesFail(payload, k + 1, out.Length);
        return Err(OutOfRange(v.value.value));
      }
      out[k] := v.value.value;
      pos := v.value.pos;
      assert out[..k + 1] == out[..k] + [v.value.value];
    }
    r := Ok(pos);
  }
}
