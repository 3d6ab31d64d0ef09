/** Writing a whole network file and reading it back: the file the encoder builds for a
    network is accepted, and yields that network. */
module NetworkRoundTrip {
  import opened Leb128
  import opened NetworkFile

  const WORD32 := 0x1_0000_0000

  /** Loaded values are twice the stored ones. */
  predicate IsDoubled(values: seq<int>) {
    forall i :: 0 <= i < |values| ==> values[i] % 2 == 0 && IsI16(values[i])
  }

  ghost predicate StackFits(s: Stack, d: Dims) {
    s.hash < WORD32 && |s.arrays| == 6 && forall i :: 0 <= i < 6 ==> |s.arrays[i]| == Sizes(d)[i]
  }

  /** A network of these dimensions whose sizes fit their fields.  The three hashes may be
      anything: the loader only warns about them. */
  ghost predicate Fits(n: Network, d: Dims) {
    && n.hash < WORD32 && |n.arch| < WORD32 && n.ftHash < WORD32
    && |n.biases| == d.hidden && IsDoubled(n.biases) && 3 * |n.biases| < WORD32
    && |n.weights| == d.Weights() && IsDoubled(n.weights) && 3 * |n.weights| < WORD32
    && |n.stacks| == d.stacks && forall i :: 0 <= i < |n.stacks| ==> StackFits(n.stacks[i], d)
  }

  function Halves(values: seq<int>): (r: seq<int>)
    ensures |r| == |values| && forall i :: 0 <= i < |r| ==> r[i] == values[i] / 2
  {
    seq(|values|, i requires 0 <= i < |values| => values[i] / 2)
  }

  function EncodeArrays(arrays: seq<seq<Byte>>): seq<Byte> {
    if arrays == [] then [] else EncodeArrays(arrays[..|arrays| - 1]) + arrays[|arrays| - 1]
  }

  function EncodeStacks(stacks: seq<Stack>): seq<Byte> {
    if stacks == [] then []
    else
      var s := stacks[|stacks| - 1];
      EncodeStacks(stacks[..|stacks| - 1]) + (ToLe(s.hash) + EncodeArrays(s.arrays))
  }

  function EncodeHeader(n: Network): seq<Byte> {
    ToLe(VERSION) + (ToLe(n.hash) + (ToLe(|n.arch|) + n.arch))
  }

  function EncodeFile(n: Network): seq<Byte> {
    EncodeHeader(n)
    + (ToLe(n.ftHash)
       + (EncodeBlock(Halves(n.biases))
          + (EncodeBlock(Halves(n.weights))
             + EncodeStacks(n.stacks))))
  }

  // ----- reading it back -----

  lemma HalvesFit(values: seq<int>)
    requires IsDoubled(values)
    ensures forall i :: 0 <= i < |values| ==> IsI16(Halves(values)[i])
  {}

  lemma {:induction false} DoubledHalves(values: seq<int>)
    requires IsDoubled(values)
    ensures Doubled(Halves(values)) == Ok(values)
  {
    if values != [] {
      var n := |values| - 1;
      DoubledHalves(values[..n]);
      assert Halves(values)[..n] == Halves(values[..n]);
      assert values == values[..n] + [values[n]];
    } else {
      assert Halves(values) == [];
    }
  }

  lemma AtStart(f: seq<Byte>, pos: nat, piece: seq<Byte>)
    requires At(f, pos, piece)
    ensures pos <= |f|
  {}

  lemma {:induction false} ArraysAt(f: seq<Byte>, pos: nat, arrays: seq<seq<Byte>>, sizes: seq<nat>)
    requires |arrays| == |sizes| && forall i :: 0 <= i < |sizes| ==> |arrays[i]| == sizes[i]
    requires pos <= |f| && At(f, pos, EncodeArrays(arrays))
    ensures Arrays(f, pos, sizes) == Ok(Read(arrays, pos + |EncodeArrays(arrays)|))
  {
    if arrays != [] {
      var n := |arrays| - 1;
      AtParts(f, pos, EncodeArrays(arrays[..n]), arrays[n]);
      hide At;
      AtStart(f, pos, EncodeArrays(arrays[..n]));
      ArraysAt(f, pos, arrays[..n], sizes[..n]);
      SliceAt(f, pos + |EncodeArrays(arrays[..n])|, arrays[n]);
      hide Slice;
      assert arrays == arrays[..n] + [arrays[n]];
    }
  }

  lemma StackAt(f: seq<Byte>, pos: nat, s: Stack, d: Dims)
    requires StackFits(s, d) && At(f, pos, ToLe(s.hash) + EncodeArrays(s.arrays))
    ensures U32(f, pos) == Ok(Read(s.hash, pos + 4))
    ensures Arrays(f, pos + 4, Sizes(d)) == Ok(Read(s.arrays, pos + 4 + |EncodeArrays(s.arrays)|))
  {
    hide ToLe, U32, Arrays, EncodeArrays;
    AtParts(f, pos, ToLe(s.hash), EncodeArrays(s.arrays));
    U32At(f, pos, s.hash);
    ArraysAt(f, pos + 4, s.arrays, Sizes(d));
  }

  lemma {:induction false} StacksAt(f: seq<Byte>, pos: nat, stacks: seq<Stack>, d: Dims)
    requires forall i :: 0 <= i < |stacks| ==> StackFits(stacks[i], d)
    requires At(f, pos, EncodeStacks(stacks))
    ensures Stacks(f, pos, d, |stacks|) == Ok(Read(stacks, pos + |EncodeStacks(stacks)|))
    decreases |stacks|
  {
    hide ToLe, U32, Arrays, EncodeArrays, StackFits, Sizes;
    if stacks != [] {
      var n := |stacks| - 1;
      var s := stacks[n];
      AtParts(f, pos, EncodeStacks(stacks[..n]), ToLe(s.hash) + EncodeArrays(s.arrays));
      StacksAt(f, pos, stacks[..n], d);
      StackAt(f, pos + |EncodeStacks(stacks[..n])|, s, d);
      assert stacks == stacks[..n] + [s] && s == Stack(s.hash, s.arrays);
    }
  }

  lemma HeaderAt(f: seq<Byte>, n: Network)
    requires n.hash < WORD32 && |n.arch| < WORD32 && At(f, 0, EncodeHeader(n))
    ensures ReadHeader(f, 0) == Ok(Read(Header(n.hash, n.arch), |EncodeHeader(n)|))
  {
    hide ToLe, U32;
    AtParts(f, 0, ToLe(VERSION), ToLe(n.hash) + (ToLe(|n.arch|) + n.arch));
    AtParts(f, 4, ToLe(n.hash), ToLe(|n.arch|) + n.arch);
    AtParts(f, 8, ToLe(|n.arch|), n.arch);
    U32At(f, 0, VERSION);
    U32At(f, 4, n.hash);
    U32At(f, 8, |n.arch|);
  }

  lemma FivePieces(f: seq<Byte>, a: seq<Byte>, b: seq<Byte>, c: seq<Byte>, e: seq<Byte>, g: seq<Byte>)
    requires f == a + (b + (c + (e + g)))
    ensures At(f, 0, a) && At(f, |a|, b) && At(f, |a| + |b|, c)
    ensures At(f, |a| + |b| + |c|, e) && At(f, |a| + |b| + |c| + |e|, g)
    ensures |f| == |a| + |b| + |c| + |e| + |g|
  {
    assert At(f, 0, f);
    hide At;
    AtParts(f, 0, a, b + (c + (e + g)));
    AtParts(f, |a|, b, c + (e + g));
    AtParts(f, |a| + |b|, c, e + g);
    AtParts(f, |a| + |b| + |c|, e, g);
  }

  /** How the parts read make up the whole. */
  lemma BodyReads(f: seq<Byte>, d: Dims, h: Read<Header>, ft: Read<nat>, b: Read<seq<int>>, w: Read<seq<int>>,
                  stacks: Read<seq<Stack>>, biases: seq<int>, weights: seq<int>)
    requires ReadHeader(f, 0) == Ok(h) && U32(f, h.pos) == Ok(ft)
    requires Block(f, ft.pos, d.hidden) == Ok(b) && Doubled(b.value) == Ok(biases)
    requires Block(f, b.pos, d.Weights()) == Ok(w) && Doubled(w.value) == Ok(weights)
    requires Stacks(f, w.pos, d, d.stacks) == Ok(stacks) && stacks.pos == |f|
    ensures Parse(f, d) == Ok(Network(h.value.hash, h.value.arch, ft.value, biases, weights, stacks.value))
  {
    hide ReadHeader, U32, Block, Doubled, Stacks, Dims.Weights;
  }

  // ----- what an accepted file looks like -----

  function Framed(payload: seq<Byte>): seq<Byte> {
    MAGIC + (ToLe(|payload|) + payload)
  }

  /** The payload is made of the codes of these values, halved, and of nothing else; a code
      need not be the shortest. */
  predicate Carries(payload: seq<Byte>, values: seq<int>) {
    && |payload| <= 3 * |values| && |payload| < WORD32 && IsDoubled(values)
    && Values(payload, 0, |values|) == Ok(Read(Halves(values), |payload|))
  }

  ghost predicate ShapeFits(n: Network, d: Dims) {
    && n.hash < WORD32 && |n.arch| < WORD32 && n.ftHash < WORD32
    && |n.biases| == d.hidden && |n.weights| == d.Weights()
    && |n.stacks| == d.stacks && forall i :: 0 <= i < |n.stacks| ==> StackFits(n.stacks[i], d)
  }

  /** The file, piece by piece, with these payloads in its two compressed blocks. */
  ghost predicate IsFile(f: seq<Byte>, n: Network, d: Dims, biases: seq<Byte>, weights: seq<Byte>) {
    && ShapeFits(n, d) && Carries(biases, n.biases) && Carries(weights, n.weights)
    && f == EncodeHeader(n) + (ToLe(n.ftHash) + (Framed(biases) + (Framed(weights) + EncodeStacks(n.stacks))))
  }

  lemma LastByte(n: nat, q: nat, b: Byte)
    requires n == b + 0x100 * q
    ensures n / 0x100 == q && n % 0x100 == b
  {}

  lemma LeUnique(b: seq<Byte>)
    requires |b| == 4
    ensures FromLe(b) < WORD32 && ToLe(FromLe(b)) == b
  {
    var b1: int, b2: int, b3: int := b[1], b[2], b[3];
    var n, q1, q2 := FromLe(b), b1 + 0x100 * b2 + 0x1_0000 * b3, b2 + 0x100 * b3;
    LastByte(n, q1, b[0]);
    LastByte(q1, q2, b[1]);
    LastByte(q2, b3, b[2]);
    assert n / 0x1_0000 == q2 && n / 0x100_0000 == b3 by {
      assert n == b[0] + 0x100 * b1 + 0x1_0000 * q2 && n == b[0] + 0x100 * b1 + 0x1_0000 * b2 + 0x100_0000 * b3;
    }
  }

  lemma U32Reads(f: seq<Byte>, pos: nat, r: Read<nat>)
    requires U32(f, pos) == Ok(r)
    ensures r.value < WORD32 && r.pos == pos + 4 && At(f, pos, ToLe(r.value))
  {
    LeUnique(f[pos..pos + 4]);
    hide FromLe, ToLe;
  }

  lemma SliceReads(f: seq<Byte>, pos: nat, n: nat, r: Read<seq<Byte>>)
    requires Slice(f, pos, n) == Ok(r)
    ensures |r.value| == n && r.pos == pos + n && At(f, pos, r.value)
  {}

  lemma AtJoin(f: seq<Byte>, pos: nat, a: seq<Byte>, b: seq<Byte>)
    requires At(f, pos, a) && At(f, pos + |a|, b)
    ensures At(f, pos, a + b)
  {
    assert f[pos..pos + |a + b|] == f[pos..pos + |a|] + f[pos + |a|..pos + |a| + |b|];
  }

  lemma HeaderReads(f: seq<Byte>, r: Read<Header>, n: Network)
    requires ReadHeader(f, 0) == Ok(r) && n.hash == r.value.hash && n.arch == r.value.arch
    ensures n.hash < WORD32 && |n.arch| < WORD32 && r.pos == |EncodeHeader(n)| && At(f, 0, EncodeHeader(n))
  {
    hide U32, Slice, ToLe, At;
    var version := U32(f, 0).value;
    U32Reads(f, 0, version);
    var hash := U32(f, version.pos).value;
    U32Reads(f, version.pos, hash);
    var size := U32(f, hash.pos).value;
    U32Reads(f, hash.pos, size);
    var arch := Slice(f, size.pos, size.value).value;
    SliceReads(f, size.pos, size.value, arch);
    AtJoin(f, 8, ToLe(size.value), arch.value);
    AtJoin(f, 4, ToLe(hash.value), ToLe(size.value) + arch.value);
    AtJoin(f, 0, ToLe(version.value), ToLe(hash.value) + (ToLe(size.value) + arch.value));
  }

  lemma HalvesAppend(values: seq<int>, v: int)
    requires IsDoubled(values) && IsI16(2 * v)
    ensures IsDoubled(values + [2 * v]) && Halves(values + [2 * v]) == Halves(values) + [v]
  {}

  lemma {:induction false} HalvesOfDoubled(raw: seq<int>)
    requires Doubled(raw).Ok?
    ensures var values := Doubled(raw).value; |values| == |raw| && IsDoubled(values) && Halves(values) == raw
  {
    if raw != [] {
      hide IsDoubled, Halves;
      var n := |raw| - 1;
      HalvesOfDoubled(raw[..n]);
      HalvesAppend(Doubled(raw[..n]).value, raw[n]);
      assert raw == raw[..n] + [raw[n]];
    }
  }

  lemma {:induction false} ValuesCount(payload: seq<Byte>, pos: nat, count: nat)
    requires Values(payload, pos, count).Ok?
    ensures |Values(payload, pos, count).value.value| == count
    decreases count
  {
    hide ReadSigned;
    if count > 0 {
      ValuesCount(payload, pos, count - 1);
    }
  }

  /** A block that is read and doubled: its payload carries the doubled values. */
  lemma BlockReads(f: seq<Byte>, pos: nat, count: nat, r: Read<seq<int>>, values: seq<int>) returns (payload: seq<Byte>)
    requires Block(f, pos, count) == Ok(r) && Doubled(r.value) == Ok(values)
    ensures |values| == count && Carries(payload, values)
    ensures r.pos == pos + |Framed(payload)| && At(f, pos, Framed(payload))
  {
    hide U32, Slice, ToLe, At, Values, Doubled, Halves, IsDoubled;
    var magic := Slice(f, pos, |MAGIC|).value;
    SliceReads(f, pos, |MAGIC|, magic);
    var left := U32(f, magic.pos).value;
    U32Reads(f, magic.pos, left);
    var p := Slice(f, left.pos, left.value).value;
    SliceReads(f, left.pos, left.value, p);
    payload := p.value;
    ValuesCount(payload, 0, count);
    HalvesOfDoubled(r.value);
    AtJoin(f, magic.pos, ToLe(left.value), payload);
    AtJoin(f, pos, MAGIC, ToLe(left.value) + payload);
  }

  /** And the other way round. */
  lemma FramedAt(f: seq<Byte>, pos: nat, payload: seq<Byte>, values: seq<int>)
    requires Carries(payload, values) && At(f, pos, Framed(payload))
    ensures Block(f, pos, |values|) == Ok(Read(Halves(values), pos + |Framed(payload)|))
    ensures Doubled(Halves(values)) == Ok(values)
  {
    DoubledHalves(values);
    hide ToLe, Slice, U32, At, Values, Doubled, IsDoubled, Halves;
    AtParts(f, pos, MAGIC, ToLe(|payload|) + payload);
    AtParts(f, pos + |MAGIC|, ToLe(|payload|), payload);
    SliceAt(f, pos, MAGIC);
    U32At(f, pos + |MAGIC|, |payload|);
    SliceAt(f, pos + |MAGIC| + 4, payload);
  }

  lemma {:induction false} ArraysRead(f: seq<Byte>, pos: nat, sizes: seq<nat>, r: Read<seq<seq<Byte>>>)
    requires pos <= |f| && Arrays(f, pos, sizes) == Ok(r)
    ensures |r.value| == |sizes| && forall i :: 0 <= i < |sizes| ==> |r.value[i]| == sizes[i]
    ensures r.pos == pos + |EncodeArrays(r.value)| && At(f, pos, EncodeArrays(r.value))
  {
    if sizes != [] {
      var k := |sizes| - 1;
      var front := Arrays(f, pos, sizes[..k]).value;
      ArraysRead(f, pos, sizes[..k], front);
      var last := Slice(f, front.pos, sizes[k]).value;
      SliceReads(f, front.pos, sizes[k], last);
      assert r.value[..k] == front.value;
      hide At;
      AtJoin(f, pos, EncodeArrays(front.value), last.value);
    }
  }

  lemma StackReads(f: seq<Byte>, pos: nat, d: Dims, hash: Read<nat>, arrays: Read<seq<seq<Byte>>>)
    requires U32(f, pos) == Ok(hash) && Arrays(f, hash.pos, Sizes(d)) == Ok(arrays)
    ensures StackFits(Stack(hash.value, arrays.value), d)
    ensures arrays.pos == pos + |ToLe(hash.value) + EncodeArrays(arrays.value)|
    ensures At(f, pos, ToLe(hash.value) + EncodeArrays(arrays.value))
  {
    U32Reads(f, pos, hash);
    assert hash.pos <= |f|;
    ArraysRead(f, hash.pos, Sizes(d), arrays);
    hide At, ToLe, U32, Arrays, EncodeArrays, Sizes;
    AtJoin(f, pos, ToLe(hash.value), EncodeArrays(arrays.value));
  }

  lemma {:induction false} StacksRead(f: seq<Byte>, pos: nat, d: Dims, n: nat, r: Read<seq<Stack>>)
    requires pos <= |f| && Stacks(f, pos, d, n) == Ok(r)
    ensures |r.value| == n && forall i :: 0 <= i < n ==> StackFits(r.value[i], d)
    ensures r.pos == pos + |EncodeStacks(r.value)| && At(f, pos, EncodeStacks(r.value))
    decreases n
  {
    hide U32, Arrays, EncodeArrays, Sizes, ToLe, StackFits;
    if n > 0 {
      var front := Stacks(f, pos, d, n - 1).value;
      StacksRead(f, pos, d, n - 1, front);
      var hash := U32(f, front.pos).value;
      var arrays := Arrays(f, hash.pos, Sizes(d)).value;
      StackReads(f, front.pos, d, hash, arrays);
      assert r.value[..n - 1] == front.value;
      hide At;
      AtJoin(f, pos, EncodeStacks(front.value), ToLe(hash.value) + EncodeArrays(arrays.value));
    }
  }

  /** An accepted file is written out: the version word first, then every piece in turn. */
  lemma AcceptedIsFile(f: seq<Byte>, n: Network, d: Dims) returns (biases: seq<Byte>, weights: seq<Byte>)
    requires Parse(f, d) == Ok(n)
    ensures IsFile(f, n, d, biases, weights)
  {
    hide ReadHeader, U32, Block, Doubled, Stacks, ToLe, Framed, EncodeHeader, EncodeStacks, At, Dims.Weights, Carries;
    hide StackFits;
    var header := ReadHeader(f, 0).value;
    HeaderReads(f, header, n);
    var ftHash := U32(f, header.pos).value;
    U32Reads(f, header.pos, ftHash);
    var b := Block(f, ftHash.pos, d.hidden).value;
    biases := BlockReads(f, ftHash.pos, d.hidden, b, n.biases);
    var w := Block(f, b.pos, d.Weights()).value;
    weights := BlockReads(f, b.pos, d.Weights(), w, n.weights);
    var stacks := Stacks(f, w.pos, d, d.stacks).value;
    WithinFile(f, b.pos, Framed(weights));
    StacksRead(f, w.pos, d, d.stacks, stacks);
    AtJoin(f, b.pos, Framed(weights), EncodeStacks(n.stacks));
    AtJoin(f, ftHash.pos, Framed(biases), Framed(weights) + EncodeStacks(n.stacks));
    AtJoin(f, header.pos, ToLe(n.ftHash), Framed(biases) + (Framed(weights) + EncodeStacks(n.stacks)));
    var tail := ToLe(n.ftHash) + (Framed(biases) + (Framed(weights) + EncodeStacks(n.stacks)));
    AtJoin(f, 0, EncodeHeader(n), tail);
    WholeFile(f, EncodeHeader(n) + tail);
  }

  lemma WithinFile(f: seq<Byte>, pos: nat, piece: seq<Byte>)
    requires At(f, pos, piece)
    ensures pos + |piece| <= |f|
  {}

  lemma WholeFile(f: seq<Byte>, piece: seq<Byte>)
    requires At(f, 0, piece) && |piece| == |f|
    ensures f == piece
  {}

  lemma FileIsAccepted(f: seq<Byte>, n: Network, d: Dims, biases: seq<Byte>, weights: seq<Byte>)
    requires IsFile(f, n, d, biases, weights)
    ensures Parse(f, d) == Ok(n)
  {
    hide EncodeHeader, EncodeStacks, Framed, Carries, ToLe, Halves, StackFits;
    hide ReadHeader, U32, Block, Doubled, Stacks, At, Parse, Dims.Weights;
    var header, tail := EncodeHeader(n), EncodeStacks(n.stacks);
    FivePieces(f, header, ToLe(n.ftHash), Framed(biases), Framed(weights), tail);
    var p1 := |header|;
    var p3 := p1 + 4 + |Framed(biases)|;
    var p4 := p3 + |Framed(weights)|;
    HeaderAt(f, n);
    U32At(f, p1, n.ftHash);
    FramedAt(f, p1 + 4, biases, n.biases);
    FramedAt(f, p3, weights, n.weights);
    StacksAt(f, p4, n.stacks, d);
    BodyReads(f, d, Read(Header(n.hash, n.arch), p1), Read(n.ftHash, p1 + 4), Read(Halves(n.biases), p3),
              Read(Halves(n.weights), p4), Read(n.stacks, p4 + |tail|), n.biases, n.weights);
    assert n == Network(n.hash, n.arch, n.ftHash, n.biases, n.weights, n.stacks);
  }

  /** Exactly which files are accepted, and as which network. */
  lemma AcceptedExactly(f: seq<Byte>, n: Network, d: Dims)
    ensures Parse(f, d) == Ok(n) <==> exists biases, weights :: IsFile(f, n, d, biases, weights)
    ensures Parse(f, d).Ok? ==> 4 <= |f| && f[..4] == [0x16, 0x2F, 0xF3, 0x7A]
  {
    hide Parse, IsFile;
    if Parse(f, d).Ok? {
      var m := Parse(f, d).value;
      var biases, weights := AcceptedIsFile(f, m, d);
      VersionFirst(f, m, d, biases, weights);
    }
    if biases, weights :| IsFile(f, n, d, biases, weights) {
      FileIsAccepted(f, n, d, biases, weights);
    }
  }

  lemma VersionFirst(f: seq<Byte>, n: Network, d: Dims, biases: seq<Byte>, weights: seq<Byte>)
    requires IsFile(f, n, d, biases, weights)
    ensures 4 <= |f| && f[..4] == [0x16, 0x2F, 0xF3, 0x7A]
  {
    hide Carries, ShapeFits, Framed, EncodeStacks;
    assert f[..4] == ToLe(VERSION);
  }

  /** The shortest codes carry the values as well. */
  lemma ShortestCarry(values: seq<int>)
    requires IsDoubled(values) && 3 * |values| < WORD32
    ensures Carries(EncodeAll(Halves(values)), values)
    ensures Framed(EncodeAll(Halves(values))) == EncodeBlock(Halves(values))
  {
    HalvesFit(values);
    hide Halves, EncodeAll, Values, ToLe;
    EncodedSize(Halves(values));
    ValuesRoundTrip(Halves(values), []);
    assert EncodeAll(Halves(values)) + [] == EncodeAll(Halves(values));
  }

  /** Every network comes back from the file written for it, and the file is used up. */
  lemma FileRoundTrip(n: Network, d: Dims)
    requires Fits(n, d)
    ensures Parse(EncodeFile(n), d) == Ok(n)
  {
    hide Parse, EncodeHeader, EncodeBlock, EncodeStacks, EncodeAll, ToLe, Halves, StackFits, Carries, Framed,
         Dims.Weights;
    ShortestCarry(n.biases);
    ShortestCarry(n.weights);
    FileIsAccepted(EncodeFile(n), n, d, EncodeAll(Halves(n.biases)), EncodeAll(Halves(n.weights)));
  }
}
