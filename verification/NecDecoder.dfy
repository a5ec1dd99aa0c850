/** decode_nec: a tolerance-based decoder for NEC remote-control bursts. */
module NecDecoder {
  import opened Common

  datatype Kind = Pulse | Space
  datatype Edge = Edge(kind: Kind, us: nat)

  datatype Decoded =
    | Repeat
    | Partial(bits: nat)
    | Frame(address: nat, command: nat, raw: nat, addressOk: bool, commandOk: bool)

  /** `abs(value - target) <= target * tolerance`, the product in whole
      microseconds: 30 % of 9000, 4500, 2250 and 1690, and 40 % of 560. */
  predicate Near(value: nat, target: nat, slack: nat) {
    target - slack <= value <= target + slack
  }

  predicate IsHeader(e: Edge) {
    e.kind == Pulse && Near(e.us, 9000, 2700)
  }

  predicate IsRepeatGap(us: nat) {
    Near(us, 2250, 675)
  }

  predicate IsFrameGap(us: nat) {
    Near(us, 4500, 1350)
  }

  predicate IsMark(us: nat) {
    Near(us, 560, 224)
  }

  predicate IsOneGap(us: nat) {
    Near(us, 1690, 507)
  }

  /** The bit that a pulse and the space after it stand for. */
  function PairBit(pulse: Edge, space: Edge): Option<nat> {
    if pulse.kind != Pulse || space.kind != Space || !IsMark(pulse.us) then None
    else if IsMark(space.us) then Some(0)
    else if IsOneGap(space.us) then Some(1)
    else None
  }

  /** Little-endian value of a bit list. */
  function Value(bits: seq<nat>): nat {
    if bits == [] then 0 else bits[0] + 2 * Value(bits[1..])
  }

  predicate IsBits(bits: seq<nat>) {
    forall i :: 0 <= i < |bits| ==> bits[i] <= 1
  }

  function Pow2(n: nat): (p: nat)
    ensures 0 < p
  {
    if n == 0 then 1 else 2 * Pow2(n - 1)
  }

  /** The n low bits of w, lowest first. */
  function Bits(w: nat, n: nat): (bits: seq<nat>)
    ensures |bits| == n && IsBits(bits)
  {
    if n == 0 then [] else [w % 2] + Bits(w / 2, n - 1)
  }

  lemma {:induction false} ValueOfBits(w: nat, n: nat)
    requires w < Pow2(n)
    ensures Value(Bits(w, n)) == w
  {
    if n != 0 {
      ValueOfBits(w / 2, n - 1);
      assert Bits(w, n)[1..] == Bits(w / 2, n - 1);
    }
  }

  lemma {:induction false} BitsOfValue(bits: seq<nat>)
    requires IsBits(bits)
    ensures Value(bits) < Pow2(|bits|) && Bits(Value(bits), |bits|) == bits
  {
    if bits != [] {
      BitsOfValue(bits[1..]);
    }
  }

  lemma {:induction false} ValueConcat(a: seq<nat>, b: seq<nat>)
    ensures Value(a + b) == Value(a) + Pow2(|a|) * Value(b)
  {
    if a == [] {
      assert a + b == b;
    } else {
      assert (a + b)[1..] == a[1..] + b;
      ValueConcat(a[1..], b);
      CarryDown(a[0], Value(a[1..]), Pow2(|a| - 1), Value(b));
    }
  }

  lemma CarryDown(x: nat, v: nat, p: nat, w: nat)
    ensures x + 2 * (v + p * w) == x + 2 * v + (2 * p) * w
  {
    Doubling(w, p);
  }

  lemma {:induction false} ValueSnoc(a: seq<nat>, b: nat)
    ensures Value(a + [b]) == Value(a) + b * Pow2(|a|)
  {
    if a != [] {
      assert (a + [b])[1..] == a[1..] + [b];
      ValueSnoc(a[1..], b);
      Doubling(b, Pow2(|a| - 1));
    }
  }

  lemma Doubling(b: nat, p: nat)
    ensures b * (2 * p) == 2 * (b * p) == 2 * (p * b) == (2 * p) * b
  {
  }

  lemma ByteRange()
    ensures Pow2(8) == 0x100
  {
    assert Pow2(2) == 4;
    assert Pow2(4) == 16;
    assert Pow2(6) == 64;
  }

  /** Every bit differs: x ^ y is all ones. */
  predicate Complements(x: seq<nat>, y: seq<nat>)
    requires |x| == |y|
  {
    forall i :: 0 <= i < |x| ==> x[i] != y[i]
  }

  lemma {:induction false} ComplementsSum(x: seq<nat>, y: seq<nat>)
    requires |x| == |y| && IsBits(x) && IsBits(y)
    ensures Complements(x, y) <==> Value(x) + Value(y) == Pow2(|x|) - 1
  {
    if x != [] {
      ComplementsSum(x[1..], y[1..]);
      assert Complements(x, y) <==> x[0] != y[0] && Complements(x[1..], y[1..]) by {
        assert forall i :: 1 <= i < |x| ==> x[i] == x[1..][i - 1] && y[i] == y[1..][i - 1];
      }
    }
  }

  /** The longest run of good pairs from edge i on, at most `limit` of them. */
  function GoodBits(edges: seq<Edge>, i: nat, limit: nat): (bits: seq<nat>)
    ensures |bits| <= limit && IsBits(bits)
    decreases |edges| - i
  {
    if limit == 0 || |edges| <= i + 1 then []
    else
      var bit := PairBit(edges[i], edges[i + 1]);
      if bit.None? then [] else [bit.value] + GoodBits(edges, i + 2, limit - 1)
  }

  function FrameOf(bits: seq<nat>): Decoded
    requires |bits| == 32
  {
    Frame(Value(bits[0..8]), Value(bits[16..24]), Value(bits),
          Complements(bits[0..8], bits[8..16]), Complements(bits[16..24], bits[24..32]))
  }

  function Decode(edges: seq<Edge>): Option<Decoded> {
    if |edges| < 2 || !IsHeader(edges[0]) then None
    else if IsRepeatGap(edges[1].us) then Some(Repeat)
    else if !IsFrameGap(edges[1].us) then None
    else
      var bits := GoodBits(edges, 2, 32);
      if |bits| != 32 then Some(Partial(|bits|)) else Some(FrameOf(bits))
  }

  /** byte_at: eight bits, each shifted to its place. */
  method ByteAt(bits: seq<nat>, offset: nat) returns (value: nat)
    requires offset + 8 <= |bits| && IsBits(bits)
    ensures value == Value(bits[offset..offset + 8]) < 256
  {
    value := Combine(bits[offset..offset + 8]);
    BitsOfValue(bits[offset..offset + 8]);
    ByteRange();
  }

  /** `value |= bit << position` over a bit list; the bits do not overlap, so the
      or is a sum. */
  method Combine(bits: seq<nat>) returns (value: nat)
    ensures value == Value(bits)
  {
    value := 0;
    for position := 0 to |bits|
      invariant value == Value(bits[..position])
    {
      ValueSnoc(bits[..position], bits[position]);
      assert bits[..position + 1] == bits[..position] + [bits[position]];
      value := value + bits[position] * Pow2(position);
    }
    assert bits[..|bits|] == bits;
  }

  /** `bits` is what the pairs before edge i gave. */
  ghost predicate ReadSoFar(edges: seq<Edge>, i: nat, bits: seq<nat>) {
    && i == 2 + 2 * |bits| && |bits| <= 32
    && bits + GoodBits(edges, i, 32 - |bits|) == GoodBits(edges, 2, 32)
  }

  lemma ReadStops(edges: seq<Edge>, i: nat, bits: seq<nat>)
    requires ReadSoFar(edges, i, bits)
    requires |edges| <= i + 1 || |bits| == 32 || PairBit(edges[i], edges[i + 1]).None?
    ensures bits == GoodBits(edges, 2, 32)
  {
    assert GoodBits(edges, i, 32 - |bits|) == [];
  }

  lemma ReadGoesOn(edges: seq<Edge>, i: nat, bits: seq<nat>, b: nat)
    requires ReadSoFar(edges, i, bits) && i + 1 < |edges| && |bits| < 32
    requires PairBit(edges[i], edges[i + 1]) == Some(b)
    ensures ReadSoFar(edges, i + 2, bits + [b])
  {
    var rest := GoodBits(edges, i + 2, 31 - |bits|);
    assert GoodBits(edges, i, 32 - |bits|) == [b] + rest;
    assert bits + ([b] + rest) == bits + [b] + rest;
  }

  /** The bit loop: stops at the first pair that is missing or off. */
  method ReadBits(edges: seq<Edge>) returns (bits: seq<nat>)
    ensures bits == GoodBits(edges, 2, 32)
  {
    bits := [];
    var i := 2;
    while i + 1 < |edges| && |bits| < 32
      invariant ReadSoFar(edges, i, bits)
    {
      var pulse, space := edges[i], edges[i + 1];
      if pulse.kind != Pulse || space.kind != Space {
        break;
      }
      if !Near(pulse.us, 560, 224) {
        break;
      }
      var bit: nat;
      if Near(space.us, 560, 224) {
        bit := 0;
      } else if Near(space.us, 1690, 507) {
        bit := 1;
      } else {
        break;
      }
      ReadGoesOn(edges, i, bits, bit);
      bits := bits + [bit];
      i := i + 2;
    }
    ReadStops(edges, i, bits);
  }

  method BuildFrame(bits: seq<nat>) returns (r: Decoded)
    requires |bits| == 32 && IsBits(bits)
    ensures r == FrameOf(bits)
  {
    var address := ByteAt(bits, 0);
    var addressInv := ByteAt(bits, 8);
    var command := ByteAt(bits, 16);
    var commandInv := ByteAt(bits, 24);
    var raw := Combine(bits);
    ComplementsSum(bits[0..8], bits[8..16]);
    ComplementsSum(bits[16..24], bits[24..32]);
    ByteRange();
    r := Frame(address, command, raw, address + addressInv == 255, command + commandInv == 255);
  }

  method DecodeNec(edges: seq<Edge>) returns (r: Option<Decoded>)
    ensures r == Decode(edges)
  {
    if |edges| < 2 {
      return None;
    }
    if edges[0].kind != Pulse || !Near(edges[0].us, 9000, 2700) {
      return None;
    }
    if Near(edges[1].us, 2250, 675) {
      return Some(Repeat);
    }
    if !Near(edges[1].us, 4500, 1350) {
      return None;
    }
    var bits := ReadBits(edges);
    if |bits| != 32 {
      return Some(Partial(|bits|));
    }
    var frame := BuildFrame(bits);
    return Some(frame);
  }

  // ---- what the answers mean ----

  /** The burst begins with a pulse of about 9 ms, the NEC header. */
  predicate HasHeader(edges: seq<Edge>) {
    2 <= |edges| && edges[0].kind == Pulse && 6300 <= edges[0].us <= 11700
  }

  /** A repeat is reported exactly for a header and 2.25 ms behind it, within 30 %. */
  lemma RepeatIff(edges: seq<Edge>)
    ensures Decode(edges) == Some(Repeat) <==> HasHeader(edges) && 1575 <= edges[1].us <= 2925
  {
  }

  /** Nothing is reported exactly for a burst without a header, or with neither 2.25 ms
      nor 4.5 ms behind it. */
  lemma NothingIff(edges: seq<Edge>)
    ensures Decode(edges) == None <==>
            !HasHeader(edges) || (!(1575 <= edges[1].us <= 2925) && !(3150 <= edges[1].us <= 5850))
  {
  }

  /** And a frame or a part of one exactly for a header and 4.5 ms. */
  lemma FrameOrPartialIff(edges: seq<Edge>)
    ensures Decode(edges).Some? && (Decode(edges).value.Frame? || Decode(edges).value.Partial?) <==>
            HasHeader(edges) && 3150 <= edges[1].us <= 5850
  {
  }

  /** The bands of a pair, in microseconds: a mark of 560 and 40 %, then as much of a
      space for 0, or 1690 and 30 % for 1. */
  lemma PairBands(edges: seq<Edge>, j: nat)
    ensures PairAt(edges, j).Some? <==>
            && 2 * j + 3 < |edges| && edges[2 * j + 2].kind == Pulse && edges[2 * j + 3].kind == Space
            && 336 <= edges[2 * j + 2].us <= 784
            && (336 <= edges[2 * j + 3].us <= 784 || 1183 <= edges[2 * j + 3].us <= 2197)
    ensures PairAt(edges, j).Some? ==> PairAt(edges, j).value == if edges[2 * j + 3].us <= 784 then 0 else 1
  {
  }

  /** Pair j of a frame, if the burst is long enough and the pair is in band. */
  function PairAt(edges: seq<Edge>, j: nat): Option<nat> {
    if |edges| <= 2 * j + 3 then None else PairBit(edges[2 * j + 2], edges[2 * j + 3])
  }

  predicate StartsFrame(edges: seq<Edge>) {
    2 <= |edges| && IsHeader(edges[0]) && IsFrameGap(edges[1].us)
  }

  /** The burst carries the 32-bit word w: header, gap, and every pair in the band
      of its bit. */
  predicate Carries(edges: seq<Edge>, w: nat) {
    StartsFrame(edges) && w < Pow2(32) && forall j :: 0 <= j < 32 ==> PairAt(edges, j) == Some(Bits(w, 32)[j])
  }

  /** Exactly n leading pairs are in band, the next one is not. */
  predicate LeadingPairs(edges: seq<Edge>, n: nat) {
    (forall j :: 0 <= j < n ==> PairAt(edges, j).Some?) && PairAt(edges, n).None?
  }

  lemma {:induction false} GoodBitsArePairs(edges: seq<Edge>, k: nat, limit: nat)
    ensures var bits := GoodBits(edges, 2 * k + 2, limit);
            && (forall j :: k <= j < k + |bits| ==> PairAt(edges, j) == Some(bits[j - k]))
            && (|bits| < limit ==> PairAt(edges, k + |bits|).None?)
    decreases limit
  {
    if limit != 0 && 2 * k + 3 < |edges| && PairAt(edges, k).Some? {
      GoodBitsArePairs(edges, k + 1, limit - 1);
      var bits, rest := GoodBits(edges, 2 * k + 2, limit), GoodBits(edges, 2 * (k + 1) + 2, limit - 1);
      assert bits == [PairAt(edges, k).value] + rest;
      forall j | k <= j < k + |bits| ensures PairAt(edges, j) == Some(bits[j - k]) {
        if k < j {
          assert bits[j - k] == rest[j - (k + 1)];
        }
      }
    }
  }

  /** Soundness and completeness of frames: the decoder reports w exactly for the
      bursts that carry w. */
  lemma FrameIffCarries(edges: seq<Edge>, w: nat)
    ensures Decode(edges).Some? && Decode(edges).value.Frame? && Decode(edges).value.raw == w <==> Carries(edges, w)
  {
    FrameIffRead(edges, w);
    CarriesIffRead(edges, w, 32);
  }

  lemma FrameIffRead(edges: seq<Edge>, w: nat)
    ensures Decode(edges).Some? && Decode(edges).value.Frame? && Decode(edges).value.raw == w <==>
            var bits := GoodBits(edges, 2, 32); StartsFrame(edges) && |bits| == 32 && Value(bits) == w
  {
  }

  lemma CarriesIffRead(edges: seq<Edge>, w: nat, n: nat)
    requires n == 32
    ensures var bits := GoodBits(edges, 2, n);
            Carries(edges, w) <==> StartsFrame(edges) && |bits| == n && Value(bits) == w
  {
    var bits := GoodBits(edges, 2, n);
    GoodBitsArePairs(edges, 0, n);
    BitsOfValue(bits);
    if Carries(edges, w) {
      CarriedBitsAreRead(edges, w, n);
      ValueOfBits(w, n);
    }
  }

  lemma CarriedBitsAreRead(edges: seq<Edge>, w: nat, n: nat)
    requires n == 32 && Carries(edges, w)
    ensures GoodBits(edges, 2, n) == Bits(w, n)
  {
    var bits := GoodBits(edges, 2, n);
    GoodBitsArePairs(edges, 0, n);
    assert |bits| == n;
  }

  /** No burst carries two words. */
  lemma CarriesOneWord(edges: seq<Edge>, v: nat, w: nat)
    requires Carries(edges, v) && Carries(edges, w)
    ensures v == w
  {
    FrameIffCarries(edges, v);
    FrameIffCarries(edges, w);
  }

  lemma PartialIffLeading(edges: seq<Edge>, n: nat)
    ensures Decode(edges) == Some(Partial(n)) <==> StartsFrame(edges) && n < 32 && LeadingPairs(edges, n)
  {
    var bits := GoodBits(edges, 2, 32);
    GoodBitsArePairs(edges, 0, 32);
    assert n < |bits| ==> PairAt(edges, n).Some?;
  }

  /** The fields of a frame are the bytes of its word, lowest first, and the two
      checks compare a byte with the complement of its neighbour. */
  predicate FieldsMatch(f: Decoded)
    requires f.Frame?
  {
    var b1, b3 := f.raw / 0x100 % 0x100, f.raw / 0x100_0000;
    && f.raw < 0x1_0000_0000
    && f.address == f.raw % 0x100
    && f.command == f.raw / 0x1_0000 % 0x100
    && (f.addressOk <==> b1 == 255 - f.address)
    && (f.commandOk <==> b3 == 255 - f.command)
  }

  lemma FrameFields(edges: seq<Edge>)
    requires Decode(edges).Some? && Decode(edges).value.Frame?
    ensures FieldsMatch(Decode(edges).value)
  {
    FieldsOf(GoodBits(edges, 2, 32));
  }

  lemma FieldsOf(bits: seq<nat>)
    requires |bits| == 32 && IsBits(bits)
    ensures FieldsMatch(FrameOf(bits))
  {
    var b0, b1, b2, b3 := bits[0..8], bits[8..16], bits[16..24], bits[24..32];
    FourBytes(b0, b1, b2, b3);
    assert b0 + (b1 + (b2 + b3)) == bits;
    ComplementsSum(b0, b1);
    ComplementsSum(b2, b3);
    BytesOfSum(Value(b0), Value(b1), Value(b2), Value(b3));
  }

  lemma BytesOfSum(a: nat, b: nat, c: nat, d: nat)
    requires a < 0x100 && b < 0x100 && c < 0x100 && d < 0x100
    ensures var w := a + 0x100 * b + 0x1_0000 * c + 0x100_0000 * d;
            && w < 0x1_0000_0000 && w % 0x100 == a && w / 0x100 % 0x100 == b
            && w / 0x1_0000 % 0x100 == c && w / 0x100_0000 == d
  {
    SecondByte(a, b, c + 0x100 * d);
    ThirdByte(a + 0x100 * b, c, d);
  }

  lemma SecondByte(a: nat, b: nat, rest: nat)
    requires a < 0x100 && b < 0x100
    ensures (a + 0x100 * b + 0x1_0000 * rest) / 0x100 % 0x100 == b
  {
    assert (a + 0x100 * b + 0x1_0000 * rest) / 0x100 == b + 0x100 * rest;
  }

  lemma ThirdByte(low: nat, c: nat, d: nat)
    requires low < 0x1_0000 && c < 0x100
    ensures (low + 0x1_0000 * c + 0x100_0000 * d) / 0x1_0000 % 0x100 == c
  {
    assert (low + 0x1_0000 * c + 0x100_0000 * d) / 0x1_0000 == c + 0x100 * d;
  }

  lemma FourBytes(a: seq<nat>, b: seq<nat>, c: seq<nat>, d: seq<nat>)
    requires |a| == |b| == |c| == |d| == 8 && IsBits(a) && IsBits(b) && IsBits(c) && IsBits(d)
    ensures Pow2(8) == 0x100
    ensures Value(a) < 0x100 && Value(b) < 0x100 && Value(c) < 0x100 && Value(d) < 0x100
    ensures Value(a + (b + (c + d))) == Value(a) + 0x100 * Value(b) + 0x1_0000 * Value(c) + 0x100_0000 * Value(d)
  {
    ByteRange();
    BitsOfValue(a);
    BitsOfValue(b);
    BitsOfValue(c);
    BitsOfValue(d);
    ValueConcat(a, b + (c + d));
    ValueConcat(b, c + d);
    ValueConcat(c, d);
  }
}
