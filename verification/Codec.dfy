/** The 3-bytes-to-4-sextets codec of ByteWiseTransfer.hpp: what `write`, `read` and `read_flush`
    do to the assembly registers, and that they undo each other. Every byte on the wire carries
    one sextet in its low six bits and two signal bits on top. */
module Codec {
  import opened Bits

  /** `writeAssembly` and `writeCount`. */
  datatype Encoder = Encoder(assembly: seq<byte>, count: nat) {
    predicate Valid() {
      |assembly| == 3 && count <= 3
    }
  }

  /** `readAssembly` (24 bits) and `readCount`. */
  datatype Decoder = Decoder(assembly: nat, count: nat) {
    predicate Valid() {
      assembly < Pow2(24) && count <= 3
    }
  }

  const NO_DATA: byte := 63

  const EMPTY := Decoder(0, 0)

  /** `write_bits`: bit 7 is the request bit, bit 6 the acknowledge bit. */
  function SetSignals(out: byte, request: bool, acknowledge: bool): byte {
    out % 64 + (if acknowledge then 64 else 0) + (if request then 128 else 0)
  }

  /** `write_assemble`: store the byte and keep what fits beside the carried bits. */
  function WriteAssemble(e: Encoder, w: byte): (r: (Encoder, byte))
    requires e.Valid() && e.count < 3
    ensures r.0.Valid()
  {
    (e.(assembly := e.assembly[e.count := w]), Shr(w, (e.count + 1) * 2))
  }

  /** `write_recover`: the bits the previous byte left over, moved to the top of the sextet. */
  function Carry(e: Encoder): byte
    requires e.Valid() && e.count > 0
  {
    Powers();
    Shr(Shl(e.assembly[e.count - 1], (4 - e.count) * 2, 8), 2)
  }

  /** The `^` of `write_recover`. */
  function Overlay(out: byte, carry: byte): byte {
    Powers();
    XorFits(out, carry, 8);
    Xor(out, carry)
  }

  /** `write`: one byte in, one wire byte out. The fourth call of a round takes no data. */
  function WriteByte(e: Encoder, w: byte, request: bool, acknowledge: bool): (r: (Encoder, byte))
    requires e.Valid()
    ensures r.0.Valid() && r.0.count == (if e.count == 3 then 0 else e.count + 1)
  {
    if e.count < 3 then
      var (e', top) := WriteAssemble(e, w);
      var out := SetSignals(top, request, acknowledge);
      (e'.(count := e.count + 1), if e.count == 0 then out else Overlay(out, Carry(e')))
    else
      (e.(count := 0), Overlay(SetSignals(0, request, acknowledge), Carry(e)))
  }

  /** `read_shift`: overlay the low six bits of `b` at the place of sextet `count`. */
  function ReadShift(d: Decoder, b: byte): (assembly: nat)
    requires d.Valid()
    ensures assembly < Pow2(24)
  {
    var temp := Shr(Shl(b, 18, 24), d.count * 6);
    XorFits(d.assembly, temp, 24);
    Xor(d.assembly, temp)
  }

  /** `read`. */
  function ReadByte(d: Decoder, b: byte): (d': Decoder)
    requires d.Valid()
    ensures d'.Valid() && d'.count == (if d.count == 3 then 0 else d.count + 1)
  {
    Decoder(ReadShift(d, b), if d.count == 3 then 0 else d.count + 1)
  }

  /** Bit 7 of a wire byte. */
  predicate RequestBit(b: byte) {
    b / 128 == 1
  }

  /** Bit 6 of a wire byte. */
  predicate AcknowledgeBit(b: byte) {
    b / 64 % 2 == 1
  }

  /** The low six bits of a wire byte. */
  function Low6(b: byte): (c: byte)
    ensures c < 64
  {
    b % 64
  }

  /** The three fields of a byte do not disturb each other. */
  lemma SignalsKeepData(x: byte, request: bool, acknowledge: bool)
    ensures Low6(SetSignals(x, request, acknowledge)) == Low6(x)
    ensures x < 64 ==> Low6(x) == x
    ensures RequestBit(SetSignals(x, request, acknowledge)) <==> request
    ensures AcknowledgeBit(SetSignals(x, request, acknowledge)) <==> acknowledge
  {
  }

  // ----- The grouping of section 4 of RFC 4648 -----

  /** 64^n for n <= 4. */
  function Pow64(n: nat): (p: nat)
    requires n <= 4
    ensures p > 0
  {
    if n == 0 then 1 else if n == 1 then 64 else if n == 2 then 4096 else if n == 3 then 262144 else 16777216
  }

  /** Sextet `k` of a 24-bit group, most significant first. */
  function Sextet(t: seq<byte>, k: nat): (s: byte)
    requires |t| == 3 && k < 4
    ensures s < 64
  {
    BigEndian(t) / Pow64(3 - k) % 64
  }

  /** The assembly register after the first `k` sextets of `t`. */
  function TopSextets(t: seq<byte>, k: nat): nat
    requires |t| == 3 && k <= 4
  {
    BigEndian(t) - BigEndian(t) % Pow64(4 - k)
  }

  lemma BigEndian3(t: seq<byte>)
    requires |t| == 3
    ensures BigEndian(t) == t[0] as int * 65536 + t[1] as int * 256 + t[2] as int < Pow256(3) == 16777216
  {
    assert t[..2][..1] == t[..1] && t[..1][..0] == [];
    assert BigEndian(t[..1]) == t[0];
    assert BigEndian(t[..2]) == t[0] as int * 256 + t[1] as int;
  }

  lemma SextetArithmetic(a: int, b: int, c: int)
    requires 0 <= a < 256 && 0 <= b < 256 && 0 <= c < 256
    ensures var v := a * 65536 + b * 256 + c;
            && v / 262144 % 64 == a / 4
            && v / 4096 % 64 == a % 4 * 16 + b / 16
            && v / 64 % 64 == b % 16 * 4 + c / 64
            && v % 64 == c % 64
  {
    var v := a * 65536 + b * 256 + c;
    var a1, a0, b1, b0, c1, c0 := a / 4, a % 4, b / 16, b % 16, c / 64, c % 64;
    var s1, s2 := a0 * 16 + b1, b0 * 4 + c1;
    QuotientIs(v, 64, a1 * 4096 + s1 * 64 + s2, c0);
    QuotientIs(v, 4096, a1 * 64 + s1, s2 * 64 + c0);
    QuotientIs(v, 262144, a1, s1 * 4096 + s2 * 64 + c0);
    QuotientIs(a1 * 4096 + s1 * 64 + s2, 64, a1 * 64 + s1, s2);
    QuotientIs(a1 * 64 + s1, 64, a1, s1);
    QuotientIs(a1, 64, 0, a1);
  }

  lemma SextetBits(t: seq<byte>)
    requires |t| == 3
    ensures Sextet(t, 0) == t[0] / 4
    ensures Sextet(t, 1) == t[0] % 4 * 16 + t[1] / 16
    ensures Sextet(t, 2) == t[1] % 16 * 4 + t[2] / 64
    ensures Sextet(t, 3) == t[2] % 64
  {
    BigEndian3(t);
    SextetArithmetic(t[0], t[1], t[2]);
  }

  /** The encoder has taken in the first `e.count` bytes of `t`. */
  predicate Holds(e: Encoder, t: seq<byte>) {
    e.Valid() && |t| == 3 && forall i :: 0 <= i < e.count ==> e.assembly[i] == t[i]
  }

  /** The decoder has taken in the first `k` sextets of `t`. */
  predicate Assembled(d: Decoder, t: seq<byte>, k: nat) {
    |t| == 3 && k <= 3 && d == Decoder(TopSextets(t, k), k)
  }

  lemma Xor1(signals: nat, c: nat, low: nat)
    requires c < 4 && low < 16
    ensures Xor(signals * 64 + low, c * 16) == signals * 64 + c * 16 + low
  {
    Powers();
    XorSplit(signals * 4, c, low, 0, 4);
    XorZero(low);
    XorDisjoint(signals, c, 2);
  }

  lemma Xor2(signals: nat, c: nat, low: nat)
    requires c < 16 && low < 4
    ensures Xor(signals * 64 + low, c * 4) == signals * 64 + c * 4 + low
  {
    Powers();
    XorSplit(signals * 16, c, low, 0, 2);
    XorZero(low);
    XorDisjoint(signals, c, 4);
  }

  lemma Xor3(signals: nat, c: nat)
    requires c < 64
    ensures Xor(signals * 64, c) == signals * 64 + c
  {
    Powers();
    XorDisjoint(signals, c, 6);
  }

  lemma CarryArithmetic(b: int)
    requires 0 <= b < 256
    ensures b * 64 % 256 / 4 == b % 4 * 16
    ensures b * 16 % 256 / 4 == b % 16 * 4
    ensures b * 4 % 256 / 4 == b % 64
  {
    QuotientIs(b * 64, 256, b / 4, b % 4 * 64);
    QuotientIs(b * 16, 256, b / 16, b % 16 * 16);
    QuotientIs(b * 4, 256, b / 64, b % 64 * 4);
  }

  /** What `write_assemble` keeps of a byte and what `write_recover` carries over. */
  lemma Shifts(b: byte)
    ensures Shr(b, 2) == b / 4 && Shr(b, 4) == b / 16 && Shr(b, 6) == b / 64
    ensures Shr(Shl(b, 6, 8), 2) == b % 4 * 16
    ensures Shr(Shl(b, 4, 8), 2) == b % 16 * 4
    ensures Shr(Shl(b, 2, 8), 2) == b % 64
  {
    Powers();
    CarryArithmetic(b);
    ShrIsQuotient(b, 2);
    ShrIsQuotient(b, 4);
    ShrIsQuotient(b, 6);
    ShlIsProduct(b, 6, 8);
    ShlIsProduct(b, 4, 8);
    ShlIsProduct(b, 2, 8);
    ShrIsQuotient(Shl(b, 6, 8), 2);
    ShrIsQuotient(Shl(b, 4, 8), 2);
    ShrIsQuotient(Shl(b, 2, 8), 2);
  }

  function SignalBits(request: bool, acknowledge: bool): nat {
    (if acknowledge then 1 else 0) + (if request then 2 else 0)
  }

  lemma SignalsOnTop(x: byte, request: bool, acknowledge: bool)
    requires x < 64
    ensures SetSignals(x, request, acknowledge) == SignalBits(request, acknowledge) * 64 + x
  {
  }

  /** `write` with the codec's shifts worked out. */
  lemma WriteOutput(e: Encoder, w: byte, request: bool, acknowledge: bool)
    requires e.Valid()
    ensures var a := e.assembly;
            var sextet := if e.count == 0 then w / 4
                          else if e.count == 1 then a[0] % 4 * 16 + w / 16
                          else if e.count == 2 then a[1] % 16 * 4 + w / 64
                          else a[2] % 64;
            WriteByte(e, w, request, acknowledge).1 == SignalBits(request, acknowledge) * 64 + sextet
  {
    if e.count == 0 {
      Shifts(w);
      SignalsOnTop(w / 4, request, acknowledge);
    } else {
      WriteCarries(e, w, request, acknowledge);
    }
  }

  /** What `write` keeps. */
  lemma WriteKeeps(e: Encoder, w: byte, request: bool, acknowledge: bool)
    requires e.Valid()
    ensures WriteByte(e, w, request, acknowledge).0 ==
              if e.count < 3 then Encoder(e.assembly[e.count := w], e.count + 1) else Encoder(e.assembly, 0)
  {
    hide Overlay, Carry, SetSignals, Shr;
  }

  lemma CarryIs(e: Encoder)
    requires e.Valid() && e.count > 0
    ensures var b := e.assembly[e.count - 1];
            Carry(e) == (if e.count == 1 then b % 4 * 16 else if e.count == 2 then b % 16 * 4 else b % 64)
  {
    Shifts(e.assembly[e.count - 1]);
  }

  lemma WriteCarries(e: Encoder, w: byte, request: bool, acknowledge: bool)
    requires e.Valid() && e.count > 0
    ensures var a := e.assembly;
            var sextet := if e.count == 1 then a[0] % 4 * 16 + w / 16
                          else if e.count == 2 then a[1] % 16 * 4 + w / 64
                          else a[2] % 64;
            WriteByte(e, w, request, acknowledge).1 == SignalBits(request, acknowledge) * 64 + sextet
  {
    hide Xor, Shl, Shr;
    var signals, a := SignalBits(request, acknowledge), e.assembly;
    var low: byte := if e.count == 1 then w / 16 else if e.count == 2 then w / 64 else 0;
    Shifts(w);
    SignalsOnTop(low, request, acknowledge);
    CarryIs(e);
    var carry := Carry(e);
    assert WriteByte(e, w, request, acknowledge).1 == Xor(signals * 64 + low, carry) by {
      if e.count < 3 {
        var e' := WriteAssemble(e, w).0;
        assert e'.assembly[e.count - 1] == a[e.count - 1];
        assert Carry(e') == carry;
      }
    }
    if e.count == 1 {
      Xor1(signals, a[0] % 4, low);
    } else if e.count == 2 {
      Xor2(signals, a[1] % 16, low);
    } else {
      Xor3(signals, a[2] % 64);
    }
  }

  /** Whatever the signal bits, `write` puts the next RFC sextet into the low six bits and the
      signals into the top two. */
  lemma WriteMakesSextet(e: Encoder, t: seq<byte>, w: byte, request: bool, acknowledge: bool)
    requires Holds(e, t)
    requires e.count < 3 ==> w == t[e.count]
    ensures var (e', out) := WriteByte(e, w, request, acknowledge);
            && out == SetSignals(Sextet(t, e.count), request, acknowledge)
            && e'.count == (if e.count == 3 then 0 else e.count + 1)
            && Holds(e', t)
  {
    SextetBits(t);
    SignalsOnTop(Sextet(t, e.count), request, acknowledge);
    WriteOutput(e, w, request, acknowledge);
  }

  lemma TopStep(v: nat, m: nat)
    requires m > 0
    ensures v - v % m == (v - v % (64 * m)) + v / m % 64 * m
    ensures v / m % 64 * m < 64 * m
  {
    var q, r := v / m, v % m;
    var h, d := q / 64, q % 64;
    assert v == m * q + r && q == 64 * h + d;
    calc {
      v;
      m * (64 * h + d) + r;
      { MulAssoc(m, 64, h); }
      (64 * m) * h + (d * m + r);
    }
    MulBelow(m, 64, d, r);
    QuotientIs(v, 64 * m, h, d * m + r);
  }

  lemma WholeFits(v: nat)
    requires v < 16777216
    ensures v - v % 16777216 == 0 && v - v % 1 == v
  {
  }

  lemma TopSextetsStep(t: seq<byte>, k: nat)
    requires |t| == 3 && k < 4
    ensures TopSextets(t, k + 1) == TopSextets(t, k) + Sextet(t, k) * Pow64(3 - k)
    ensures Sextet(t, k) * Pow64(3 - k) < Pow64(4 - k)
    ensures TopSextets(t, 0) == 0 && TopSextets(t, 4) == BigEndian(t)
  {
    hide BigEndian, Pow256;
    BigEndian3(t);
    TopStep(BigEndian(t), Pow64(3 - k));
    assert Pow64(4 - k) == 64 * Pow64(3 - k);
    WholeFits(BigEndian(t));
  }

  lemma PlaceArithmetic(b: int)
    requires 0 <= b < 256
    ensures b * 262144 % 16777216 == b % 64 * 262144
  {
    var q, r := b / 64, b % 64;
    assert b * 262144 == 16777216 * q + 262144 * r;
  }

  /** Where `read_shift` puts the low six bits of its byte. */
  lemma SextetPlace(b: byte, k: nat)
    requires k < 4
    ensures Shr(Shl(b, 18, 24), k * 6) == b % 64 * Pow64(3 - k)
  {
    Powers();
    PlaceArithmetic(b);
    ShlIsProduct(b, 18, 24);
    ShrIsQuotient(Shl(b, 18, 24), k * 6);
    PlaceQuotient(b % 64, k);
    hide Shr, Shl;
  }

  lemma PlaceQuotient(c: nat, k: nat)
    requires k < 4
    ensures c * 262144 / Pow2(k * 6) == c * Pow64(3 - k)
  {
    Powers();
  }

  lemma TopSextetsPlace(t: seq<byte>, k: nat)
    requires |t| == 3 && k < 4
    ensures TopSextets(t, k) == BigEndian(t) / Pow64(4 - k) * Pow64(4 - k)
    ensures Pow64(4 - k) == Pow2(6 * (4 - k))
  {
    Powers();
    hide BigEndian, Pow256;
  }

  /** `read` overlays sextet `k` beside the ones before it, whatever the signal bits are. */
  lemma ReadTakesSextet(d: Decoder, t: seq<byte>, b: byte, k: nat)
    requires Assembled(d, t, k) && Low6(b) == Sextet(t, k)
    ensures d.Valid()
    ensures ReadByte(d, b) == Decoder(TopSextets(t, k + 1), if k == 3 then 0 else k + 1)
    ensures k < 3 ==> Assembled(ReadByte(d, b), t, k + 1)
    ensures k == 3 ==> ReadByte(d, b).assembly == BigEndian(t)
  {
    BigEndian3(t);
    Powers();
    hide BigEndian, Pow256, Xor, Shr, Shl, Sextet, Pow2;
    TopSextetsStep(t, k);
    SextetPlace(b, k);
    TopSextetsPlace(t, k);
    hide Pow64;
    XorDisjoint(BigEndian(t) / Pow64(4 - k), Sextet(t, k) * Pow64(3 - k), 6 * (4 - k));
    TopBelow(t, k);
    hide TopSextets;
  }

  lemma TopBelow(t: seq<byte>, k: nat)
    requires |t| == 3 && k <= 4
    ensures TopSextets(t, k) < Pow2(24)
  {
    BigEndian3(t);
    Powers();
    hide BigEndian, Pow256;
  }

  // ----- Whole streams -----

  datatype Signals = Signals(request: bool, acknowledge: bool)

  /** Three calls of `write` with data and the fourth, empty one. */
  function EncodeGroup(e: Encoder, t: seq<byte>, s: seq<Signals>): (r: (Encoder, seq<byte>))
    requires e.Valid() && e.count == 0 && |t| == 3 && |s| == 4
    ensures r.0.Valid() && r.0.count == 0 && |r.1| == 4
  {
    var (e1, w0) := WriteByte(e, t[0], s[0].request, s[0].acknowledge);
    var (e2, w1) := WriteByte(e1, t[1], s[1].request, s[1].acknowledge);
    var (e3, w2) := WriteByte(e2, t[2], s[2].request, s[2].acknowledge);
    var (e4, w3) := WriteByte(e3, NO_DATA, s[3].request, s[3].acknowledge);
    (e4, [w0, w1, w2, w3])
  }

  lemma GroupSextets(e: Encoder, t: seq<byte>, s: seq<Signals>)
    requires e.Valid() && e.count == 0 && |t| == 3 && |s| == 4
    ensures forall k :: 0 <= k < 4 ==>
              EncodeGroup(e, t, s).1[k] == SetSignals(Sextet(t, k), s[k].request, s[k].acknowledge)
  {
    hide WriteByte, Sextet, SetSignals;
    WriteMakesSextet(e, t, t[0], s[0].request, s[0].acknowledge);
    var e1 := WriteByte(e, t[0], s[0].request, s[0].acknowledge).0;
    WriteMakesSextet(e1, t, t[1], s[1].request, s[1].acknowledge);
    var e2 := WriteByte(e1, t[1], s[1].request, s[1].acknowledge).0;
    WriteMakesSextet(e2, t, t[2], s[2].request, s[2].acknowledge);
    var e3 := WriteByte(e2, t[2], s[2].request, s[2].acknowledge).0;
    WriteMakesSextet(e3, t, NO_DATA, s[3].request, s[3].acknowledge);
  }

  /** n bytes are whole groups, and m is the number of their sextets. */
  predicate Whole(n: nat, m: nat) {
    n % 3 == 0 && m == n / 3 * 4
  }

  lemma OneGroupLess(n: nat, m: nat)
    requires Whole(n, m)
    ensures n == 0 <==> m == 0
    ensures n > 0 ==> n >= 3 && m >= 4 && Whole(n - 3, m - 4)
  {
  }

  /** Feed `data` through `write`, group by group. */
  function Encode(e: Encoder, data: seq<byte>, signals: seq<Signals>): (wire: seq<byte>)
    requires e.Valid() && e.count == 0 && Whole(|data|, |signals|)
    ensures |wire| == |signals|
    decreases |data|
  {
    OneGroupLess(|data|, |signals|);
    if data == [] then []
    else
      var (e', group) := EncodeGroup(e, data[..3], signals[..4]);
      group + Encode(e', data[3..], signals[4..])
  }

  /** Feed `wire` through `read`, calling `read_flush` after every fourth byte. */
  function Decode(d: Decoder, wire: seq<byte>): seq<byte>
    requires d.Valid()
    decreases |wire|
  {
    if wire == [] then []
    else
      var d' := ReadByte(d, wire[0]);
      if d'.count == 0 then Digits(3, d'.assembly) + Decode(EMPTY, wire[1..])
      else Decode(d', wire[1..])
  }

  lemma DecodeGroup(t: seq<byte>, wire: seq<byte>)
    requires |t| == 3 && |wire| >= 4
    requires forall k :: 0 <= k < 4 ==> Low6(wire[k]) == Sextet(t, k)
    ensures Decode(EMPTY, wire) == t + Decode(EMPTY, wire[4..])
  {
    TopSextetsStep(t, 0);
    assert Assembled(EMPTY, t, 0);
    ReadTakesSextet(EMPTY, t, wire[0], 0);
    var d1 := ReadByte(EMPTY, wire[0]);
    ReadTakesSextet(d1, t, wire[1], 1);
    var d2 := ReadByte(d1, wire[1]);
    ReadTakesSextet(d2, t, wire[2], 2);
    var d3 := ReadByte(d2, wire[2]);
    ReadTakesSextet(d3, t, wire[3], 3);
    DigitsOfBigEndian(t);
    assert Decode(EMPTY, wire) == Decode(d1, wire[1..]);
    assert wire[1..][1..] == wire[2..] && wire[2..][1..] == wire[3..] && wire[3..][1..] == wire[4..];
    assert Decode(d1, wire[1..]) == Decode(d2, wire[2..]) == Decode(d3, wire[3..]);
  }

  /** Sextet i of a whole stream: sextet i % 4 of group i / 4. */
  function GroupOf(data: seq<byte>, i: nat): (s: byte)
    ensures s < 64
  {
    var p := i / 4 * 3;
    if p + 3 <= |data| then Sextet(data[p..p + 3], i % 4) else 0
  }

  lemma FirstGroup(data: seq<byte>, k: nat)
    requires |data| >= 3 && k < 4
    ensures GroupOf(data, k) == Sextet(data[..3], k)
  {
    hide Sextet;
  }

  lemma NextGroup(data: seq<byte>, i: nat)
    requires |data| >= 3 && i >= 4
    ensures GroupOf(data[3..], i - 4) == GroupOf(data, i)
  {
    hide Sextet;
    QuotientIs(i - 4, 4, i / 4 - 1, i % 4);
    var p := i / 4 * 3;
    assert p + 3 <= |data| ==> data[3..][p - 3..p] == data[p..p + 3];
  }

  /** Any bytes that carry the sextets of `data` in their low six bits decode to `data`. */
  lemma {:induction false} DecodeSextets(data: seq<byte>, wire: seq<byte>)
    requires Whole(|data|, |wire|)
    requires forall i :: 0 <= i < |wire| ==> Low6(wire[i]) == GroupOf(data, i)
    ensures Decode(EMPTY, wire) == data
    decreases |data|
  {
    hide Sextet, GroupOf, Low6, Whole, ReadByte;
    OneGroupLess(|data|, |wire|);
    if data != [] {
      forall k | 0 <= k < 4
        ensures Low6(wire[k]) == Sextet(data[..3], k)
      {
        FirstGroup(data, k);
      }
      DecodeGroup(data[..3], wire);
      forall i | 0 <= i < |wire| - 4
        ensures Low6(wire[4..][i]) == GroupOf(data[3..], i)
      {
        NextGroup(data, i + 4);
      }
      DecodeSextets(data[3..], wire[4..]);
    }
  }

  /** Wire byte i is sextet i % 4 of group i / 4 under its signal bits. */
  lemma {:induction false} EncodeSextets(e: Encoder, data: seq<byte>, signals: seq<Signals>)
    requires e.Valid() && e.count == 0 && Whole(|data|, |signals|)
    ensures forall i :: 0 <= i < |signals| ==>
              Encode(e, data, signals)[i]
              == SetSignals(GroupOf(data, i), signals[i].request, signals[i].acknowledge)
    decreases |data|
  {
    hide EncodeGroup, Sextet, SetSignals, GroupOf, Whole;
    OneGroupLess(|data|, |signals|);
    if data != [] {
      var t := data[..3];
      var (e', group) := EncodeGroup(e, t, signals[..4]);
      GroupSextets(e, t, signals[..4]);
      var rest := Encode(e', data[3..], signals[4..]);
      EncodeSextets(e', data[3..], signals[4..]);
      forall i | 0 <= i < |signals|
        ensures (group + rest)[i] == SetSignals(GroupOf(data, i), signals[i].request, signals[i].acknowledge)
      {
        if i < 4 {
          FirstGroup(data, i);
        } else {
          NextGroup(data, i);
        }
      }
    }
  }

  /** Round trip: every stream of whole groups comes back, for any signal bits on any byte. */
  lemma RoundTrip(e: Encoder, data: seq<byte>, signals: seq<Signals>)
    requires e.Valid() && e.count == 0 && Whole(|data|, |signals|)
    ensures Decode(EMPTY, Encode(e, data, signals)) == data
  {
    hide *;
    EncodeSextets(e, data, signals);
    var wire := Encode(e, data, signals);
    forall i | 0 <= i < |wire|
      ensures Low6(wire[i]) == GroupOf(data, i)
    {
      SignalsKeepData(GroupOf(data, i), signals[i].request, signals[i].acknowledge);
    }
    DecodeSextets(data, wire);
  }
}
