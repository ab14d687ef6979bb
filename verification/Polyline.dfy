/** The decoder of encoded polylines (src/services/googleRoutes.service.ts) and the encoder of
    Google's Encoded Polyline Algorithm Format that it inverts. */
module Polyline {
  import opened Rounding
  import opened Geo

  /** One UTF-16 code unit, the unit of String.prototype.charCodeAt. */
  type CodeUnit = c: int | 0 <= c < 0x10000

  /** The bit pattern of a 32-bit integer, the operand type of JavaScript's bit operators. */
  type Word = w: int | 0 <= w < 0x1_0000_0000

  /** charCodeAt(i) - 63; reading past the end yields NaN. */
  datatype Byte = NotANumber | Number(n: int)

  datatype GridPoint = GridPoint(lat: int, lng: int)

  datatype Reading = Reading(value: Word, next: nat)

  function ByteAt(s: seq<CodeUnit>, i: nat): Byte {
    if i < |s| then Number(s[i] as int - 63) else NotANumber
  }

  /** byte & 0x1f, where NaN converts to 0 and negatives are two's complement. */
  function LowFive(b: Byte): Word {
    if b.Number? then b.n % 32 else 0
  }

  /** byte >= 0x20 */
  predicate Continues(b: Byte) {
    b.Number? && b.n >= 0x20
  }

  /** v * 2^n */
  function Shifted(v: nat, n: nat): nat {
    if n == 0 then v else 2 * Shifted(v, n - 1)
  }

  /** w << 1, dropping the carry. */
  function Double(w: Word): Word {
    if w < 0x8000_0000 then 2 * w else 2 * w - 0x1_0000_0000
  }

  function DoubleTimes(w: Word, n: nat): Word {
    if n == 0 then w else Double(DoubleTimes(w, n - 1))
  }

  /** w << shift: the shift count is taken modulo 32, bits above 2^31 are lost. */
  function ShiftLeft(w: Word, shift: nat): Word {
    DoubleTimes(w, shift % 32)
  }

  function Or(a: nat, b: nat): nat
    decreases a + b
  {
    if a == 0 && b == 0 then 0
    else 2 * Or(a / 2, b / 2) + (if a % 2 == 1 || b % 2 == 1 then 1 else 0)
  }

  function OrWord(a: Word, b: Word): Word {
    PowersOfTwo();
    OrBound(a, b, 32);
    Or(a, b)
  }

  function Signed(w: Word): int {
    if w < 0x8000_0000 then w else w - 0x1_0000_0000
  }

  /** result & 1 ? ~(result >> 1) : result >> 1 */
  function UnZigZag(w: Word): int {
    var half := Signed(w) / 2;
    if w % 2 == 1 then -half - 1 else half
  }

  /** One do-while loop of the decoder, started at index with the given accumulator. */
  function ReadValue(s: seq<CodeUnit>, index: nat, result: Word, shift: nat): (r: Reading)
    requires index <= |s|
    ensures index < r.next
    ensures index < |s| ==> r.next <= |s|
    ensures index == |s| ==> r.next == |s| + 1
    decreases |s| - index
  {
    var b := ByteAt(s, index);
    var w := OrWord(result, ShiftLeft(LowFive(b), shift));
    if Continues(b) && index + 1 < |s| then ReadValue(s, index + 1, w, shift + 5)
    else Reading(w, index + 1)
  }

  /** The outer loop from a given index and running position. */
  function DecodeFrom(s: seq<CodeUnit>, index: nat, lat: int, lng: int): seq<GridPoint>
    decreases if index < |s| then |s| - index else 0
  {
    if index >= |s| then []
    else
      var a := ReadValue(s, index, 0, 0);
      var b := ReadValue(s, a.next, 0, 0);
      var p := GridPoint(lat + UnZigZag(a.value), lng + UnZigZag(b.value));
      [p] + DecodeFrom(s, b.next, p.lat, p.lng)
  }

  function Decoded(s: seq<CodeUnit>): seq<GridPoint> {
    DecodeFrom(s, 0, 0, 0)
  }

  /** roundCoord(v / 1e5) */
  function Degrees(v: int): real {
    ToFixed7(v as real / 100000.0)
  }

  function ToDegrees(ps: seq<GridPoint>): (r: seq<LatLng>)
    ensures |r| == |ps|
  {
    seq(|ps|, i requires 0 <= i < |ps| => LatLng(Degrees(ps[i].lat), Degrees(ps[i].lng)))
  }

  lemma ToDegreesAppend(ps: seq<GridPoint>, p: GridPoint)
    ensures ToDegrees(ps + [p]) == ToDegrees(ps) + [LatLng(Degrees(p.lat), Degrees(p.lng))]
  {}

  /** decodeGoogleEncodedPolyline: terminates on every string, each inner loop moving the index forward. */
  method DecodePolyline(encoded: seq<CodeUnit>) returns (points: seq<LatLng>)
    ensures points == ToDegrees(Decoded(encoded))
  {
    hide ReadValue, UnZigZag, Degrees, ToDegrees;
    points := [];
    assert points == ToDegrees([]);
    var index := 0;
    var lat, lng := 0, 0;
    ghost var done: seq<GridPoint> := [];
    while index < |encoded|
      invariant 0 <= index
      invariant points == ToDegrees(done)
      invariant done + DecodeFrom(encoded, index, lat, lng) == Decoded(encoded)
    {
      ghost var rest := DecodeFrom(encoded, index, lat, lng);
      var deltaLat, deltaLng, mid;
      deltaLat, mid := DecodeDelta(encoded, index);
      lat := lat + deltaLat;
      deltaLng, index := DecodeDelta(encoded, mid);
      lng := lng + deltaLng;
      points := points + [LatLng(Degrees(lat), Degrees(lng))];
      ghost var p := GridPoint(lat, lng);
      ToDegreesAppend(done, p);
      assert rest == [p] + DecodeFrom(encoded, index, lat, lng);
      assert done + rest == done + [p] + DecodeFrom(encoded, index, lat, lng);
      done := done + [p];
    }
    assert done + [] == done;
  }

  /** The do-while loop that both coordinates share. */
  method DecodeDelta(encoded: seq<CodeUnit>, start: nat) returns (delta: int, index: nat)
    requires start <= |encoded|
    ensures var r := ReadValue(encoded, start, 0, 0); delta == UnZigZag(r.value) && index == r.next
    ensures start < index <= |encoded| + 1
  {
    index := start;
    var result: Word := 0;
    var shift := 0;
    var more := true;
    while more
      invariant start <= index && 0 <= shift
      invariant more ==> index <= |encoded|
      invariant more ==> ReadValue(encoded, index, result, shift) == ReadValue(encoded, start, 0, 0)
      invariant !more ==> Reading(result, index) == ReadValue(encoded, start, 0, 0)
      decreases more, |encoded| - index
    {
      var b := ByteAt(encoded, index);
      index := index + 1;
      result := OrWord(result, ShiftLeft(LowFive(b), shift));
      shift := shift + 5;
      more := Continues(b) && index < |encoded|;
    }
    delta := UnZigZag(result);
  }

  // ---- The encoder of the format ----

  function ZigZag(d: int): nat {
    if d < 0 then -2 * d - 1 else 2 * d
  }

  function EncodeValue(v: nat): (e: seq<CodeUnit>)
    ensures |e| > 0
  {
    if v < 32 then [v + 63] else [32 + v % 32 + 63] + EncodeValue(v / 32)
  }

  function EncodeFrom(ps: seq<GridPoint>, lat: int, lng: int): seq<CodeUnit> {
    if ps == [] then []
    else EncodeValue(ZigZag(ps[0].lat - lat)) + EncodeValue(ZigZag(ps[0].lng - lng))
         + EncodeFrom(ps[1..], ps[0].lat, ps[0].lng)
  }

  function Encoded(ps: seq<GridPoint>): seq<CodeUnit> {
    EncodeFrom(ps, 0, 0)
  }

  /** From the seventh continuation on, an overlong value comes back to the low bits. */
  lemma ShiftCountWraps(w: Word, shift: nat)
    ensures ShiftLeft(w, shift + 32) == ShiftLeft(w, shift)
    ensures ShiftLeft(w, 0) == w && ShiftLeft(1, 35) == 8
  {
    assert (shift + 32) % 32 == shift % 32;
    assert DoubleTimes(1, 1) == 2 && DoubleTimes(1, 2) == 4 && DoubleTimes(1, 3) == 8;
  }

  /** The steps the 32-bit decoder can represent. */
  predicate Fits(d: int) {
    -0x4000_0000 <= d < 0x4000_0000
  }

  predicate StepsFit(ps: seq<GridPoint>, lat: int, lng: int) {
    ps == [] || (Fits(ps[0].lat - lat) && Fits(ps[0].lng - lng) && StepsFit(ps[1..], ps[0].lat, ps[0].lng))
  }

  /** Latitude in [-90, 90] and longitude in [-180, 180], in units of 1e-5 degrees. */
  predicate OnEarth(p: GridPoint) {
    -9_000_000 <= p.lat <= 9_000_000 && -18_000_000 <= p.lng <= 18_000_000
  }

  // ---- Bit arithmetic ----

  lemma PowersOfTwo()
    ensures Shifted(1, 30) == 0x4000_0000 && Shifted(1, 32) == 0x1_0000_0000
  {
    assert Shifted(1, 5) == 32;
    assert Shifted(1, 10) == 1024;
    assert Shifted(1, 15) == 32768;
    assert Shifted(1, 20) == 1048576;
    assert Shifted(1, 25) == 33554432;
  }

  lemma {:induction false} ShiftedAdd(a: nat, b: nat, n: nat)
    ensures Shifted(a + b, n) == Shifted(a, n) + Shifted(b, n)
  {
    if n > 0 { ShiftedAdd(a, b, n - 1); }
  }

  lemma {:induction false} ShiftedByFive(v: nat, n: nat)
    ensures Shifted(32 * v, n) == Shifted(v, n + 5)
  {
    if n == 0 {
      assert Shifted(v, 1) == 2 * v;
      assert Shifted(v, 3) == 8 * v;
    } else {
      ShiftedByFive(v, n - 1);
    }
  }

  lemma {:induction false} OrBound(a: nat, b: nat, k: nat)
    requires a < Shifted(1, k) && b < Shifted(1, k)
    ensures Or(a, b) < Shifted(1, k)
    decreases k
  {
    if k > 0 { OrBound(a / 2, b / 2, k - 1); }
  }

  lemma {:induction false} OrZero(b: nat)
    ensures Or(0, b) == b
  {
    if b > 0 { OrZero(b / 2); }
  }

  lemma {:induction false} NoCarry(w: Word, n: nat)
    requires Shifted(w, n) < 0x1_0000_0000
    ensures DoubleTimes(w, n) == Shifted(w, n)
  {
    if n > 0 { NoCarry(w, n - 1); }
  }

  /** Bits that do not overlap: or is addition. */
  lemma {:induction false} OrDisjoint(a: nat, b: nat, k: nat)
    requires a < Shifted(1, k)
    ensures Or(a, Shifted(b, k)) == a + Shifted(b, k)
    decreases k
  {
    if k == 0 {
      OrZero(b);
    } else {
      OrDisjoint(a / 2, b, k - 1);
    }
  }

  // ---- Decoding undoes encoding ----

  ghost predicate At(s: seq<CodeUnit>, index: nat, e: seq<CodeUnit>) {
    index + |e| <= |s| && s[index..index + |e|] == e
  }

  /** The first unit of an encoded value, and where its continuation lies. */
  lemma FirstUnit(s: seq<CodeUnit>, index: nat, v: nat)
    requires At(s, index, EncodeValue(v))
    ensures index < |s| && LowFive(ByteAt(s, index)) == v % 32
    ensures v < 32 ==> !Continues(ByteAt(s, index))
    ensures v >= 32 ==> Continues(ByteAt(s, index)) && index + 1 < |s| && At(s, index + 1, EncodeValue(v / 32))
  {
    var e := EncodeValue(v);
    assert s[index] == s[index..index + |e|][0] == e[0];
    if v >= 32 {
      var t := EncodeValue(v / 32);
      assert s[index + 1..index + 1 + |t|] == s[index..index + |e|][1..] == t;
    }
  }

  /** The decoder consumes exactly the units of one encoded value, whatever its size. */
  lemma {:induction false} ReadsOneValue(s: seq<CodeUnit>, index: nat, v: nat, acc: Word, shift: nat)
    requires At(s, index, EncodeValue(v))
    ensures ReadValue(s, index, acc, shift).next == index + |EncodeValue(v)|
    decreases v
  {
    hide At, OrWord, ShiftLeft, LowFive, Continues;
    FirstUnit(s, index, v);
    if v >= 32 {
      ReadsOneValue(s, index + 1, v / 32, OrWord(acc, ShiftLeft(LowFive(ByteAt(s, index)), shift)), shift + 5);
    }
  }

  /** Merging the next five bits is an addition while everything stays below 2^32. */
  lemma MergesChunk(acc: Word, low: Word, v: nat, shift: nat)
    requires low <= v && shift <= 30 && acc < Shifted(1, shift) && Shifted(v, shift) < 0x1_0000_0000
    ensures OrWord(acc, ShiftLeft(low, shift)) == acc + Shifted(low, shift)
  {
    hide Shifted, DoubleTimes, Or;
    assert v == low + (v - low);
    ShiftedAdd(low, v - low, shift);
    NoCarry(low, shift);
    OrDisjoint(acc, low, shift);
  }

  lemma SplitsChunk(acc: nat, v: nat, shift: nat)
    requires v >= 32 && shift <= 30 && shift % 5 == 0
    requires acc < Shifted(1, shift) && Shifted(v, shift) < 0x1_0000_0000
    ensures shift + 5 <= 30
    ensures Shifted(v, shift) == Shifted(v / 32, shift + 5) + Shifted(v % 32, shift)
    ensures acc + Shifted(v % 32, shift) < Shifted(1, shift + 5)
  {
    hide Shifted;
    ShiftedAdd(32 * (v / 32), v % 32, shift);
    ShiftedByFive(v / 32, shift);
    ShiftedByFive(1, shift);
    ShiftedAdd(v % 32, 31 - v % 32, shift);
    ShiftedAdd(1, 31, shift);
    ShiftedAdd(32, v - 32, shift);
    if shift == 30 {
      PowersOfTwo();
      ShiftedAdd(1, 31, 30);
      ShiftedAdd(1, 30, 30);
      ShiftedAdd(4, 28, 30);
      ShiftedAdd(2, 2, 30);
      ShiftedAdd(1, 1, 30);
    }
  }

  lemma {:induction false} ReadsEncoded(s: seq<CodeUnit>, index: nat, v: nat, acc: Word, shift: nat)
    requires At(s, index, EncodeValue(v))
    requires shift <= 30 && shift % 5 == 0 && acc < Shifted(1, shift)
    requires Shifted(v, shift) < 0x1_0000_0000
    ensures ReadValue(s, index, acc, shift).value == acc + Shifted(v, shift)
    decreases v
  {
    hide Shifted, OrWord, ShiftLeft, At, EncodeValue, LowFive, Continues, ByteAt;
    FirstUnit(s, index, v);
    MergesChunk(acc, v % 32, v, shift);
    if v >= 32 {
      SplitsChunk(acc, v, shift);
      ReadsEncoded(s, index + 1, v / 32, acc + Shifted(v % 32, shift), shift + 5);
    }
  }

  lemma UnZigZagRange(w: Word)
    ensures Fits(UnZigZag(w))
  {}

  lemma UnZigZagInverse(d: int)
    requires Fits(d)
    ensures ZigZag(d) < 0x8000_0000 && UnZigZag(ZigZag(d)) == d
  {
    if d >= 0 {
      assert (2 * d) % 2 == 0 && (2 * d) / 2 == d;
    } else {
      var w := -2 * d - 1;
      assert w % 2 == 1 && w / 2 == -d - 1;
    }
  }

  /** One encoded step is read back exactly when it fits the decoder's 32-bit arithmetic. */
  lemma ReadsStep(s: seq<CodeUnit>, index: nat, d: int)
    requires At(s, index, EncodeValue(ZigZag(d)))
    ensures ReadValue(s, index, 0, 0).next == index + |EncodeValue(ZigZag(d))|
    ensures UnZigZag(ReadValue(s, index, 0, 0).value) == d <==> Fits(d)
  {
    hide ReadValue, EncodeValue, UnZigZag, ZigZag;
    ReadsOneValue(s, index, ZigZag(d), 0, 0);
    UnZigZagRange(ReadValue(s, index, 0, 0).value);
    if Fits(d) {
      UnZigZagInverse(d);
      ReadsEncoded(s, index, ZigZag(d), 0, 0);
    }
  }

  /** Where the two values of the first point and the encoding of the rest lie. */
  lemma Layout(s: seq<CodeUnit>, index: nat, ps: seq<GridPoint>, lat: int, lng: int) returns (mid: nat, end: nat)
    requires index <= |s| && s[index..] == EncodeFrom(ps, lat, lng) && ps != []
    ensures index < mid < end <= |s|
    ensures mid == ReadValue(s, index, 0, 0).next && end == ReadValue(s, mid, 0, 0).next
    ensures UnZigZag(ReadValue(s, index, 0, 0).value) == ps[0].lat - lat <==> Fits(ps[0].lat - lat)
    ensures UnZigZag(ReadValue(s, mid, 0, 0).value) == ps[0].lng - lng <==> Fits(ps[0].lng - lng)
    ensures s[end..] == EncodeFrom(ps[1..], ps[0].lat, ps[0].lng)
  {
    hide ReadValue, EncodeValue, UnZigZag, ZigZag;
    var a := EncodeValue(ZigZag(ps[0].lat - lat));
    var b := EncodeValue(ZigZag(ps[0].lng - lng));
    var rest := EncodeFrom(ps[1..], ps[0].lat, ps[0].lng);
    var t := s[index..];
    assert t == a + b + rest;
    mid, end := index + |a|, index + |a| + |b|;
    assert s[index..mid] == t[..|a|] == a;
    assert s[mid..end] == t[|a|..|a| + |b|] == b;
    assert s[end..] == t[|a| + |b|..] == rest;
    ReadsStep(s, index, ps[0].lat - lat);
    ReadsStep(s, mid, ps[0].lng - lng);
  }

  /** Every encoded point yields one decoded point, wherever decoding starts from. */
  lemma {:induction false} DecodesLength(
      s: seq<CodeUnit>, index: nat, ps: seq<GridPoint>, lat: int, lng: int, lat': int, lng': int)
    requires index <= |s| && s[index..] == EncodeFrom(ps, lat, lng)
    ensures |DecodeFrom(s, index, lat', lng')| == |ps|
    decreases |ps|
  {
    hide ReadValue, EncodeValue, UnZigZag, ZigZag;
    if ps != [] {
      var mid, end := Layout(s, index, ps, lat, lng);
      var a, b := ReadValue(s, index, 0, 0), ReadValue(s, mid, 0, 0);
      DecodesLength(s, end, ps[1..], ps[0].lat, ps[0].lng, lat' + UnZigZag(a.value), lng' + UnZigZag(b.value));
    }
  }

  lemma {:induction false} DecodesEncoding(s: seq<CodeUnit>, index: nat, ps: seq<GridPoint>, lat: int, lng: int)
    requires index <= |s| && s[index..] == EncodeFrom(ps, lat, lng)
    ensures DecodeFrom(s, index, lat, lng) == ps <==> StepsFit(ps, lat, lng)
    decreases |ps|
  {
    hide ReadValue, EncodeValue, UnZigZag, ZigZag;
    if ps != [] {
      var mid, end := Layout(s, index, ps, lat, lng);
      var a, b := ReadValue(s, index, 0, 0), ReadValue(s, mid, 0, 0);
      var p := GridPoint(lat + UnZigZag(a.value), lng + UnZigZag(b.value));
      var tail := DecodeFrom(s, end, p.lat, p.lng);
      assert DecodeFrom(s, index, lat, lng) == [p] + tail;
      assert [p] + tail == ps <==> p == ps[0] && tail == ps[1..] by { ConsEquals(p, tail, ps); }
      if p == ps[0] {
        DecodesEncoding(s, end, ps[1..], p.lat, p.lng);
      }
    }
  }

  lemma ConsEquals(p: GridPoint, tail: seq<GridPoint>, ps: seq<GridPoint>)
    requires ps != []
    ensures [p] + tail == ps <==> p == ps[0] && tail == ps[1..]
  {
    assert ([p] + tail)[1..] == tail;
    assert ps == [ps[0]] + ps[1..];
  }

  /** Decoding undoes encoding exactly on the point lists whose steps fit in 31 bits. */
  lemma DecodeUndoesEncode(ps: seq<GridPoint>)
    ensures Decoded(Encoded(ps)) == ps <==> StepsFit(ps, 0, 0)
    ensures |Decoded(Encoded(ps))| == |ps|
  {
    var s := Encoded(ps);
    assert s[0..] == s;
    DecodesEncoding(s, 0, ps, 0, 0);
    DecodesLength(s, 0, ps, 0, 0, 0, 0);
  }

  /** What a single point with 32-bit steps decodes to. */
  lemma DecodesOne(p: GridPoint)
    requires ZigZag(p.lat) < 0x1_0000_0000 && ZigZag(p.lng) < 0x1_0000_0000
    ensures Decoded(Encoded([p])) == [GridPoint(UnZigZag(ZigZag(p.lat)), UnZigZag(ZigZag(p.lng)))]
  {
    hide ReadValue, EncodeValue, UnZigZag, ZigZag, Shifted;
    var s, a, b := Encoded([p]), EncodeValue(ZigZag(p.lat)), EncodeValue(ZigZag(p.lng));
    assert EncodeFrom([p][1..], p.lat, p.lng) == [];
    assert s == a + b;
    assert s[0..|a|] == a && s[|a|..|a| + |b|] == b;
    ReadsWhole(s, 0, ZigZag(p.lat));
    ReadsWhole(s, |a|, ZigZag(p.lng));
    var q := GridPoint(UnZigZag(ZigZag(p.lat)), UnZigZag(ZigZag(p.lng)));
    assert DecodeFrom(s, |s|, q.lat, q.lng) == [];
    assert DecodeFrom(s, 0, 0, 0) == [q] + DecodeFrom(s, |s|, q.lat, q.lng);
  }

  lemma ReadsWhole(s: seq<CodeUnit>, index: nat, v: Word)
    requires At(s, index, EncodeValue(v))
    ensures ReadValue(s, index, 0, 0) == Reading(v, index + |EncodeValue(v)|)
  {
    assert Shifted(1, 0) == 1 && Shifted(v, 0) == v;
    hide ReadValue, EncodeValue, Shifted, At;
    ReadsOneValue(s, index, v, 0, 0);
    ReadsEncoded(s, index, v, 0, 0);
  }

  /** The least step that does not fit comes back with its sign turned. */
  lemma LeastMisfitTurns()
    ensures Decoded(Encoded([GridPoint(0x4000_0000, 0)])) == [GridPoint(-0x4000_0000, 0)]
  {
    hide Decoded, Encoded;
    DecodesOne(GridPoint(0x4000_0000, 0));
  }

  lemma {:induction false} StepsOnEarthFit(ps: seq<GridPoint>, lat: int, lng: int)
    requires OnEarth(GridPoint(lat, lng))
    requires forall i :: 0 <= i < |ps| ==> OnEarth(ps[i])
    ensures StepsFit(ps, lat, lng)
    decreases |ps|
  {
    if ps != [] {
      StepsOnEarthFit(ps[1..], ps[0].lat, ps[0].lng);
    }
  }

  /** Every list of legal coordinates survives the round trip ... */
  lemma RoundTripOnEarth(ps: seq<GridPoint>)
    requires forall i :: 0 <= i < |ps| ==> OnEarth(ps[i])
    ensures Decoded(Encoded(ps)) == ps
  {
    StepsOnEarthFit(ps, 0, 0);
    DecodeUndoesEncode(ps);
  }

  /** ... and rounding the degrees to seven decimals changes nothing. */
  lemma DegreesExact(ps: seq<GridPoint>)
    ensures forall i :: 0 <= i < |ps| ==>
      ToDegrees(ps)[i] == LatLng(ps[i].lat as real / 100000.0, ps[i].lng as real / 100000.0)
  {
    hide ToFixed7;
    forall i | 0 <= i < |ps|
      ensures ToDegrees(ps)[i] == LatLng(ps[i].lat as real / 100000.0, ps[i].lng as real / 100000.0)
    {
      ToFixed7Exact(ps[i].lat);
      ToFixed7Exact(ps[i].lng);
    }
  }

  /** On an arbitrary string every decoded point consumes at least one code unit. */
  lemma {:induction false} DecodeIsBounded(s: seq<CodeUnit>, index: nat, lat: int, lng: int)
    requires index <= |s|
    ensures 2 * |DecodeFrom(s, index, lat, lng)| <= |s| - index + 1
    decreases |s| - index
  {
    hide ReadValue, UnZigZag;
    if index < |s| {
      var a := ReadValue(s, index, 0, 0);
      var b := ReadValue(s, a.next, 0, 0);
      if b.next <= |s| {
        DecodeIsBounded(s, b.next, lat + UnZigZag(a.value), lng + UnZigZag(b.value));
      }
    }
  }
}
