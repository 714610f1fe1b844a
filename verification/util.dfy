/** The array helpers of the voxel storage: uniformity tests, packing two
    4-bit values per byte, and splitting 16-bit block ids into two bytes. */
module Util {
  import opened Bytes

  /** `isAll(value, array)` (byte and short overloads alike). */
  function IsAll(v: int, a: seq<int>): (b: bool)
    ensures b <==> forall i | 0 <= i < |a| :: a[i] == v
  {
    |a| == 0 || (a[0] == v && IsAll(v, a[1..]))
  }

  /** `isAllZero(array)`. */
  function IsAllZero(a: seq<int>): (b: bool)
    ensures b == IsAll(0, a)
    ensures b <==> forall i | 0 <= i < |a| :: a[i] == 0
  {
    IsAll(0, a)
  }

  /** Euclidean division by a fixed positive modulus is determined by any
      decomposition with an in-range remainder. */
  lemma DivModUnique(x: int, m: int, q: int, r: int)
    requires m == 16 || m == 256 || m == 0x1_0000
    requires x == m * q + r && 0 <= r < m
    ensures x / m == q && x % m == r
  {
    if m == 16 {
      assert x == 16 * q + r;
    } else if m == 256 {
      assert x == 256 * q + r;
    } else {
      assert x == 0x1_0000 * q + r;
    }
  }

  /** `(byte)` sees only the low eight bits. */
  lemma ToInt8Mod(v: int)
    ensures ToInt8(v) % 256 == v % 256
  {
    var u := v % 256;
    if u >= 128 {
      DivModUnique(u - 256, 256, -1, u);
    } else {
      DivModUnique(u, 256, 0, u);
    }
  }

  /** Two values with the same low eight bits cast to the same byte. */
  lemma ToInt8Congruent(a: int, b: int)
    requires a % 256 == b % 256
    ensures ToInt8(a) == ToInt8(b)
  {
  }

  /** `x & 0xF` on a sign-extended Java byte: the low four bits. */
  function LowNibble(x: int): (r: int)
    ensures 0 <= r < 16
  {
    x % 16
  }

  /** `(x >> 4) & 0xF`: the arithmetic shift keeps the sign, the mask drops
      it, leaving bits 4 to 7. */
  function HighNibble(x: int): (r: int)
    ensures 0 <= r < 16
  {
    (x / 16) % 16
  }

  /** A nibble is its own low nibble. */
  lemma NibbleFixed(x: int)
    requires 0 <= x < 16
    ensures LowNibble(x) == x
  {
    DivModUnique(x, 16, 0, x);
  }

  /** `(byte) ((hi & 0xf) << 4 | lo & 0xf)`. */
  function PackNibbles(lo: int, hi: int): (r: int8)
    ensures LowNibble(r) == LowNibble(lo) && HighNibble(r) == LowNibble(hi)
  {
    var l := LowNibble(lo);
    var h := LowNibble(hi);
    PackNibblesParts(l, h);
    ToInt8(h * 16 + l)
  }

  lemma PackNibblesParts(l: int, h: int)
    requires 0 <= l < 16 && 0 <= h < 16
    ensures LowNibble(ToInt8(h * 16 + l)) == l && HighNibble(ToInt8(h * 16 + l)) == h
  {
    var u := h * 16 + l;
    assert 0 <= u < 256;
    DivModUnique(u, 256, 0, u);
    var r := ToInt8(u);
    if u >= 128 {
      assert r == u - 256;
      DivModUnique(r, 16, h - 16, l);
      DivModUnique(h - 16, 16, -1, h);
    } else {
      assert r == u;
      DivModUnique(r, 16, h, l);
      DivModUnique(h, 16, 0, h);
    }
  }

  /** A byte is rebuilt from its two nibbles. */
  lemma PackSplitNibbles(x: int8)
    ensures PackNibbles(LowNibble(x), HighNibble(x)) == x
  {
    var l := LowNibble(x);
    var q := x / 16;
    var h := HighNibble(x);
    NibbleFixed(l);
    NibbleFixed(h);
    assert x == 16 * q + l;
    assert q == 16 * (q / 16) + h;
    var u := h * 16 + l;
    assert x == 256 * (q / 16) + u;
    DivModUnique(x, 256, q / 16, u);
    DivModUnique(u, 256, 0, u);
    ToInt8Congruent(u, x);
  }

  /** `half(original)`: elements `2i` and `2i + 1` become the low and the
      high nibble of output byte `i`.  Java asserts an even length. */
  function Half(a: seq<int>): (r: seq<int8>)
    requires |a| % 2 == 0
    ensures |r| == |a| / 2
    ensures forall i | 0 <= i < |r| ::
      LowNibble(r[i]) == LowNibble(a[2 * i]) && HighNibble(r[i]) == LowNibble(a[2 * i + 1])
    decreases |a|
  {
    if |a| == 0 then [] else [PackNibbles(a[0], a[1])] + Half(a[2..])
  }

  /** `twice(original)`: each byte becomes its low and then its high nibble. */
  function Twice(b: seq<int8>): (r: seq<int8>)
    ensures |r| == 2 * |b|
    ensures forall i | 0 <= i < |b| :: r[2 * i] == LowNibble(b[i]) && r[2 * i + 1] == HighNibble(b[i])
    ensures forall j | 0 <= j < |r| :: 0 <= r[j] < 16
    decreases |b|
  {
    if |b| == 0 then [] else [LowNibble(b[0]) as int8, HighNibble(b[0]) as int8] + Twice(b[1..])
  }

  /** Packing what was unpacked gives back every byte. */
  lemma {:induction false} HalfTwice(b: seq<int8>)
    ensures Half(Twice(b)) == b
    decreases |b|
  {
    if |b| > 0 {
      var lo, hi := LowNibble(b[0]) as int8, HighNibble(b[0]) as int8;
      var rest := Twice(b[1..]);
      assert Twice(b) == [lo, hi] + rest;
      HalfCons(lo, hi, rest);
      HalfTwice(b[1..]);
      RepackNibbles(b[0], lo, hi);
      assert b == [b[0]] + b[1..];
    }
  }

  lemma HalfCons(lo: int, hi: int, rest: seq<int>)
    requires |rest| % 2 == 0
    ensures Half([lo, hi] + rest) == [PackNibbles(lo, hi)] + Half(rest)
  {
    assert ([lo, hi] + rest)[2..] == rest;
  }

  lemma RepackNibbles(x: int8, lo: int, hi: int)
    requires lo == LowNibble(x) && hi == HighNibble(x)
    ensures PackNibbles(lo, hi) == x
  {
    NibbleFixed(lo);
    NibbleFixed(hi);
    PackSplitNibbles(x);
  }

  /** Unpacking what was packed gives back every nibble. */
  lemma {:induction false} TwiceHalf(a: seq<int>)
    requires |a| % 2 == 0
    requires forall i | 0 <= i < |a| :: 0 <= a[i] < 16
    ensures Twice(Half(a)) == a
    decreases |a|
  {
    if |a| > 0 {
      var h := Half(a);
      assert h[1..] == Half(a[2..]);
      NibbleFixed(a[0]);
      NibbleFixed(a[1]);
      TwiceHalf(a[2..]);
      assert a == [a[0], a[1]] + a[2..];
    }
  }

  /** `half` reads only the low nibble of each element. */
  lemma {:induction false} HalfLowNibbles(a: seq<int>, b: seq<int>)
    requires |a| == |b| && |a| % 2 == 0
    requires forall i | 0 <= i < |a| :: LowNibble(a[i]) == LowNibble(b[i])
    ensures Half(a) == Half(b)
    decreases |a|
  {
    if |a| > 0 {
      assert LowNibble(a[0]) == LowNibble(b[0]) && LowNibble(a[1]) == LowNibble(b[1]);
      HalfLowNibbles(a[2..], b[2..]);
    }
  }

  /** `(byte) (x & 0xff)`. */
  function LowByte(x: int): (r: int8)
    ensures (r as int) % 256 == x % 256
  {
    ToInt8Mod(x % 256);
    ToInt8(x % 256)
  }

  /** `(byte) ((x >> 8) & 0xff)`. */
  function HighByte(x: int): (r: int8)
    ensures (r as int) % 256 == (x / 256) % 256
  {
    LowByte(x / 256)
  }

  /** `split(original)`: the low and the high byte of every short. */
  function Split(a: seq<int16>): (r: (seq<int8>, seq<int8>))
    ensures |r.0| == |a| && |r.1| == |a|
    ensures forall i | 0 <= i < |a| :: (r.0[i] as int) % 256 == a[i] % 256
    ensures forall i | 0 <= i < |a| :: (r.1[i] as int) % 256 == (a[i] / 256) % 256
  {
    (seq(|a|, i requires 0 <= i < |a| => LowByte(a[i])),
     seq(|a|, i requires 0 <= i < |a| => HighByte(a[i])))
  }

  /** `(short) ((lower & 0xff) | (upper & 0xff) << 8)`. */
  function MergeOne(lo: int8, hi: int8): (r: int16)
    ensures r % 256 == lo % 256 && (r / 256) % 256 == hi % 256
  {
    MergeOneParts(lo % 256, hi % 256);
    ToInt16((hi % 256) * 256 + lo % 256)
  }

  lemma MergeOneParts(l: int, h: int)
    requires 0 <= l < 256 && 0 <= h < 256
    ensures ToInt16(h * 256 + l) % 256 == l && (ToInt16(h * 256 + l) / 256) % 256 == h
  {
    var u := h * 256 + l;
    assert 0 <= u < 0x1_0000;
    DivModUnique(u, 0x1_0000, 0, u);
    var r := ToInt16(u);
    if u >= 0x8000 {
      assert r == u - 0x1_0000;
      DivModUnique(r, 256, h - 256, l);
      DivModUnique(h - 256, 256, -1, h);
    } else {
      assert r == u;
      DivModUnique(r, 256, h, l);
      DivModUnique(h, 256, 0, h);
    }
  }

  /** `merge(lower, upper)`; Java asserts equal lengths. */
  function Merge(lower: seq<int8>, upper: seq<int8>): (r: seq<int16>)
    requires |lower| == |upper|
    ensures |r| == |lower|
    ensures forall i | 0 <= i < |r| ::
      r[i] % 256 == (lower[i] as int) % 256 && (r[i] / 256) % 256 == (upper[i] as int) % 256
  {
    seq(|lower|, i requires 0 <= i < |lower| => MergeOne(lower[i], upper[i]))
  }

  /** A short is determined by its two bytes. */
  lemma ShortOfBytes(x: int16, y: int16)
    requires x % 256 == y % 256 && (x / 256) % 256 == (y / 256) % 256
    ensures x == y
  {
    var qx := x / 256;
    var qy := y / 256;
    assert -128 <= qx < 128 && -128 <= qy < 128;
    assert qx == 256 * (qx / 256) + qx % 256;
    assert qy == 256 * (qy / 256) + qy % 256;
    assert qx == qy;
  }

  /** Merging the halves of a split gives back every short. */
  lemma MergeSplit(a: seq<int16>)
    ensures Merge(Split(a).0, Split(a).1) == a
  {
    var p := Split(a);
    var r := Merge(p.0, p.1);
    forall i | 0 <= i < |a| ensures r[i] == a[i] {
      ShortOfBytes(r[i], a[i]);
    }
  }

  /** Splitting a merge gives back both byte arrays. */
  lemma SplitMerge(lower: seq<int8>, upper: seq<int8>)
    requires |lower| == |upper|
    ensures Split(Merge(lower, upper)) == (lower, upper)
  {
    var p := Split(Merge(lower, upper));
    forall i | 0 <= i < |lower| ensures p.0[i] == lower[i] && p.1[i] == upper[i] {
      ByteOfLow(p.0[i], lower[i]);
      ByteOfLow(p.1[i], upper[i]);
    }
    assert p.0 == lower && p.1 == upper;
  }

  /** A byte is determined by its low eight bits. */
  lemma ByteOfLow(x: int8, y: int8)
    requires (x as int) % 256 == (y as int) % 256
    ensures x == y
  {
    ToInt8Congruent(x, y);
  }

  /** The nibble example of the unit tests. */
  lemma HalfExample()
    ensures Half([0xE, 0xF, 0x6, 0xC, 0x8, 0x3]) == [ToInt8(0xFE), ToInt8(0xC6), 0x38]
  {
    HalfCons(0x8, 0x3, []);
    HalfCons(0x6, 0xC, [0x8, 0x3]);
    HalfCons(0xE, 0xF, [0x6, 0xC, 0x8, 0x3]);
    PackExample(0xE, 0xF);
    PackExample(0x6, 0xC);
    PackExample(0x8, 0x3);
  }

  lemma PackExample(lo: int, hi: int)
    requires 0 <= lo < 16 && 0 <= hi < 16
    ensures PackNibbles(lo, hi) == ToInt8(hi * 16 + lo)
  {
    NibbleFixed(lo);
    NibbleFixed(hi);
  }

  /** The short example of the unit tests. */
  lemma SplitExample()
    ensures Split([ToInt16(0xABCD)]) == ([ToInt8(0xCD)], [ToInt8(0xAB)])
  {
    var x := ToInt16(0xABCD);
    assert x == 0xABCD - 0x1_0000;
    DivModUnique(x, 256, -85, 0xCD);
    DivModUnique(-85, 256, -1, 0xAB);
    var p := Split([x]);
    assert p.0[0] == LowByte(x) == ToInt8(0xCD);
    assert p.1[0] == HighByte(x) == ToInt8(0xAB);
    assert p.0 == [ToInt8(0xCD)] && p.1 == [ToInt8(0xAB)];
  }
}
