/** Java's fixed-width integers and the big-endian byte layout that
    java.io.DataOutput writes and java.io.DataInput reads. */
module Bytes {
  import opened Wrappers

  /** An octet on the wire. */
  type byte = x: int | 0 <= x < 0x100

  /** Java's signed primitive types. */
  type int8 = x: int | -0x80 <= x < 0x80
  type int16 = x: int | -0x8000 <= x < 0x8000
  type int32 = x: int | -0x8000_0000 <= x < 0x8000_0000
  type int64 = x: int | -0x8000_0000_0000_0000 <= x < 0x8000_0000_0000_0000

  /** Raw IEEE 754 bit patterns of float and double values. */
  type uint32 = x: int | 0 <= x < 0x1_0000_0000
  type uint64 = x: int | 0 <= x < 0x1_0000_0000_0000_0000

  function Pow256(n: nat): (r: nat)
    ensures r >= 1
    ensures n >= 1 ==> r >= 256 && r % 256 == 0
  {
    if n == 0 then 1 else 256 * Pow256(n - 1)
  }

  /** Two's complement reading of an unsigned value `u` of modulus `m`. */
  function Signed(u: nat, m: nat): (r: int)
    requires u < m && m % 2 == 0
    ensures -(m / 2) <= r < m / 2
    ensures r == u || r == u - m
  {
    if u >= m / 2 then u - m else u
  }

  /** The unsigned bit pattern of a signed value `v` of modulus `m`. */
  function Unsigned(v: int, m: nat): (u: nat)
    requires m % 2 == 0 && -(m / 2) <= v < m / 2
    ensures u < m
    ensures Signed(u, m) == v
  {
    if v < 0 then v + m else v
  }

  /** Two's complement reduction of `v` into the signed range of modulus `m`:
      the value of Java's narrowing casts `(byte)`, `(short)`, `(int)`. */
  function Wrap(v: int, m: nat): (r: int)
    requires m >= 2 && m % 2 == 0
    ensures -(m / 2) <= r < m / 2
  {
    Signed(v % m, m)
  }

  /** The narrowing casts; a value already in range is unchanged. */
  function ToInt8(v: int): (r: int8)
    ensures -0x80 <= v < 0x80 ==> r == v
  {
    Wrap(v, 0x100)
  }

  function ToInt16(v: int): (r: int16)
    ensures -0x8000 <= v < 0x8000 ==> r == v
  {
    Wrap(v, 0x1_0000)
  }

  function ToInt32(v: int): (r: int32)
    ensures -0x8000_0000 <= v < 0x8000_0000 ==> r == v
  {
    Wrap(v, 0x1_0000_0000)
  }

  function ToInt64(v: int): (r: int64)
    ensures -0x8000_0000_0000_0000 <= v < 0x8000_0000_0000_0000 ==> r == v
  {
    Wrap(v, 0x1_0000_0000_0000_0000)
  }

  /** Java's `/` on integers truncates toward zero (Dafny's rounds down for
      a positive divisor). */
  function JavaDiv(a: int, b: int): (q: int)
    requires b > 0
    ensures a >= 0 ==> q == a / b
    ensures a < 0 ==> q == -((-a) / b)
  {
    if a >= 0 then a / b else -((-a) / b)
  }

  /** `v` as `n` big-endian bytes. */
  function ToBE(v: nat, n: nat): (r: seq<byte>)
    requires v < Pow256(n)
    ensures |r| == n
  {
    if n == 0 then [] else ToBE(v / 256, n - 1) + [v % 256]
  }

  /** The unsigned big-endian value of a byte string. */
  function FromBE(s: seq<byte>): (v: nat)
    ensures v < Pow256(|s|)
  {
    if |s| == 0 then 0 else FromBE(s[..|s| - 1]) * 256 + s[|s| - 1]
  }

  lemma {:induction false} FromToBE(v: nat, n: nat)
    requires v < Pow256(n)
    ensures FromBE(ToBE(v, n)) == v
    decreases n
  {
    if n > 0 {
      var s := ToBE(v, n);
      assert s[..n - 1] == ToBE(v / 256, n - 1);
      FromToBE(v / 256, n - 1);
    }
  }

  lemma {:induction false} ToFromBE(s: seq<byte>)
    ensures ToBE(FromBE(s), |s|) == s
    decreases |s|
  {
    if |s| > 0 {
      var n := |s|;
      var p := s[..n - 1];
      ToFromBE(p);
      assert FromBE(s) / 256 == FromBE(p);
      assert FromBE(s) % 256 == s[n - 1];
      assert s == p + [s[n - 1]];
    }
  }

  /** DataOutput.writeByte/writeShort/writeInt/writeLong: the two's complement
      bit pattern of `v`, most significant byte first. */
  function WriteSigned(v: int, n: nat): (r: seq<byte>)
    requires n >= 1 && -(Pow256(n) / 2) <= v < Pow256(n) / 2
    ensures |r| == n
  {
    ToBE(Unsigned(v, Pow256(n)), n)
  }

  /** DataInput.readByte/readShort/readInt/readLong: `n` bytes as a signed
      value, failing with EOF when fewer than `n` remain. */
  function ReadSigned(s: seq<byte>, n: nat): (r: Result<(int, seq<byte>)>)
    requires n >= 1
    ensures r.Err? <==> |s| < n
    ensures r.Err? ==> r.error == EndOfInput
    ensures r.Ok? ==> r.value.1 == s[n..]
    ensures r.Ok? ==> -(Pow256(n) / 2) <= r.value.0 < Pow256(n) / 2
  {
    if |s| < n then Err(EndOfInput) else Ok((Signed(FromBE(s[..n]), Pow256(n)), s[n..]))
  }

  /** Reading back what WriteSigned wrote returns the value and exactly the
      bytes that follow it. */
  lemma ReadWriteSigned(v: int, n: nat, rest: seq<byte>)
    requires n >= 1 && -(Pow256(n) / 2) <= v < Pow256(n) / 2
    ensures ReadSigned(WriteSigned(v, n) + rest, n) == Ok((v, rest))
  {
    var w := WriteSigned(v, n);
    var s := w + rest;
    assert s[..n] == w;
    assert s[n..] == rest;
    FromToBE(Unsigned(v, Pow256(n)), n);
  }

  /** DataOutput.write(byte[]): each signed byte as its low eight bits. */
  function Unsign8(bs: seq<int8>): (r: seq<byte>)
    ensures |r| == |bs|
    ensures forall i | 0 <= i < |bs| :: ToInt8(r[i]) == bs[i]
  {
    seq(|bs|, i requires 0 <= i < |bs| => (bs[i] as int) % 256)
  }

  /** DataInput.readFully into a byte[]: each octet as a signed byte. */
  function Sign8(s: seq<byte>): (r: seq<int8>)
    ensures |r| == |s|
    ensures forall i | 0 <= i < |s| :: (r[i] as int) % 256 == s[i]
  {
    seq(|s|, i requires 0 <= i < |s| => ToInt8(s[i]))
  }

  lemma Sign8Unsign8(bs: seq<int8>)
    ensures Sign8(Unsign8(bs)) == bs
  {
  }

  /** The bytes of an int[] as ByteBuffer.asIntBuffer().put writes them:
      four big-endian bytes per element. */
  function WriteInts(xs: seq<int32>): (r: seq<byte>)
    ensures |r| == 4 * |xs|
  {
    if |xs| == 0 then [] else WriteSigned(xs[0], 4) + WriteInts(xs[1..])
  }

  /** The int[] that ByteBuffer.asIntBuffer().get reads from `4 * k` bytes. */
  function ReadInts(s: seq<byte>): (r: seq<int32>)
    requires |s| % 4 == 0
    ensures |r| == |s| / 4
  {
    if |s| == 0 then []
    else
      var v := Signed(FromBE(s[..4]), Pow256(4));
      [v] + ReadInts(s[4..])
  }

  lemma {:induction false} ReadWriteInts(xs: seq<int32>)
    ensures ReadInts(WriteInts(xs)) == xs
    decreases |xs|
  {
    if |xs| > 0 {
      var w := WriteInts(xs);
      var h := WriteSigned(xs[0], 4);
      assert w[..4] == h;
      assert w[4..] == WriteInts(xs[1..]);
      FromToBE(Unsigned(xs[0], Pow256(4)), 4);
      ReadWriteInts(xs[1..]);
    }
  }

  /** Regrouping concatenations; stated over plain variables so that callers
      need not reason about the contents. */
  lemma Assoc3<T>(a: seq<T>, b: seq<T>, c: seq<T>)
    ensures a + b + c == a + (b + c)
  {
  }

  lemma Assoc4<T>(a: seq<T>, b: seq<T>, c: seq<T>, d: seq<T>)
    ensures a + b + c + d == a + (b + (c + d))
  {
  }

  /** Cutting a concatenation where its first part ends. */
  lemma SplitAt<T>(a: seq<T>, b: seq<T>)
    ensures (a + b)[..|a|] == a && (a + b)[|a|..] == b
  {
  }

  /** A string literal of 8-bit characters as the bytes Java's writeUTF emits
      for it (modified UTF-8 coincides with ASCII below 0x80). */
  function Ascii(s: string): (r: seq<byte>)
    requires forall i | 0 <= i < |s| :: s[i] as int < 0x80
    ensures |r| == |s|
    ensures forall i | 0 <= i < |s| :: r[i] == s[i] as int
  {
    seq(|s|, i requires 0 <= i < |s| => s[i] as int)
  }

  lemma AsciiInjective(s: string, t: string)
    requires forall i | 0 <= i < |s| :: s[i] as int < 0x80
    requires forall i | 0 <= i < |t| :: t[i] as int < 0x80
    ensures Ascii(s) == Ascii(t) <==> s == t
  {
    if Ascii(s) == Ascii(t) {
      assert |s| == |t|;
      forall i | 0 <= i < |s| ensures s[i] == t[i] {
        assert Ascii(s)[i] == Ascii(t)[i];
      }
    }
  }
}
