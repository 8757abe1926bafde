/** Bytes and the fixed-width integer layouts produced by PHP's `pack`/`unpack`
    codes used in the RTMP core: 'C' (8-bit), 'n' (16-bit big-endian),
    'N' (32-bit big-endian), 'S'/'L' (16/32-bit little-endian, as the host
    byte order is assumed little-endian), 'a<n>' (NUL-padded string), and
    the string helpers `substr` and `substr_replace`. Every encoder truncates
    its argument to its width, as `pack` does. */
module Bytes {

  type byte = x: int | 0 <= x < 256

  const TWO8: nat := 0x100
  const TWO16: nat := 0x1_0000
  const TWO24: nat := 0x100_0000
  const TWO32: nat := 0x1_0000_0000

  /** pack('n', x) */
  function Be16(x: nat): (r: seq<byte>)
    ensures |r| == 2
  {
    var v := x % TWO16;
    [v / TWO8, v % TWO8]
  }

  /** The low three bytes of pack('N', x): the third-lowest byte, then the low two. */
  function Be24(x: nat): (r: seq<byte>)
    ensures |r| == 3
  {
    var v := x % TWO24;
    [v / TWO16] + Be16(v)
  }

  /** pack('N', x): the top byte, then the low three. */
  function Be32(x: nat): (r: seq<byte>)
    ensures |r| == 4
  {
    var v := x % TWO32;
    [v / TWO24] + Be24(v)
  }

  /** pack('S', x) on a little-endian host */
  function Le16(x: nat): (r: seq<byte>)
    ensures |r| == 2
  {
    var v := x % TWO16;
    [v % TWO8, v / TWO8]
  }

  /** pack('L', x) on a little-endian host: the low half, then the high half. */
  function Le32(x: nat): (r: seq<byte>)
    ensures |r| == 4
  {
    Le16(x) + Le16((x % TWO32) / TWO16)
  }

  function ReadBe16(s: seq<byte>): (r: nat)
    requires |s| >= 2
    ensures r < TWO16
  {
    s[0] * TWO8 + s[1]
  }

  function ReadBe24(s: seq<byte>): (r: nat)
    requires |s| >= 3
    ensures r < TWO24
  {
    s[0] * TWO16 + s[1] * TWO8 + s[2]
  }

  /** unpack('N', s) */
  function ReadBe32(s: seq<byte>): (r: nat)
    requires |s| >= 4
    ensures r < TWO32
  {
    s[0] * TWO24 + s[1] * TWO16 + s[2] * TWO8 + s[3]
  }

  /** readInt16LE */
  function ReadLe16(s: seq<byte>): (r: nat)
    requires |s| >= 2
    ensures r < TWO16
  {
    s[0] + s[1] * TWO8
  }

  function ReadLe32(s: seq<byte>): (r: nat)
    requires |s| >= 4
    ensures r < TWO32
  {
    s[0] + s[1] * TWO8 + s[2] * TWO16 + s[3] * TWO24
  }

  function Zeros(n: nat): (r: seq<byte>)
    ensures |r| == n
    ensures forall i :: 0 <= i < n ==> r[i] == 0
  {
    seq(n, _ => 0)
  }

  /** pack('a<n>', s): the first n bytes of s, NUL-padded when s is shorter. */
  function PadA(s: seq<byte>, n: nat): (r: seq<byte>)
    ensures |r| == n
    ensures |s| >= n ==> r == s[..n]
    ensures |s| < n ==> r[..|s|] == s && r[|s|..] == Zeros(n - |s|)
  {
    if |s| >= n then s[..n] else s + Zeros(n - |s|)
  }

  /** substr(s, start, len) for non-negative start and len. */
  function Substr<T>(s: seq<T>, start: nat, len: nat): (r: seq<T>)
    ensures |r| <= len
    ensures start + len <= |s| ==> r == s[start..start + len]
  {
    if start >= |s| then []
    else if start + len <= |s| then s[start..start + len]
    else s[start..]
  }

  /** substr_replace(s, repl, off) with no length: everything from off on is replaced. */
  function SubstrReplaceFrom<T>(s: seq<T>, repl: seq<T>, off: nat): (r: seq<T>)
    requires off <= |s|
    ensures |r| == off + |repl|
    ensures r[..off] == s[..off] && r[off..] == repl
  {
    s[..off] + repl
  }

  function Min(a: nat, b: nat): (r: nat)
    ensures r <= a && r <= b && (r == a || r == b)
  {
    if a <= b then a else b
  }

  lemma Be16RoundTrip(x: nat)
    ensures ReadBe16(Be16(x)) == x % TWO16
  {
  }

  lemma Be24RoundTrip(x: nat)
    ensures ReadBe24(Be24(x)) == x % TWO24
  {
    var v := x % TWO24;
    assert v % TWO16 == v - (v / TWO16) * TWO16;
  }

  lemma Be32RoundTrip(x: nat)
    ensures ReadBe32(Be32(x)) == x % TWO32
  {
    var v := x % TWO32;
    Be24RoundTrip(v);
    assert v % TWO24 == v - (v / TWO24) * TWO24;
  }

  /** Reducing modulo 2^32 first does not change the low 24 bits. */
  lemma Mod32Mod24(x: nat)
    ensures (x % TWO32) % TWO24 == x % TWO24
  {
    var a, v := x / TWO32, x % TWO32;
    assert x == TWO24 * (256 * a) + v;
  }

  /** Reducing modulo 2^24 first does not change the low 16 bits. */
  lemma Mod24Mod16(x: nat)
    ensures (x % TWO24) % TWO16 == x % TWO16
  {
    var c, u := x / TWO24, x % TWO24;
    assert x == TWO16 * (256 * c) + u;
  }

  /** The low three bytes of pack('N', x) are the three bytes of the 24-bit encoding. */
  lemma Be32Low(x: nat)
    ensures Be32(x)[1..] == Be24(x)
  {
    Mod32Mod24(x);
    Mod24Mod16(x);
    assert Be32(x)[1..] == Be24(x % TWO32);
  }

  lemma Le16RoundTrip(x: nat)
    ensures ReadLe16(Le16(x)) == x % TWO16
  {
  }

  lemma Le32RoundTrip(x: nat)
    ensures ReadLe32(Le32(x)) == x % TWO32
  {
    var v := x % TWO32;
    var hi := v / TWO16;
    Le16RoundTrip(x);
    Le16RoundTrip(hi);
    assert v % TWO16 == x % TWO16;
    assert ReadLe32(Le32(x)) == ReadLe16(Le16(x)) + ReadLe16(Le16(hi)) * TWO16;
  }

  /** Re-encoding three decoded bytes gives the same three bytes back. */
  lemma ReadBe24Encodes(s: seq<byte>)
    requires |s| == 3
    ensures Be24(ReadBe24(s)) == s
  {
    var v := ReadBe24(s);
    assert v % TWO16 == s[1] * TWO8 + s[2];
  }

  /** Re-encoding four decoded bytes gives the same four bytes back. */
  lemma ReadBe32Encodes(s: seq<byte>)
    requires |s| == 4
    ensures Be32(ReadBe32(s)) == s
  {
    var v := ReadBe32(s);
    assert v % TWO24 == ReadBe24(s[1..]);
    ReadBe24Encodes(s[1..]);
    assert Be24(v) == Be24(ReadBe24(s[1..]));
  }
}
