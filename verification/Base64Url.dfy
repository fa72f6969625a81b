/**
 base64url decoding, against the bit stream it stands for and the unpadded
 encoding of section 5 of RFC 4648.
 */
module Base64Url {
  import opened CText

  const LETTERS := 26

  /** The lookup table: the six bits a character stands for, 64 for a character
      outside the alphabet. '/' is accepted as a second spelling of 63. */
  function SixBits(c: byte): byte {
    if 'A' as int <= c <= 'Z' as int then c - 'A' as int
    else if 'a' as int <= c <= 'z' as int then c - 'a' as int + LETTERS
    else if '0' as int <= c <= '9' as int then c - '0' as int + 2 * LETTERS
    else if c == '-' as int then 62
    else if c == '_' as int || c == '/' as int then 63
    else 64
  }

  /** The values of the characters up to the first one outside the alphabet. */
  function Leading(s: seq<byte>): (vs: seq<nat>)
    ensures |vs| <= |s| && forall i :: 0 <= i < |vs| ==> vs[i] == SixBits(s[i]) < 64
    ensures |vs| < |s| ==> SixBits(s[|vs|]) == 64
  {
    if s == [] || SixBits(s[0]) > 63 then [] else [SixBits(s[0])] + Leading(s[1..])
  }

  // ---------- the alphabet of section 5 of RFC 4648 ----------

  /** The value of a character of the URL and filename safe alphabet, 64 for others. */
  function RfcBits(c: byte): byte {
    if c == '/' as int then 64 else SixBits(c)
  }

  /** It is the inverse of the alphabet. */
  lemma RfcBitsInvertsAlphabet(c: byte, v: nat)
    requires v < 64
    ensures RfcBits(Alphabet(v)) == v
    ensures RfcBits(c) < 64 ==> Alphabet(RfcBits(c)) == c
  {
  }

  /** The values of the characters up to the first one outside that alphabet. */
  function RfcLeading(s: seq<byte>): (vs: seq<nat>)
    ensures |vs| <= |s| && (|vs| < |s| ==> RfcBits(s[|vs|]) == 64)
  {
    if s == [] || RfcBits(s[0]) > 63 then [] else [RfcBits(s[0])] + RfcLeading(s[1..])
  }

  /** The table reads a string as the standard does if and only if what ends the
      standard's run is not '/'. */
  lemma {:induction false} TableIsRfcIff(s: seq<byte>)
    ensures Leading(s) == RfcLeading(s) <==> |RfcLeading(s)| == |s| || s[|RfcLeading(s)|] != '/' as int
  {
    if s != [] && RfcBits(s[0]) <= 63 {
      TableIsRfcIff(s[1..]);
      assert Leading(s)[1..] == Leading(s[1..]) && RfcLeading(s)[1..] == RfcLeading(s[1..]);
    }
  }

  /** "//" decodes to one byte; the standard has nothing to decode there. */
  lemma SlashIsRead(s: seq<byte>)
    requires s == ['/' as int, '/' as int]
    ensures RfcLeading(s) == [] && Leading(s) == [63, 63] && Decoded(s, [255])
  {
    assert s[1..][1..] == [];
    assert Leading(s[1..]) == [63];
    assert Number64([63, 63]) == 64 * Number64([63, 63][..1]) + 63 && [63, 63][..1] == [63];
    assert Number([255][..0]) == 0;
  }

  /** The stream of six-bit values read as one number, the first bit the highest. */
  function Number64(vs: seq<nat>): nat {
    if vs == [] then 0 else 64 * Number64(vs[..|vs| - 1]) + vs[|vs| - 1]
  }

  /** `v` without its last `6 * n % 8` bits, those that do not fill a byte. */
  function WholeBytes(v: nat, n: nat): nat {
    match n % 4 case 0 => v case 1 => v / 64 case 2 => v / 16 case _ => v / 4
  }

  /** `out` is the big-endian six-bit stream of the leading characters, cut to whole bytes. */
  ghost predicate Decoded(s: seq<byte>, out: seq<byte>) {
    var vs := Leading(s);
    |out| == 3 * |vs| / 4 && Number(out) == WholeBytes(Number64(vs), |vs|)
  }

  lemma {:induction false} NumberInjective(a: seq<byte>, b: seq<byte>)
    requires |a| == |b| && Number(a) == Number(b)
    ensures a == b
  {
    if a != [] {
      var n := |a| - 1;
      NumberInjective(a[..n], b[..n]);
      assert a == a[..n] + [a[n]] && b == b[..n] + [b[n]];
    }
  }

  /** Nothing but the decoded bytes meets the description. */
  lemma DecodedIsUnique(s: seq<byte>, out: seq<byte>, other: seq<byte>)
    requires Decoded(s, out) && Decoded(s, other)
    ensures out == other
  {
    NumberInjective(out, other);
  }

  // ---------- the decoder ----------

  /** base64url_decode_len: scan to the first character outside the alphabet;
      the string's terminator is one. */
  method CountLeading(s: seq<byte>) returns (n: nat)
    ensures n == |Leading(s)|
  {
    n := 0;
    while n < |s| && SixBits(s[n]) <= 63
      invariant n <= |Leading(s)|
    {
      n := n + 1;
    }
  }

  // The three bytes made of four characters. The shifted operands have no bit
  // in common, so that their or is their sum.

  function FirstByte(a: nat, b: nat): byte {
    (a * 4 + b / 16) % 256
  }

  function SecondByte(b: nat, c: nat): byte {
    (b * 16 + c / 4) % 256
  }

  function ThirdByte(c: nat, d: nat): byte {
    (c * 64 + d) % 256
  }

  /** The bytes of a group of up to four characters. */
  function GroupBytes(g: seq<nat>): (bs: seq<byte>)
    requires |g| <= 4
    ensures |bs| == if g == [] then 0 else |g| - 1
  {
    match |g|
    case 0 => []
    case 1 => []
    case 2 => [FirstByte(g[0], g[1])]
    case 3 => [FirstByte(g[0], g[1]), SecondByte(g[1], g[2])]
    case _ => [FirstByte(g[0], g[1]), SecondByte(g[1], g[2]), ThirdByte(g[2], g[3])]
  }

  lemma NumberSnoc(s: seq<byte>, b: byte)
    ensures Number(s + [b]) == 256 * Number(s) + b
  {
    assert (s + [b])[..|s|] == s;
  }

  lemma NumberSnoc2(s: seq<byte>, x: byte, y: byte)
    ensures Number(s + [x, y]) == 256 * (256 * Number(s) + x) + y
  {
    NumberSnoc(s, x);
    NumberSnoc(s + [x], y);
    assert s + [x, y] == s + [x] + [y];
  }

  lemma NumberSnoc3(s: seq<byte>, x: byte, y: byte, z: byte)
    ensures Number(s + [x, y, z]) == 256 * (256 * (256 * Number(s) + x) + y) + z
  {
    NumberSnoc2(s, x, y);
    NumberSnoc(s + [x, y], z);
    assert s + [x, y, z] == s + [x, y] + [z];
  }

  lemma Number64Snoc(vs: seq<nat>, v: nat)
    ensures Number64(vs + [v]) == 64 * Number64(vs) + v
  {
    assert (vs + [v])[..|vs|] == vs;
  }

  lemma Number64Snoc2(vs: seq<nat>, a: nat, b: nat)
    ensures Number64(vs + [a, b]) == 64 * (64 * Number64(vs) + a) + b
  {
    Number64Snoc(vs, a);
    Number64Snoc(vs + [a], b);
    assert vs + [a, b] == vs + [a] + [b];
  }

  lemma Number64Snoc3(vs: seq<nat>, a: nat, b: nat, c: nat)
    ensures Number64(vs + [a, b, c]) == 64 * (64 * (64 * Number64(vs) + a) + b) + c
  {
    Number64Snoc2(vs, a, b);
    Number64Snoc(vs + [a, b], c);
    assert vs + [a, b, c] == vs + [a, b] + [c];
  }

  lemma Number64Snoc4(vs: seq<nat>, a: nat, b: nat, c: nat, d: nat)
    ensures Number64(vs + [a, b, c, d]) == 64 * (64 * (64 * (64 * Number64(vs) + a) + b) + c) + d
  {
    Number64Snoc3(vs, a, b, c);
    Number64Snoc(vs + [a, b, c], d);
    assert vs + [a, b, c, d] == vs + [a, b, c] + [d];
  }

  // What the bytes of a group and its characters weigh.

  lemma Weigh2(n: nat, a: nat, b: nat)
    requires a < 64 && b < 64
    ensures 256 * n + FirstByte(a, b) == (64 * (64 * n + a) + b) / 16
  {
  }

  lemma Weigh3(n: nat, a: nat, b: nat, c: nat)
    requires a < 64 && b < 64 && c < 64
    ensures 256 * (256 * n + FirstByte(a, b)) + SecondByte(b, c) == (64 * (64 * (64 * n + a) + b) + c) / 4
  {
    assert SecondByte(b, c) == b % 16 * 16 + c / 4;
    assert 64 * (64 * (64 * n + a) + b) + c == 4 * (0x1_0000 * n + 0x400 * a + 16 * b) + c;
  }

  lemma Weigh4(n: nat, a: nat, b: nat, c: nat, d: nat)
    requires a < 64 && b < 64 && c < 64 && d < 64
    ensures 256 * (256 * (256 * n + FirstByte(a, b)) + SecondByte(b, c)) + ThirdByte(c, d) ==
      64 * (64 * (64 * (64 * n + a) + b) + c) + d
  {
    assert SecondByte(b, c) == b % 16 * 16 + c / 4;
    assert ThirdByte(c, d) == c % 4 * 64 + d;
  }

  /** A group of up to four characters adds its bits, and its bytes all of them
      but the spare ones. */
  lemma GroupDecodes(out: seq<byte>, vs: seq<nat>, g: seq<nat>, all: seq<nat>)
    requires Number(out) == Number64(vs) && all == vs + g
    requires |g| <= 4 && forall i :: 0 <= i < |g| ==> g[i] < 64
    ensures Number(out + GroupBytes(g)) == WholeBytes(Number64(all), |g|)
  {
    match |g|
    case 0 =>
      assert out + GroupBytes(g) == out && vs + g == vs;
    case 1 =>
      assert out + GroupBytes(g) == out && g == [g[0]];
      Number64Snoc(vs, g[0]);
    case 2 =>
      assert g == [g[0], g[1]];
      NumberSnoc(out, FirstByte(g[0], g[1]));
      Number64Snoc2(vs, g[0], g[1]);
      Weigh2(Number(out), g[0], g[1]);
    case 3 =>
      assert g == [g[0], g[1], g[2]];
      ThreeDecode(out, vs, g[0], g[1], g[2]);
    case _ =>
      assert g == [g[0], g[1], g[2], g[3]];
      FourDecode(out, vs, g[0], g[1], g[2], g[3]);
  }

  lemma ThreeDecode(out: seq<byte>, vs: seq<nat>, a: nat, b: nat, c: nat)
    requires Number(out) == Number64(vs) && a < 64 && b < 64 && c < 64
    ensures Number(out + [FirstByte(a, b), SecondByte(b, c)]) == Number64(vs + [a, b, c]) / 4
  {
    NumberSnoc2(out, FirstByte(a, b), SecondByte(b, c));
    Number64Snoc3(vs, a, b, c);
    Weigh3(Number(out), a, b, c);
  }

  lemma FourDecode(out: seq<byte>, vs: seq<nat>, a: nat, b: nat, c: nat, d: nat)
    requires Number(out) == Number64(vs) && a < 64 && b < 64 && c < 64 && d < 64
    ensures Number(out + [FirstByte(a, b), SecondByte(b, c), ThirdByte(c, d)]) == Number64(vs + [a, b, c, d])
  {
    NumberSnoc3(out, FirstByte(a, b), SecondByte(b, c), ThirdByte(c, d));
    Number64Snoc4(vs, a, b, c, d);
    Weigh4(Number(out), a, b, c, d);
  }

  /** Whether the first `k` groups of four characters are decoded to `out`. */
  ghost predicate Progress(s: seq<byte>, k: nat, out: seq<byte>) {
    4 * k <= |Leading(s)| && |out| == 3 * k && Number(out) == Number64(Leading(s)[..4 * k])
  }

  lemma ProgressStep(s: seq<byte>, k: nat, out: seq<byte>)
    requires Progress(s, k, out) && 4 * k + 4 <= |Leading(s)|
    ensures Progress(s, k + 1, out + GroupBytes(Leading(s)[4 * k..4 * k + 4]))
  {
    var vs, i := Leading(s), 4 * k;
    assert vs[..i + 4] == vs[..i] + vs[i..i + 4];
    GroupDecodes(out, vs[..i], vs[i..i + 4], vs[..i + 4]);
    assert i + 4 == 4 * (k + 1);
  }

  lemma ProgressEnds(s: seq<byte>, k: nat, out: seq<byte>)
    requires Progress(s, k, out) && |Leading(s)| <= 4 * k + 4
    ensures Decoded(s, out + GroupBytes(Leading(s)[4 * k..]))
  {
    var vs, i := Leading(s), 4 * k;
    assert vs == vs[..i] + vs[i..];
    GroupDecodes(out, vs[..i], vs[i..], vs);
    WholeBytesOfRest(Number64(vs), k, |vs[i..]|, |vs|);
  }

  lemma WholeBytesOfRest(v: nat, k: nat, r: nat, n: nat)
    requires r <= 4 && n == 4 * k + r
    ensures WholeBytes(v, n) == WholeBytes(v, r)
    ensures 3 * n / 4 == 3 * k + if r == 0 then 0 else r - 1
  {
  }

  /** tlsuv_base64url_decode: the buffer is allocated before decoding. */
  method Decode(s: seq<byte>) returns (buf: array<byte>, len: nat)
    ensures len <= buf.Length && fresh(buf) && Decoded(s, buf[..len])
  {
    var n := CountLeading(s);
    buf := new byte[(n + 3) / 4 * 3];
    var i := 0;
    len := 0;
    ghost var k := 0;
    while n - i > 4
      invariant i == 4 * k && len <= buf.Length && Progress(s, k, buf[..len])
    {
      ProgressStep(s, k, buf[..len]);
      DecodeGroup(buf, len, s, i);
      i := i + 4;
      len := len + 3;
      k := k + 1;
    }
    ProgressEnds(s, k, buf[..len]);
    len := DecodeRest(buf, len, s, i, n);
  }

  /** One turn of the loop. */
  method DecodeGroup(buf: array<byte>, at: nat, s: seq<byte>, i: nat)
    requires i + 4 <= |Leading(s)| && at + 3 <= buf.Length
    modifies buf
    ensures buf[..at + 3] == old(buf[..at]) + GroupBytes(Leading(s)[i..i + 4])
  {
    buf[at] := FirstByte(SixBits(s[i]), SixBits(s[i + 1]));
    buf[at + 1] := SecondByte(SixBits(s[i + 1]), SixBits(s[i + 2]));
    buf[at + 2] := ThirdByte(SixBits(s[i + 2]), SixBits(s[i + 3]));
  }

  /** The last one to four characters. */
  method DecodeRest(buf: array<byte>, at: nat, s: seq<byte>, i: nat, n: nat) returns (len: nat)
    requires n == |Leading(s)| && i <= n <= i + 4 && at + |GroupBytes(Leading(s)[i..])| <= buf.Length
    modifies buf
    ensures len == at + |GroupBytes(Leading(s)[i..])|
    ensures buf[..len] == old(buf[..at]) + GroupBytes(Leading(s)[i..])
  {
    len := at;
    if n - i > 1 {
      buf[len] := FirstByte(SixBits(s[i]), SixBits(s[i + 1]));
      len := len + 1;
    }
    if n - i > 2 {
      buf[len] := SecondByte(SixBits(s[i + 1]), SixBits(s[i + 2]));
      len := len + 1;
    }
    if n - i > 3 {
      buf[len] := ThirdByte(SixBits(s[i + 2]), SixBits(s[i + 3]));
      len := len + 1;
    }
  }

  // ---------- the encoder ----------

  /** The URL and filename safe alphabet. */
  function Alphabet(v: nat): byte
    requires v < 64
  {
    if v < LETTERS then 'A' as int + v
    else if v < 2 * LETTERS then 'a' as int + v - LETTERS
    else if v < 62 then '0' as int + v - 2 * LETTERS
    else if v == 62 then '-' as int else '_' as int
  }

  /** A group of up to three bytes in six-bit pieces, zero bits added on the right. */
  function Pieces(g: seq<byte>): (vs: seq<nat>)
    requires |g| <= 3
    ensures |vs| == (4 * |g| + 2) / 3
    ensures forall i :: 0 <= i < |vs| ==> vs[i] < 64
  {
    match |g|
    case 0 => []
    case 1 => [g[0] / 4, g[0] % 4 * 16]
    case 2 => [g[0] / 4, g[0] % 4 * 16 + g[1] / 16, g[1] % 16 * 4]
    case _ => [g[0] / 4, g[0] % 4 * 16 + g[1] / 16, g[1] % 16 * 4 + g[2] / 64, g[2] % 64]
  }

  function LastGroup(n: nat): (k: nat)
    ensures n > 0 ==> 0 < k <= n
  {
    if n % 3 == 0 then 3 else n % 3
  }

  lemma GroupLengths(n: nat)
    requires n > 0
    ensures var k := LastGroup(n);
      && (n - k) % 3 == 0 && k % 3 == n % 3
      && (4 * n + 2) / 3 == (4 * (n - k) + 2) / 3 + (4 * k + 2) / 3
  {
  }

  function Sextets(bs: seq<byte>): (vs: seq<nat>)
    ensures |vs| == (4 * |bs| + 2) / 3
    ensures forall i :: 0 <= i < |vs| ==> vs[i] < 64
  {
    if bs == [] then [] else
      GroupLengths(|bs|);
      var n := |bs| - LastGroup(|bs|);
      Sextets(bs[..n]) + Pieces(bs[n..])
  }

  function Encode(bs: seq<byte>): seq<byte> {
    var vs := Sextets(bs);
    seq(|vs|, i requires 0 <= i < |vs| => Alphabet(vs[i]))
  }

  /** The encoding is the shortest stream of six-bit pieces that holds all
      bytes, followed by zero bits. */
  lemma {:induction false} SextetsNumber(bs: seq<byte>)
    ensures Number64(Sextets(bs)) == Padded(Number(bs), |bs|)
  {
    if bs != [] {
      var n := |bs| - LastGroup(|bs|);
      var front, g := bs[..n], bs[n..];
      GroupLengths(|bs|);
      SextetsNumber(front);
      assert bs == front + g;
      SextetsStep(bs, front, g, Sextets(front));
    }
  }

  lemma SextetsStep(bs: seq<byte>, front: seq<byte>, g: seq<byte>, vs: seq<nat>)
    requires bs == front + g && |g| <= 3 && |bs| % 3 == |g| % 3 && Number64(vs) == Number(front)
    ensures Number64(vs + Pieces(g)) == Padded(Number(bs), |bs|)
  {
    PiecesNumber(front, vs, g, bs);
    PaddedDepends(Number(bs), |bs|, |g|);
  }

  lemma PaddedDepends(v: nat, n: nat, k: nat)
    requires n % 3 == k % 3
    ensures Padded(v, n) == Padded(v, k)
  {
  }

  /** `v` followed by the zero bits that fill `8 * n` bits up to a multiple of six. */
  function Padded(v: nat, n: nat): nat {
    match n % 3 case 0 => v case 1 => v * 16 case _ => v * 4
  }

  lemma Split3(n: nat, x: nat, y: nat, z: nat)
    requires x < 256 && y < 256 && z < 256
    ensures 64 * (64 * (64 * (64 * n + x / 4) + (x % 4 * 16 + y / 16)) + (y % 16 * 4 + z / 64)) + z % 64 ==
      256 * (256 * (256 * n + x) + y) + z
  {
    assert x == 4 * (x / 4) + x % 4;
    assert y == 16 * (y / 16) + y % 16;
    assert z == 64 * (z / 64) + z % 64;
  }

  lemma PiecesNumber(bs: seq<byte>, vs: seq<nat>, g: seq<byte>, all: seq<byte>)
    requires Number(bs) == Number64(vs) && |g| <= 3 && all == bs + g
    ensures Number64(vs + Pieces(g)) == Padded(Number(all), |g|)
  {
    match |g|
    case 0 =>
      assert vs + Pieces(g) == vs && bs + g == bs;
    case 1 =>
      assert g == [g[0]];
      NumberSnoc(bs, g[0]);
      Number64Snoc2(vs, g[0] / 4, g[0] % 4 * 16);
    case 2 =>
      PiecesOfTwo(bs, vs, g[0], g[1]);
      assert g == [g[0], g[1]];
    case _ =>
      PiecesOfThree(bs, vs, g[0], g[1], g[2]);
      assert g == [g[0], g[1], g[2]];
  }

  lemma PiecesOfTwo(bs: seq<byte>, vs: seq<nat>, x: byte, y: byte)
    requires Number(bs) == Number64(vs)
    ensures Number64(vs + Pieces([x, y])) == Number(bs + [x, y]) * 4
  {
    NumberSnoc2(bs, x, y);
    Number64Snoc3(vs, x / 4, x % 4 * 16 + y / 16, y % 16 * 4);
    Split3(Number(bs), x, y, 0);
  }

  lemma PiecesOfThree(bs: seq<byte>, vs: seq<nat>, x: byte, y: byte, z: byte)
    requires Number(bs) == Number64(vs)
    ensures Number64(vs + Pieces([x, y, z])) == Number(bs + [x, y, z])
  {
    NumberSnoc3(bs, x, y, z);
    Number64Snoc4(vs, x / 4, x % 4 * 16 + y / 16, y % 16 * 4 + z / 64, z % 64);
    Split3(Number(bs), x, y, z);
  }

  lemma SixBitsOfAlphabet(v: nat)
    requires v < 64
    ensures SixBits(Alphabet(v)) == v
  {
  }

  /** Leading stops where the encoding ends. */
  lemma {:induction false} LeadingStops(s: seq<byte>, vs: seq<nat>, rest: seq<byte>)
    requires |s| == |vs| && forall i :: 0 <= i < |s| ==> SixBits(s[i]) == vs[i] < 64
    requires rest == [] || SixBits(rest[0]) == 64
    ensures Leading(s + rest) == vs
  {
    if s == [] {
      assert s + rest == rest;
    } else {
      LeadingStops(s[1..], vs[1..], rest);
      assert (s + rest)[1..] == s[1..] + rest;
    }
  }

  lemma LeadingOfEncode(bs: seq<byte>, rest: seq<byte>)
    requires rest == [] || SixBits(rest[0]) == 64
    ensures Leading(Encode(bs) + rest) == Sextets(bs)
  {
    var s, vs := Encode(bs), Sextets(bs);
    forall i | 0 <= i < |s| ensures SixBits(s[i]) == vs[i] < 64 {
      SixBitsOfAlphabet(vs[i]);
    }
    LeadingStops(s, vs, rest);
  }

  /** Decoding inverts the unpadded encoding, whatever follows the first
      character outside the alphabet. */
  lemma DecodingInvertsEncoding(bs: seq<byte>, rest: seq<byte>, out: seq<byte>)
    requires rest == [] || SixBits(rest[0]) == 64
    requires Decoded(Encode(bs) + rest, out)
    ensures out == bs
  {
    LeadingOfEncode(bs, rest);
    OnlyOneSource(bs, Sextets(bs), out);
  }

  lemma OnlyOneSource(bs: seq<byte>, vs: seq<nat>, out: seq<byte>)
    requires vs == Sextets(bs)
    requires |out| == 3 * |vs| / 4 && Number(out) == WholeBytes(Number64(vs), |vs|)
    ensures out == bs
  {
    SextetsNumber(bs);
    CutsPadding(Number(bs), |bs|, Number64(vs), |vs|);
    NumberInjective(out, bs);
  }

  lemma CutsPadding(v: nat, n: nat, p: nat, m: nat)
    requires p == Padded(v, n) && m == (4 * n + 2) / 3
    ensures 3 * m / 4 == n && WholeBytes(p, m) == v
  {
    var k := n / 3;
    match n % 3
    case 0 =>
      assert m == 4 * k;
      WholeBytesOfRest(p, k, 0, m);
    case 1 =>
      assert m == 4 * k + 2;
      WholeBytesOfRest(p, k, 2, m);
    case _ =>
      assert m == 4 * k + 3;
      WholeBytesOfRest(p, k, 3, m);
  }
}
