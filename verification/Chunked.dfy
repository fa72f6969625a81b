/**
 Request bodies in chunked transfer coding, section 7.1 of RFC 9112: what the
 client writes for a list of queued pieces, and a decoder as the reference.
 */
module Chunked {
  import opened CText
  import opened Options

  const CR: byte := 13
  const LF: byte := 10
  const CRLF: seq<byte> := [CR, LF]

  // ---------- the reference decoder ----------

  /** The length of the run of hexadecimal digits `s` starts with. */
  function HexRun(s: seq<byte>): (n: nat)
    ensures n <= |s| && forall i :: 0 <= i < n ==> HexValue(s[i]).Some?
    ensures n < |s| ==> HexValue(s[n]).None?
  {
    if s == [] || HexValue(s[0]).None? then 0 else 1 + HexRun(s[1..])
  }

  function HexValues(s: seq<byte>): seq<nat>
    requires forall i :: 0 <= i < |s| ==> HexValue(s[i]).Some?
  {
    seq(|s|, i requires 0 <= i < |s| => HexValue(s[i]).value)
  }

  datatype Size = Size(size: nat, rest: seq<byte>)

  /** chunk-size CRLF. */
  function DecodeSize(s: seq<byte>): (r: Option<Size>)
    ensures r.Some? ==> |r.value.rest| < |s|
  {
    var n := HexRun(s);
    if n > 0 && n + 2 <= |s| && s[n..n + 2] == CRLF then Some(Size(Value(HexValues(s[..n]), Sixteen), s[n + 2..]))
    else None
  }

  datatype Decoded = Decoded(body: seq<byte>, rest: seq<byte>)

  /** chunked-body without extensions and trailers; also what follows it. */
  function Decode(s: seq<byte>): Option<Decoded>
    decreases |s|
  {
    match DecodeSize(s)
    case None => None
    case Some(Size(n, t)) =>
      if n + 2 > |t| || t[n..n + 2] != CRLF then None
      else if n == 0 then Some(Decoded([], t[2..]))
      else
        match Decode(t[n + 2..])
        case None => None
        case Some(d) => Some(Decoded(t[..n] + d.body, d.rest))
  }

  // ---------- the writer ----------

  function HexByte(d: nat): byte
    requires d < 16
  {
    if d < 10 then '0' as int + d else 'a' as int + d - 10
  }

  function HexText(n: nat): seq<byte> {
    var ds := Digits(n, Sixteen);
    seq(|ds|, i requires 0 <= i < |ds| => HexByte(ds[i]))
  }

  const SIZE_BUFFER := 10

  /** snprintf of the size line into the ten-byte buffer, and the bytes then
      written: as many as the text has, though the buffer ends it with a NUL.
      Beyond 2^32 the write would leave the buffer. */
  function SizeLine(n: nat): seq<byte>
    requires n < 0x1_0000_0000
  {
    var text := HexText(n) + CRLF;
    if |text| < SIZE_BUFFER then text else text[..SIZE_BUFFER - 1] + [0]
  }

  /** What send_body writes for one queued piece; an empty one is the end marker. */
  function Piece(data: seq<byte>): seq<byte>
    requires |data| < 0x1_0000_0000
  {
    if data == [] then HexText(0) + CRLF + CRLF else SizeLine(|data|) + data + CRLF
  }

  ghost predicate Sized(items: seq<seq<byte>>) {
    forall i :: 0 <= i < |items| ==> |items[i]| < 0x1_0000_0000
  }

  function Wire(items: seq<seq<byte>>): seq<byte>
    requires Sized(items)
  {
    if items == [] then [] else Piece(items[0]) + Wire(items[1..])
  }

  function Concat(items: seq<seq<byte>>): seq<byte> {
    if items == [] then [] else items[0] + Concat(items[1..])
  }

  // ---------- one size line ----------

  lemma HexTextValues(n: nat)
    ensures var t := HexText(n);
      && |t| == |Digits(n, Sixteen)| && (forall i :: 0 <= i < |t| ==> HexValue(t[i]).Some?)
      && Value(HexValues(t), Sixteen) == n
  {
    assert HexValues(HexText(n)) == Digits(n, Sixteen);
    ValueOfDigits(n, Sixteen);
  }

  lemma {:induction false} HexRunOf(t: seq<byte>, s: seq<byte>)
    requires forall i :: 0 <= i < |t| ==> HexValue(t[i]).Some?
    requires s != [] ==> HexValue(s[0]).None?
    ensures HexRun(t + s) == |t|
  {
    if t != [] {
      assert (t + s)[1..] == t[1..] + s;
      HexRunOf(t[1..], s);
    } else {
      assert t + s == s;
    }
  }

  lemma SizeLineRoundTrip(n: nat, s: seq<byte>)
    ensures DecodeSize(HexText(n) + CRLF + s) == Some(Size(n, s))
  {
    var t := HexText(n);
    HexTextValues(n);
    HexRunOf(t, CRLF + s);
    var all := t + CRLF + s;
    assert all == t + (CRLF + s);
    assert all[..|t|] == t && all[|t|..|t| + 2] == CRLF && all[|t| + 2..] == s;
  }

  /** 16^7 is the largest size whose line fits. */
  lemma SizeLineFits(n: nat)
    requires n < 0x1_0000_0000
    ensures |HexText(n)| + 2 < SIZE_BUFFER <==> n < 0x1000_0000
    ensures |HexText(n)| <= 8
  {
    HexTextValues(n);
    Powers();
    DigitCount(n, Sixteen, 7);
    DigitCount(n, Sixteen, 8);
  }

  lemma Powers()
    ensures Power(Sixteen, 7) == 0x1000_0000 && Power(Sixteen, 8) == 0x1_0000_0000
  {
    assert Power(Sixteen, 2) == 0x100;
    assert Power(Sixteen, 4) == 0x1_0000;
    assert Power(Sixteen, 6) == 0x100_0000;
  }

  lemma TruncatedShape(n: nat)
    requires 0x1000_0000 <= n < 0x1_0000_0000
    ensures SizeLine(n) == HexText(n) + [CR, 0]
  {
    SizeLineFits(n);
    var text := HexText(n) + CRLF;
    assert |HexText(n)| == 8 && text[..9] == HexText(n) + [CR];
  }

  /** A truncated size line is not a size line. */
  lemma TruncatedSizeLine(n: nat, s: seq<byte>)
    requires 0x1000_0000 <= n < 0x1_0000_0000
    ensures DecodeSize(SizeLine(n) + s) == None
  {
    TruncatedShape(n);
    HexTextValues(n);
    var t := HexText(n);
    HexRunOf(t, [CR, 0] + s);
    var all := t + ([CR, 0] + s);
    assert SizeLine(n) + s == all;
    assert all[|t| + 1] == 0 && all[|t|..|t| + 2][1] == 0;
  }

  // ---------- whole bodies ----------

  lemma PieceDecodes(data: seq<byte>, s: seq<byte>)
    requires 0 < |data| < 0x1000_0000
    ensures Decode(Piece(data) + s) ==
      match Decode(s) case None => None case Some(d) => Some(Decoded(data + d.body, d.rest))
  {
    SizeLineFits(|data|);
    var t := data + CRLF + s;
    PieceSplits(data, s, t);
    SizeLineRoundTrip(|data|, t);
  }

  lemma PieceSplits(data: seq<byte>, s: seq<byte>, t: seq<byte>)
    requires t == data + CRLF + s
    ensures t[|data|..|data| + 2] == CRLF && t[..|data|] == data && t[|data| + 2..] == s
    ensures HexText(|data|) + CRLF + data + CRLF + s == HexText(|data|) + CRLF + t
  {
  }

  lemma MarkerDecodes(s: seq<byte>)
    ensures Decode(Piece([]) + s) == Some(Decoded([], s))
  {
    assert Piece([]) + s == HexText(0) + CRLF + (CRLF + s);
    SizeLineRoundTrip(0, CRLF + s);
    assert (CRLF + s)[0..2] == CRLF && (CRLF + s)[2..] == s;
  }

  /** The pieces up to the first end marker are well formed. */
  ghost predicate Proper(items: seq<seq<byte>>) {
    |items| > 0 && items[|items| - 1] == [] && forall i :: 0 <= i < |items| - 1 ==> 0 < |items[i]| < 0x1000_0000
  }

  /** A proper list of pieces decodes to its concatenation, and what follows is left alone. */
  lemma {:induction false} BodyRoundTrip(items: seq<seq<byte>>, s: seq<byte>)
    requires Sized(items) && Proper(items)
    ensures Decode(Wire(items) + s) == Some(Decoded(Concat(items), s))
  {
    if |items| == 1 {
      assert Wire(items) + s == Piece([]) + s by {
        assert Wire(items[1..]) == [];
      }
      assert Concat(items) == [] by {
        assert Concat(items[1..]) == [];
      }
      MarkerDecodes(s);
    } else {
      assert Wire(items) + s == Piece(items[0]) + (Wire(items[1..]) + s);
      BodyRoundTrip(items[1..], s);
      PieceDecodes(items[0], Wire(items[1..]) + s);
    }
  }

  /** Exactly the proper lists are written as a body that decodes to the
      concatenation of the pieces and is used up completely. */
  lemma DecodesIffProper(items: seq<seq<byte>>)
    requires Sized(items)
    ensures Decode(Wire(items)) == Some(Decoded(Concat(items), [])) <==> Proper(items)
  {
    if Proper(items) {
      assert Wire(items) + [] == Wire(items);
      BodyRoundTrip(items, []);
    } else {
      ImproperFails(items);
    }
  }

  /** An improper list decodes to nothing, or leaves bytes behind. */
  lemma {:induction false} ImproperFails(items: seq<seq<byte>>)
    requires Sized(items) && !Proper(items)
    ensures Decode(Wire(items)).Some? ==> Decode(Wire(items)).value.rest != []
  {
    if items == [] {
    } else if items[0] == [] {
      MarkerDecodes(Wire(items[1..]));
      NonEmptyWire(items[1..]);
    } else if |items[0]| >= 0x1000_0000 {
      OversizedFails(items[0], Wire(items[1..]));
    } else {
      PieceDecodes(items[0], Wire(items[1..]));
      if Proper(items[1..]) {
        ProperTail(items);
        assert false;
      }
      ImproperFails(items[1..]);
    }
  }

  lemma OversizedFails(data: seq<byte>, s: seq<byte>)
    requires 0x1000_0000 <= |data| < 0x1_0000_0000
    ensures Decode(Piece(data) + s) == None
  {
    var t := data + CRLF + s;
    assert Piece(data) + s == SizeLine(|data|) + t;
    TruncatedSizeLine(|data|, t);
  }

  lemma ProperTail(items: seq<seq<byte>>)
    requires items != [] && 0 < |items[0]| < 0x1000_0000 && Proper(items[1..])
    ensures Proper(items)
  {
    forall i | 0 <= i < |items| - 1 ensures 0 < |items[i]| < 0x1000_0000 {
      assert i > 0 ==> items[i] == items[1..][i - 1];
    }
    assert items[|items| - 1] == items[1..][|items| - 2];
  }

  lemma NonEmptyWire(items: seq<seq<byte>>)
    requires Sized(items)
    ensures items != [] ==> |Wire(items)| > 0
  {
  }
}
