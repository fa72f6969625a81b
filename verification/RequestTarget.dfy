/**
 The request line: the path prefix and the path, percent-encoded (section 2.1 of
 RFC 3986) between the method and the protocol version.
 */
module RequestTarget {
  import opened CText
  import opened Options

  const SPACE: byte := 32
  const PERCENT: byte := 37

  /** The bytes listed as unsafe: quote, angle brackets, percent, braces, bar, backslash, caret, backtick. */
  const UNSAFE: set<byte> := {34, 60, 62, 37, 123, 125, 124, 92, 94, 96}

  /** Whether write_url_encoded escapes a byte. Where char is signed, bytes from
      128 on are negative and so below the space. */
  predicate Escaped(b: byte, signedChar: bool) {
    b <= SPACE || (signedChar && b >= 128) || b in UNSAFE
  }

  function HexUpper(d: int): byte
    requires 0 <= d < 16
  {
    if d < 10 then 48 + d else 65 + d - 10
  }

  function EncodeByte(b: byte, signedChar: bool): seq<byte> {
    if Escaped(b, signedChar) then [PERCENT, HexUpper(b / 16), HexUpper(b % 16)] else [b]
  }

  function Encode(s: seq<byte>, signedChar: bool): seq<byte> {
    if s == [] then [] else EncodeByte(s[0], signedChar) + Encode(s[1..], signedChar)
  }

  /** Unreserved characters of section 2.3 of RFC 3986: letters, digits, '-', '.', '_', '~'. */
  predicate Unreserved(b: byte) {
    65 <= b <= 90 || 97 <= b <= 122 || 48 <= b <= 57 || b in {45, 46, 95, 126}
  }

  /** Reserved characters of section 2.2 of RFC 3986. */
  predicate Reserved(b: byte) {
    b in {58, 47, 63, 35, 91, 93, 64, 33, 36, 38, 39, 40, 41, 42, 43, 44, 59, 61}
  }

  /** Unreserved and reserved characters go out as they are, and so does DEL;
      every other byte below 128 is escaped. From 128 on it is the sign of char that decides. */
  lemma EscapedIff(b: byte, signedChar: bool)
    ensures b < 128 ==> (EncodeByte(b, signedChar) == [b] <==> Unreserved(b) || Reserved(b) || b == 127)
    ensures b >= 128 ==> (EncodeByte(b, signedChar) == [b] <==> !signedChar)
    ensures EncodeByte(b, signedChar) != [b] ==> |EncodeByte(b, signedChar)| == 3 && EncodeByte(b, signedChar)[0] == 37
  {
  }

  /** A path of unreserved and reserved characters is sent as it is. */
  lemma {:induction false} PlainPathsAreKept(s: seq<byte>, signedChar: bool)
    requires forall i :: 0 <= i < |s| ==> Unreserved(s[i]) || Reserved(s[i])
    ensures Encode(s, signedChar) == s
  {
    if s != [] {
      EscapedIff(s[0], signedChar);
      PlainPathsAreKept(s[1..], signedChar);
    }
  }

  // ---------- the reference decoder ----------

  function Decode(s: seq<byte>): Option<seq<byte>> {
    if s == [] then Some([])
    else if s[0] != PERCENT then Prepend(s[0], Decode(s[1..]))
    else if |s| < 3 || HexValue(s[1]).None? || HexValue(s[2]).None? then None
    else Prepend(HexValue(s[1]).value * 16 + HexValue(s[2]).value, Decode(s[3..]))
  }

  function Prepend(b: byte, r: Option<seq<byte>>): Option<seq<byte>> {
    if r.None? then None else Some([b] + r.value)
  }

  lemma DecodeByte(b: byte, signedChar: bool, t: seq<byte>)
    ensures Decode(EncodeByte(b, signedChar) + t) == Prepend(b, Decode(t))
  {
    var e := EncodeByte(b, signedChar);
    if Escaped(b, signedChar) {
      assert (e + t)[3..] == t;
      assert HexValue(HexUpper(b / 16)) == Some(b / 16) && HexValue(HexUpper(b % 16)) == Some(b % 16);
    } else {
      assert (e + t)[1..] == t;
    }
  }

  lemma {:induction false} EncodeConcat(s: seq<byte>, t: seq<byte>, signedChar: bool)
    ensures Encode(s, signedChar) + Encode(t, signedChar) == Encode(s + t, signedChar)
  {
    if s == [] {
      assert s + t == t;
    } else {
      assert (s + t)[1..] == s[1..] + t;
      EncodeConcat(s[1..], t, signedChar);
    }
  }

  /** Every byte string survives, whatever the sign of char. */
  lemma {:induction false} DecodeEncode(s: seq<byte>, signedChar: bool)
    ensures Decode(Encode(s, signedChar)) == Some(s)
  {
    if s != [] {
      DecodeByte(s[0], signedChar, Encode(s[1..], signedChar));
      DecodeEncode(s[1..], signedChar);
      assert [s[0]] + s[1..] == s;
    }
  }

  /** Nothing that could end the target, or start a new line, is left in it. */
  lemma {:induction false} NoBlanks(s: seq<byte>, signedChar: bool)
    ensures forall i :: 0 <= i < |Encode(s, signedChar)| ==> Encode(s, signedChar)[i] > SPACE
  {
    if s != [] {
      NoBlanks(s[1..], signedChar);
      var e := EncodeByte(s[0], signedChar);
      assert forall i :: 0 <= i < |e| ==> e[i] > SPACE;
    }
  }

  // ---------- the request line ----------

  const LINE_END: seq<byte> := [SPACE, 72, 84, 84, 80, 47, 49, 46, 49, 13, 10]  // " HTTP/1.1" CR LF

  function RequestLine(verb: seq<byte>, prefix: seq<byte>, path: seq<byte>, signedChar: bool): seq<byte> {
    verb + [SPACE] + Encode(prefix, signedChar) + Encode(path, signedChar) + LINE_END
  }

  /** The length of the text before the first space. */
  function Word(s: seq<byte>): (n: nat)
    ensures n <= |s| && forall i :: 0 <= i < n ==> s[i] != SPACE
    ensures n < |s| ==> s[n] == SPACE
  {
    if s == [] || s[0] == SPACE then 0 else 1 + Word(s[1..])
  }

  lemma {:induction false} WordOf(w: seq<byte>, t: seq<byte>)
    requires SPACE !in w && t != [] && t[0] == SPACE
    ensures Word(w + t) == |w|
  {
    if w == [] {
      assert w + t == t;
    } else {
      assert (w + t)[1..] == w[1..] + t;
      WordOf(w[1..], t);
    }
  }

  datatype Parts = Parts(verb: seq<byte>, target: seq<byte>, rest: seq<byte>)

  /** A request line cut at its first two spaces. */
  function SplitAtSpaces(line: seq<byte>): Option<Parts> {
    var n := Word(line);
    if n == |line| then None
    else
      var t := line[n + 1..];
      Some(Parts(line[..n], t[..Word(t)], t[Word(t)..]))
  }

  lemma SplitLine(verb: seq<byte>, target: seq<byte>, tail: seq<byte>)
    requires SPACE !in verb && SPACE !in target && tail != [] && tail[0] == SPACE
    ensures SplitAtSpaces(verb + [SPACE] + target + tail) == Some(Parts(verb, target, tail))
  {
    var line := verb + [SPACE] + target + tail;
    assert line == verb + ([SPACE] + target + tail);
    WordOf(verb, [SPACE] + target + tail);
    var t := target + tail;
    assert line[|verb| + 1..] == t && line[..|verb|] == verb;
    WordOf(target, tail);
    assert t[..|target|] == target && t[|target|..] == tail;
  }

  /** A server that splits the request line at its spaces and decodes the target
      gets the prefix followed by the path. */
  lemma TargetIsRecovered(verb: seq<byte>, prefix: seq<byte>, path: seq<byte>, signedChar: bool)
    requires SPACE !in verb
    ensures var target := Encode(prefix + path, signedChar);
      && SplitAtSpaces(RequestLine(verb, prefix, path, signedChar)) ==
           Some(Parts(verb, target, [32, 72, 84, 84, 80, 47, 49, 46, 49, 13, 10]))  // " HTTP/1.1" CR LF
      && Decode(target) == Some(prefix + path)
  {
    var target := Encode(prefix + path, signedChar);
    EncodeConcat(prefix, path, signedChar);
    NoBlanks(prefix + path, signedChar);
    LineShape(verb, prefix, path, signedChar);
    SplitLine(verb, target, LINE_END);
    DecodeEncode(prefix + path, signedChar);
  }

  lemma LineShape(verb: seq<byte>, prefix: seq<byte>, path: seq<byte>, signedChar: bool)
    ensures RequestLine(verb, prefix, path, signedChar) == verb + [SPACE] + Encode(prefix + path, signedChar) + LINE_END
  {
    EncodeConcat(prefix, path, signedChar);
    var v, a, b := verb + [SPACE], Encode(prefix, signedChar), Encode(path, signedChar);
    assert v + a + b == v + (a + b);
  }

  /** write_url_encoded; the output is only ever appended to. */
  method WriteUrlEncoded(url: seq<byte>, signedChar: bool) returns (out: seq<byte>)
    ensures out == Encode(url, signedChar)
  {
    out := [];
    for i := 0 to |url|
      invariant out == Encode(url[..i], signedChar)
    {
      EncodeStep(url, i, signedChar);
      if Escaped(url[i], signedChar) {
        out := out + [PERCENT, HexUpper(url[i] / 16), HexUpper(url[i] % 16)];
      } else {
        out := out + [url[i]];
      }
    }
    assert url[..|url|] == url;
  }

  lemma EncodeStep(url: seq<byte>, i: nat, signedChar: bool)
    requires i < |url|
    ensures Encode(url[..i + 1], signedChar) == Encode(url[..i], signedChar) + EncodeByte(url[i], signedChar)
  {
    assert url[..i + 1] == url[..i] + [url[i]];
    EncodeConcat(url[..i], [url[i]], signedChar);
    assert Encode([url[i]], signedChar) == EncodeByte(url[i], signedChar) + Encode([], signedChar);
  }
}
