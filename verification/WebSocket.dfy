/**
 WebSocket frames: the frames the client builds and the data frames it takes
 apart, against a decoder for the base framing of sections 5.2 and 5.3 of RFC 6455.
 */
module WebSocket {
  import opened CText
  import opened Options

  const BINARY := 2

  // ---------- bytes ----------

  /** Exclusive or of the lowest `k` bits. */
  function XorBits(a: nat, b: nat, k: nat): (x: nat)
    ensures x < Pow2(k)
  {
    if k == 0 then 0 else 2 * XorBits(a / 2, b / 2, k - 1) + (a + b) % 2
  }

  function Xor(a: byte, b: byte): byte {
    assert Pow2(8) == 256;
    XorBits(a, b, 8)
  }

  function Bit(x: nat, i: nat): nat {
    if i == 0 then x % 2 else Bit(x / 2, i - 1)
  }

  /** Each bit is one exactly if it is one in one of the two. */
  lemma {:induction false} XorIsBitwise(a: nat, b: nat, k: nat, i: nat)
    requires i < k
    ensures Bit(XorBits(a, b, k), i) == 1 <==> Bit(a, i) != Bit(b, i)
  {
    Halves(XorBits(a / 2, b / 2, k - 1), a, b);
    if i > 0 {
      XorIsBitwise(a / 2, b / 2, k - 1, i - 1);
    }
  }

  lemma Halves(h: nat, a: nat, b: nat)
    ensures var x := 2 * h + (a + b) % 2; x / 2 == h && (x % 2 == 1 <==> a % 2 != b % 2)
  {
  }

  /** Section 5.3 of RFC 6455: byte `i` is combined with byte `i` modulo 4 of the key, bit by bit. */
  lemma MaskedMeans(s: seq<byte>, mask: seq<byte>, i: nat, k: nat)
    requires |mask| == 4 && i < |s| && k < 8
    ensures |Masked(s, mask)| == |s|
    ensures Bit(Masked(s, mask)[i], k) == 1 <==> Bit(s[i], k) != Bit(mask[i % 4], k)
  {
    XorIsBitwise(s[i], mask[i % 4], 8, k);
  }

  lemma LowBit(h: nat, a: nat, m: nat)
    ensures var x := 2 * h + (a + m) % 2; x / 2 == h && (x + m) % 2 == a % 2
  {
  }

  lemma {:induction false} XorBitsTwice(a: nat, m: nat, k: nat)
    requires a < Pow2(k)
    ensures XorBits(XorBits(a, m, k), m, k) == a
  {
    if k > 0 {
      XorBitsTwice(a / 2, m / 2, k - 1);
      LowBit(XorBits(a / 2, m / 2, k - 1), a, m);
    }
  }

  lemma {:induction false} XorBitsZero(a: nat, k: nat)
    requires a < Pow2(k)
    ensures XorBits(a, 0, k) == a
  {
    if k > 0 {
      XorBitsZero(a / 2, k - 1);
    }
  }

  function Masked(s: seq<byte>, mask: seq<byte>): seq<byte>
    requires |mask| == 4
  {
    seq(|s|, i requires 0 <= i < |s| => Xor(s[i], mask[i % 4]))
  }

  lemma MaskedTwice(s: seq<byte>, mask: seq<byte>)
    requires |mask| == 4
    ensures Masked(Masked(s, mask), mask) == s
  {
    forall i | 0 <= i < |s| ensures Masked(Masked(s, mask), mask)[i] == s[i] {
      assert Pow2(8) == 256;
      XorBitsTwice(s[i], mask[i % 4], 8);
    }
  }

  /** Network byte order. */
  function BigEndian(n: nat, k: nat): (s: seq<byte>)
    ensures |s| == k
  {
    if k == 0 then [] else BigEndian(n / 256, k - 1) + [n % 256]
  }

  function Bound(k: nat): nat {
    if k == 0 then 1 else 256 * Bound(k - 1)
  }

  lemma {:induction false} NumberOfBigEndian(n: nat, k: nat)
    requires n < Bound(k)
    ensures Number(BigEndian(n, k)) == n
  {
    if k > 0 {
      NumberOfBigEndian(n / 256, k - 1);
      assert BigEndian(n, k)[..k - 1] == BigEndian(n / 256, k - 1);
    }
  }

  // ---------- the reference decoder ----------

  /** How the payload length is written. */
  datatype Form = Short | Extended16 | Extended64

  datatype Frame = Frame(fin: bool, opcode: nat, mask: Option<seq<byte>>, form: Form, payload: seq<byte>)

  datatype Decoded = Decoded(frame: Frame, rest: seq<byte>)

  function FormOf(b: byte): Form {
    if b % 128 == 126 then Extended16 else if b % 128 == 127 then Extended64 else Short
  }

  function LengthBytes(form: Form): nat {
    match form case Short => 0 case Extended16 => 2 case Extended64 => 8
  }

  /** The shortest form a length can be written in. */
  function MinimalForm(n: nat): Form {
    if n < 126 then Short else if n < 0x1_0000 then Extended16 else Extended64
  }

  function HeaderSize(s: seq<byte>): nat
    requires |s| >= 2
  {
    2 + LengthBytes(FormOf(s[1])) + if s[1] >= 128 then 4 else 0
  }

  function PayloadSize(s: seq<byte>): nat
    requires |s| >= 2 && HeaderSize(s) <= |s|
  {
    if FormOf(s[1]) == Short then s[1] % 128 else Number(s[2..2 + LengthBytes(FormOf(s[1]))])
  }

  function Decode(s: seq<byte>): Option<Decoded> {
    if |s| < 2 || HeaderSize(s) > |s| || HeaderSize(s) + PayloadSize(s) > |s| then None
    else
      var h, n := HeaderSize(s), PayloadSize(s);
      var mask := if s[1] >= 128 then Some(s[h - 4..h]) else None;
      var body := s[h..h + n];
      var payload := if mask.Some? then Masked(body, mask.value) else body;
      Some(Decoded(Frame(s[0] >= 128, s[0] % 16, mask, FormOf(s[1]), payload), s[h + n..]))
  }

  // ---------- the writer ----------

  function LengthField(n: nat): seq<byte> {
    match MinimalForm(n)
    case Short => [128 + n % 128]
    case Extended16 => [128 + 126] + BigEndian(n, 2)
    case Extended64 => [128 + 127] + BigEndian(n, 8)
  }

  function ClientFrame(payload: seq<byte>, mask: seq<byte>): seq<byte>
    requires |mask| == 4
  {
    [128 + BINARY] + LengthField(|payload|) + mask + Masked(payload, mask)
  }

  lemma LengthFieldDecodes(n: nat)
    requires n < Bound(8)
    ensures var f := LengthField(n);
      && |f| == 1 + LengthBytes(MinimalForm(n)) && f[0] >= 128 && FormOf(f[0]) == MinimalForm(n)
      && (if MinimalForm(n) == Short then f[0] % 128 else Number(f[1..])) == n
  {
    var f := LengthField(n);
    match MinimalForm(n)
    case Short =>
    case Extended16 =>
      assert Bound(2) == 0x1_0000;
      NumberOfBigEndian(n, 2);
      assert f[1..] == BigEndian(n, 2);
    case Extended64 =>
      NumberOfBigEndian(n, 8);
      assert f[1..] == BigEndian(n, 8);
  }

  lemma {:induction false} NumberBound(s: seq<byte>)
    ensures Number(s) < Bound(|s|)
  {
    if s != [] {
      NumberBound(s[..|s| - 1]);
    }
  }

  /** No frame with a payload of this length gets by with fewer length bytes. */
  lemma FormIsMinimal(s: seq<byte>)
    requires Decode(s).Some?
    ensures var frame := Decode(s).value.frame;
      LengthBytes(MinimalForm(|frame.payload|)) <= LengthBytes(frame.form)
  {
    if FormOf(s[1]) == Extended16 {
      NumberBound(s[2..4]);
      assert Bound(2) == 0x1_0000;
    }
  }

  /** Every frame the client builds is a final masked binary frame with the
      given payload and the shortest length form. */
  lemma ClientFrameDecodes(payload: seq<byte>, mask: seq<byte>, rest: seq<byte>)
    requires |mask| == 4 && |payload| < Bound(8)
    ensures Decode(ClientFrame(payload, mask) + rest) ==
      Some(Decoded(Frame(true, 2, Some(mask), MinimalForm(|payload|), payload), rest))
  {
    LengthFieldDecodes(|payload|);
    HeaderDecodes(LengthField(|payload|), mask, Masked(payload, mask), rest);
    MaskedTwice(payload, mask);
  }

  /** The decoder finds the parts of a masked frame where they were put. */
  lemma HeaderDecodes(f: seq<byte>, mask: seq<byte>, body: seq<byte>, rest: seq<byte>)
    requires f != [] && f[0] >= 128 && |f| == 1 + LengthBytes(FormOf(f[0])) && |mask| == 4
    requires (if FormOf(f[0]) == Short then f[0] % 128 else Number(f[1..])) == |body|
    ensures Decode([128 + BINARY] + f + mask + body + rest) ==
      Some(Decoded(Frame(true, BINARY, Some(mask), FormOf(f[0]), Masked(body, mask)), rest))
  {
    var s := [128 + BINARY] + f + mask + body + rest;
    var h := 1 + |f| + 4;
    assert s[0] == 128 + BINARY && s[1] == f[0];
    SizesDecode(s, f);
    PartsDecode([128 + BINARY] + f, mask, body, rest);
  }

  lemma SizesDecode(s: seq<byte>, f: seq<byte>)
    requires f != [] && f[0] >= 128 && |f| == 1 + LengthBytes(FormOf(f[0]))
    requires |s| >= |f| + 5 && s[1..1 + |f|] == f
    ensures HeaderSize(s) == |f| + 5
    ensures PayloadSize(s) == if FormOf(f[0]) == Short then f[0] % 128 else Number(f[1..])
  {
    assert s[1] == s[1..1 + |f|][0];
    assert s[2..1 + |f|] == s[1..1 + |f|][1..];
  }

  lemma PartsDecode(head: seq<byte>, mask: seq<byte>, body: seq<byte>, rest: seq<byte>)
    ensures var s, h := head + mask + body + rest, |head| + |mask|;
      s[|head|..h] == mask && s[h..h + |body|] == body && s[h + |body|..] == rest
  {
  }

  /** Frame building in tlsuv_websocket_write: the header is written through a
      moving pointer into a buffer of exactly the right size, then the masked payload. */
  method BuildFrame(payload: seq<byte>, mask: seq<byte>) returns (frame: array<byte>)
    requires |mask| == 4 && |payload| < Bound(8)
    ensures fresh(frame) && frame[..] == ClientFrame(payload, mask)
  {
    var len := |payload|;
    var headerLen := 6;
    if len > 125 {
      headerLen := headerLen + 2;
    }
    if len > 0xffff {
      headerLen := headerLen + 6;
    }
    frame := new byte[headerLen + len];
    var ptr := WriteHeader(frame, len, mask);
    ghost var header := frame[..ptr];
    for i := 0 to len
      invariant ptr == headerLen && frame[..ptr] == header
      invariant forall j :: 0 <= j < i ==> frame[ptr + j] == Xor(payload[j], mask[j % 4])
    {
      frame[ptr + i] := Xor(mask[i % 4], payload[i]);
      XorBitsSymmetric(mask[i % 4], payload[i], 8);
    }
    assert frame[ptr..] == Masked(payload, mask);
    assert frame[..] == frame[..ptr] + frame[ptr..];
  }

  lemma {:induction false} XorBitsSymmetric(a: nat, b: nat, k: nat)
    ensures XorBits(a, b, k) == XorBits(b, a, k)
  {
    if k > 0 {
      XorBitsSymmetric(a / 2, b / 2, k - 1);
    }
  }

  method WriteHeader(frame: array<byte>, len: nat, mask: seq<byte>) returns (ptr: nat)
    requires |mask| == 4 && len < Bound(8) && frame.Length >= 5 + |LengthField(len)|
    modifies frame
    ensures ptr == 5 + |LengthField(len)| && frame[..ptr] == [128 + BINARY] + LengthField(len) + mask
  {
    ptr := WriteLength(frame, len);
    Memcpy(frame, ptr, mask);
    assert frame[..ptr + 4] == frame[..ptr] + frame[ptr..ptr + 4];
    ptr := ptr + 4;
  }

  method WriteLength(frame: array<byte>, len: nat) returns (ptr: nat)
    requires len < Bound(8) && frame.Length >= 1 + |LengthField(len)|
    modifies frame
    ensures ptr == 1 + |LengthField(len)| && frame[..ptr] == [128 + BINARY] + LengthField(len)
  {
    frame[0] := 128 + BINARY;
    ptr := 1;
    if len < 126 {
      frame[ptr] := 128 + len;
      ptr := ptr + 1;
    } else if len <= 0xffff {
      frame[ptr] := 128 + 126;
      ptr := ptr + 1;
      Memcpy(frame, 2, BigEndian(len, 2));
      ptr := ptr + 2;
    } else {
      frame[ptr] := 128 + 127;
      ptr := ptr + 1;
      Memcpy(frame, 2, BigEndian(len, 8));
      ptr := ptr + 8;
    }
  }

  lemma SliceOfSlice(t: seq<byte>, at: nat, s: seq<byte>, i: nat, j: nat)
    requires at + |s| <= |t| && s == t[at..at + |s|] && i <= j <= |s|
    ensures t[at + i..at + j] == s[i..j]
  {
    forall k | 0 <= k < j - i ensures t[at + i..at + j][k] == s[i..j][k] {
      assert s[i + k] == t[at..at + |s|][i + k];
    }
  }

  /** The header of an unmasked frame: where the payload starts and how long it is. */
  method ReadHeader(buf: array<byte>, frame: nat, ghost s: seq<byte>) returns (dp: nat, len: nat)
    requires frame + |s| <= buf.Length && s == buf[..][frame..frame + |s|]
    requires |s| >= 2 && s[1] < 128 && HeaderSize(s) <= |s|
    ensures dp == frame + HeaderSize(s) && len == PayloadSize(s)
  {
    dp := frame + 2;
    len := buf[frame + 1] % 128;
    assert s[1] == buf[frame + 1];
    if len == 126 {
      SliceOfSlice(buf[..], frame, s, 2, 4);
      len := Number(buf[..][frame + 2..frame + 4]);
      dp := dp + 2;
    } else if len == 127 {
      SliceOfSlice(buf[..], frame, s, 2, 10);
      len := Number(buf[..][frame + 2..frame + 10]);
      dp := dp + 8;
    }
  }

  /** The loop that unmasks the payload into the front of the buffer it is read
      from. The mask of an unmasked frame is zero. */
  method UnmaskToFront(buf: array<byte>, dp: nat, len: nat, mask: seq<byte>)
    requires dp + len <= buf.Length && |mask| == 4
    modifies buf
    ensures buf[..len] == Masked(old(buf[dp..dp + len]), mask) && buf[len..] == old(buf[len..])
  {
    ghost var was, unmasked := buf[..], Masked(buf[dp..dp + len], mask);
    for i := 0 to len
      invariant forall j :: 0 <= j < i ==> buf[j] == unmasked[j]
      invariant forall j :: i <= j < buf.Length ==> buf[j] == was[j]
    {
      buf[i] := Xor(buf[dp + i], mask[i % 4]);
    }
  }

  lemma MaskedByZero(s: seq<byte>)
    ensures Masked(s, [0, 0, 0, 0]) == s
  {
    forall i | 0 <= i < |s| ensures Masked(s, [0, 0, 0, 0])[i] == s[i] {
      assert Pow2(8) == 256;
      XorBitsZero(s[i], 8);
    }
  }

  /** ws_read_cb for an unmasked data frame that starts at `processed` in the
      read buffer: the payload ends up at the front of the same buffer. */
  method DeliverData(buf: array<byte>, processed: nat, nread: nat) returns (len: nat)
    requires processed < nread <= buf.Length
    requires var d := Decode(buf[processed..nread]);
      d.Some? && d.value.frame.mask.None? && d.value.frame.opcode in {1, 2}
    modifies buf
    ensures var payload := old(Decode(buf[processed..nread])).value.frame.payload;
      len == |payload| && buf[..len] == payload
    ensures buf[len..] == old(buf[len..])
  {
    ghost var s := buf[processed..nread];
    var dp;
    dp, len := ReadHeader(buf, processed, s);
    ghost var payload := buf[..][dp..dp + len];
    SliceOfSlice(buf[..], processed, s, dp - processed, dp - processed + len);
    UnmaskToFront(buf, dp, len, [0, 0, 0, 0]);
    MaskedByZero(payload);
  }
}
