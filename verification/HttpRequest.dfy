/**
 A request's body on its way out: how the length is announced, which pieces are
 accepted, and what reaches the wire.
 */
module HttpRequest {
  import opened CText
  import opened Options
  import opened Headers
  import opened Chunked
  import S = HttpScheduler

  /** The request method, as far as it matters here. */
  datatype Verb = Post | Put | Patch | Other(name: string)

  /** A piece that was written, and in which coding. */
  datatype Sent = Sent(chunked: bool, data: seq<byte>)

  function Datas(sent: seq<Sent>): seq<seq<byte>> {
    seq(|sent|, i requires 0 <= i < |sent| => sent[i].data)
  }

  ghost predicate SentSized(sent: seq<Sent>) {
    forall i :: 0 <= i < |sent| ==> |sent[i].data| < 0x1_0000_0000
  }

  function WireOf(sent: seq<Sent>): seq<byte>
    requires SentSized(sent)
  {
    if sent == [] then []
    else
      var x := sent[|sent| - 1];
      WireOf(sent[..|sent| - 1]) + if x.chunked then Piece(x.data) else x.data
  }

  /** Comparing a size_t with a ssize_t compares unsigned numbers. */
  function Unsigned(n: int): int {
    if n < 0 then n + 0x1_0000_0000_0000_0000 else n
  }

  lemma {:induction false} ConcatAppend(items: seq<seq<byte>>, x: seq<byte>)
    ensures Concat(items + [x]) == Concat(items) + x
  {
    if items == [] {
      assert Concat([x][1..]) == [];
    } else {
      assert (items + [x])[1..] == items[1..] + [x];
      ConcatAppend(items[1..], x);
    }
  }

  lemma {:induction false} WireAppend(items: seq<seq<byte>>, x: seq<byte>)
    requires Sized(items) && |x| < 0x1_0000_0000
    ensures Wire(items + [x]) == Wire(items) + Piece(x)
  {
    if items == [] {
      assert Wire([x][1..]) == [];
    } else {
      assert (items + [x])[1..] == items[1..] + [x];
      WireAppend(items[1..], x);
    }
  }

  lemma DatasSplit(sent: seq<Sent>)
    requires sent != []
    ensures Datas(sent) == Datas(sent[..|sent| - 1]) + [sent[|sent| - 1].data]
  {
  }

  lemma {:induction false} WireOfChunked(sent: seq<Sent>)
    requires SentSized(sent) && forall i :: 0 <= i < |sent| ==> sent[i].chunked
    ensures Sized(Datas(sent)) && WireOf(sent) == Wire(Datas(sent))
  {
    if sent != [] {
      var init, x := sent[..|sent| - 1], sent[|sent| - 1];
      WireOfChunked(init);
      WireAppend(Datas(init), x.data);
      DatasSplit(sent);
    }
  }

  lemma {:induction false} WireOfPlain(sent: seq<Sent>)
    requires SentSized(sent) && forall i :: 0 <= i < |sent| ==> !sent[i].chunked
    ensures WireOf(sent) == Concat(Datas(sent))
  {
    if sent != [] {
      var init, x := sent[..|sent| - 1], sent[|sent| - 1];
      WireOfPlain(init);
      DatasSplit(sent);
      ConcatAppend(Datas(init), x.data);
    }
  }

  /** The loop over the queued pieces that adds up their lengths. */
  method TotalLength(body: seq<seq<byte>>) returns (n: nat)
    ensures n == |Concat(body)|
  {
    n := 0;
    for i := 0 to |body|
      invariant n == |Concat(body[..i])|
    {
      assert body[..i + 1] == body[..i] + [body[i]];
      ConcatAppend(body[..i], body[i]);
      n := n + |body[i]|;
    }
    assert body[..|body|] == body;
  }

  // ---------- framing ----------

  /** The part of a request that decides how its body is framed. */
  datatype Framing = Framing(
    verb: Verb,
    state: S.Phase,
    chunked: bool,           // req_chunked
    bodySize: int,           // req_body_size; -1 while unknown
    bodySent: nat,           // body_sent_size
    body: seq<seq<byte>>,    // req_body, the queued pieces
    sent: seq<Sent>,         // history
    wire: seq<byte>          // everything send_body wrote
  )

  ghost predicate Framed(q: Framing) {
    && !(q.chunked && q.bodySize != -1)
    && Sized(q.body) && SentSized(q.sent)
    && q.wire == WireOf(q.sent)
    && q.bodySent == |Concat(Datas(q.sent))|
    && (q.state == S.Created ==> q.sent == [])
  }

  /** All pieces accepted so far, in order. */
  function Queued(q: Framing): seq<seq<byte>> {
    Datas(q.sent) + q.body
  }

  predicate AcceptsData(q: Framing) {
    q.verb in {Post, Put} && q.state in {S.Created, S.HeadersSent}
  }

  /** http_req_write announces the length of what is queued when nothing else frames the body. */
  predicate Computes(q: Framing) {
    q.verb in {Post, Put, Patch} && !q.chunked && q.bodySize == -1
  }

  function Announced(q: Framing): Framing {
    if Computes(q) then q.(bodySize := |Concat(q.body)|) else q
  }

  /** Whether the request counts as sent once `b` brings the total to `total`. */
  predicate Ends(q: Framing, b: seq<byte>, total: nat) {
    if q.chunked then b == [] else total >= Unsigned(q.bodySize)
  }

  /** One turn of send_body's loop. */
  function SentOne(q: Framing): Framing
    requires q.body != [] && |q.body[0]| < 0x1_0000_0000
  {
    var b := q.body[0];
    var total := q.bodySent + |b|;
    q.(body := q.body[1..], bodySent := total, sent := q.sent + [Sent(q.chunked, b)],
       wire := q.wire + (if q.chunked then Piece(b) else b),
       state := if Ends(q, b, total) then S.BodySent else q.state)
  }

  function SentAll(q: Framing): Framing
    requires Sized(q.body)
    decreases |q.body|
  {
    if q.body == [] then q else SentAll(SentOne(q))
  }

  /** process_requests on an established connection: head first, then the queued body. */
  function Processed(q: Framing): Framing
    requires Sized(q.body)
  {
    var q1 := if q.state == S.Created then Announced(q).(state := S.HeadersSent) else q;
    if q1.state == S.HeadersSent then SentAll(q1) else q1
  }

  lemma SentOneValid(q: Framing)
    requires Framed(q) && q.body != [] && q.state != S.Created
    ensures Framed(SentOne(q)) && Queued(SentOne(q)) == Queued(q)
  {
    var r := SentOne(q);
    assert r.sent[..|r.sent| - 1] == q.sent && Datas(r.sent) == Datas(q.sent) + [q.body[0]];
    ConcatAppend(Datas(q.sent), q.body[0]);
  }

  /** send_body empties the queue and leaves the framing alone. */
  lemma {:induction false} SentAllValid(q: Framing)
    requires Framed(q) && q.state != S.Created
    ensures var r := SentAll(q);
      && Framed(r) && r.body == [] && Queued(r) == Queued(q)
      && r.chunked == q.chunked && r.bodySize == q.bodySize && r.verb == q.verb
    ensures q.body == [] ==> SentAll(q) == q
    ensures q.body != [] && !q.chunked && SentAll(q).bodySent >= Unsigned(q.bodySize) ==> SentAll(q).state == S.BodySent
    ensures SentAll(q).bodySent >= q.bodySent
    ensures q.state == S.BodySent ==> SentAll(q).state == S.BodySent
    ensures |q.sent| <= |SentAll(q).sent| && forall i :: 0 <= i < |SentAll(q).sent| ==>
      SentAll(q).sent[i].chunked == if i < |q.sent| then q.sent[i].chunked else q.chunked
    decreases |q.body|
  {
    if q.body != [] {
      SentOneValid(q);
      SentAllValid(SentOne(q));
    }
  }

  // ---------- sequences of calls ----------

  datatype Op =
    | Chunk                     // header Transfer-Encoding: chunked
    | Length(value: int)        // header Content-Length
    | Data(data: seq<byte>)
    | End
    | Process

  /** Whether a call is refused with UV_EINVAL. */
  predicate Refused(q: Framing, op: Op) {
    match op
    case Chunk => q.bodySize != -1
    case Length(_) => q.chunked
    case Data(_) => !AcceptsData(q)
    case _ => false
  }

  function Apply(q: Framing, op: Op): Framing
    requires Sized(q.body)
  {
    if Refused(q, op) then q
    else
      match op
      case Chunk => q.(chunked := true)
      case Length(v) => q.(bodySize := v, chunked := false)
      case Data(b) => q.(body := q.body + [b])
      case End => if q.chunked then q.(body := q.body + [[]]) else q
      case Process => Processed(q)
  }

  ghost predicate Runs(q: Framing, ops: seq<Op>, r: Framing)
    decreases |ops|
  {
    if ops == [] then q == r
    else
      && Sized(q.body) && (ops[0].Data? ==> |ops[0].data| < 0x1_0000_0000)
      && Runs(Apply(q, ops[0]), ops[1..], r)
  }

  lemma ProcessedValid(q: Framing)
    requires Framed(q)
    ensures Framed(Processed(q)) && Queued(Processed(q)) == Queued(q)
  {
    var q1 := if q.state == S.Created then Announced(q).(state := S.HeadersSent) else q;
    if q1.state == S.HeadersSent {
      SentAllValid(q1);
    }
  }

  lemma ApplyValid(q: Framing, op: Op)
    requires Framed(q) && (op.Data? ==> |op.data| < 0x1_0000_0000)
    ensures Framed(Apply(q, op)) && Queued(Apply(q, op)) == Queued(q) + Adds(q, op)
  {
    if op.Process? {
      ProcessedValid(q);
    }
  }

  /** What a call adds to the body. */
  function Adds(q: Framing, op: Op): seq<seq<byte>> {
    if op.Data? && !Refused(q, op) then [op.data] else if op.End? && q.chunked then [[]] else []
  }

  lemma {:induction false} RunValid(q: Framing, ops: seq<Op>, r: Framing)
    requires Framed(q) && Runs(q, ops, r)
    ensures Framed(r)
    decreases |ops|
  {
    if ops != [] {
      ApplyValid(q, ops[0]);
      RunValid(Apply(q, ops[0]), ops[1..], r);
    }
  }

  function NewRequest(verb: Verb): Framing {
    Framing(verb, S.Created, false, -1, 0, [], [], [])
  }

  // ---------- what every sequence of calls promises ----------

  /** Chunked coding and a known length are never both in force. */
  lemma NeverBothFramings(verb: Verb, ops: seq<Op>, q: Framing)
    requires Runs(NewRequest(verb), ops, q)
    ensures !(q.chunked && q.bodySize != -1)
  {
    RunValid(NewRequest(verb), ops, q);
  }

  // ---------- one coding for the whole body ----------

  /** Everything sent so far was sent in the coding now in force. */
  ghost predicate Uniform(q: Framing) {
    forall i :: 0 <= i < |q.sent| ==> q.sent[i].chunked == q.chunked
  }

  /** The call makes a request chunked that has already sent plain bytes. */
  predicate SwitchesLate(q: Framing, op: Op) {
    op.Chunk? && !Refused(q, op) && !q.chunked && q.sent != []
  }

  /** Exactly one kind of call mixes codings. */
  lemma UniformBreaksIff(q: Framing, op: Op)
    requires Framed(q) && Uniform(q)
    ensures Uniform(Apply(q, op)) <==> !SwitchesLate(q, op)
  {
    if op.Process? {
      var q1 := if q.state == S.Created then Announced(q).(state := S.HeadersSent) else q;
      if q1.state == S.HeadersSent {
        SentAllValid(q1);
      }
    } else if SwitchesLate(q, op) {
      assert !q.sent[0].chunked && Apply(q, op).sent == q.sent;
    }
  }

  /** A sequence of calls none of which switches late. */
  ghost predicate CleanRuns(q: Framing, ops: seq<Op>, r: Framing)
    decreases |ops|
  {
    if ops == [] then q == r
    else
      && Sized(q.body) && (ops[0].Data? ==> |ops[0].data| < 0x1_0000_0000) && !SwitchesLate(q, ops[0])
      && CleanRuns(Apply(q, ops[0]), ops[1..], r)
  }

  lemma {:induction false} CleanIsUniform(q: Framing, ops: seq<Op>, r: Framing)
    requires Framed(q) && Uniform(q) && CleanRuns(q, ops, r)
    ensures Framed(r) && Uniform(r)
    decreases |ops|
  {
    if ops != [] {
      ApplyValid(q, ops[0]);
      UniformBreaksIff(q, ops[0]);
      CleanIsUniform(Apply(q, ops[0]), ops[1..], r);
    }
  }

  /** Whatever calls are made, in whatever order, and in whatever rounds the
      queue is drained: unless one switches late, the bytes a chunked request has
      written decode to the accepted pieces exactly if these are proper. */
  lemma ChunkedBodyDecodes(verb: Verb, ops: seq<Op>, q: Framing)
    requires CleanRuns(NewRequest(verb), ops, q) && q.chunked && q.body == []
    ensures Decode(q.wire) == Some(Decoded(Concat(Queued(q)), [])) <==> Proper(Queued(q))
  {
    CleanIsUniform(NewRequest(verb), ops, q);
    WireOfChunked(q.sent);
    assert Queued(q) == Datas(q.sent);
    DecodesIffProper(Queued(q));
  }

  /** While the size is known or nothing is sent, a late switch is refused. */
  ghost predicate Settled(q: Framing) {
    && (q.verb in {Post, Put} && q.state != S.Created && !q.chunked ==> q.bodySize != -1)
    && (q.verb !in {Post, Put} && !q.chunked ==> q.body == [] && q.sent == [])
  }

  lemma SettledStep(q: Framing, op: Op)
    requires Framed(q) && Settled(q) && op != Length(-1)
    ensures Settled(Apply(q, op)) && !SwitchesLate(q, op)
  {
    if op.Process? {
      var q1 := if q.state == S.Created then Announced(q).(state := S.HeadersSent) else q;
      if q1.state == S.HeadersSent {
        SentAllValid(q1);
      }
    }
  }

  lemma {:induction false} SettledIsClean(q: Framing, ops: seq<Op>, r: Framing)
    requires Framed(q) && Settled(q) && Runs(q, ops, r) && Length(-1) !in ops
    ensures CleanRuns(q, ops, r)
    decreases |ops|
  {
    if ops != [] {
      ApplyValid(q, ops[0]);
      SettledStep(q, ops[0]);
      SettledIsClean(Apply(q, ops[0]), ops[1..], r);
    }
  }

  /** No call switches late as long as no Content-Length header reads as -1,
      the value that stands for an unknown size. */
  lemma NoSentinelIsClean(verb: Verb, ops: seq<Op>, q: Framing)
    requires Runs(NewRequest(verb), ops, q) && Length(-1) !in ops
    ensures CleanRuns(NewRequest(verb), ops, q)
  {
    SettledIsClean(NewRequest(verb), ops, q);
  }

  const SENTINEL_CALLS: seq<Op> := [Length(10), Op.Data([90]), Process, Length(-1), Chunk, End, Process]

  /** A Content-Length of -1 undoes the one announced, and chunked coding is then
      accepted behind plain bytes: "Z" and an end marker, which is no chunked body. */
  lemma SentinelMixesCodings(q: Framing)
    requires q == Framing(Post, S.BodySent, true, -1, 1, [], [Sent(false, [90]), Sent(true, [])], [90] + Piece([]))
    ensures Runs(NewRequest(Post), SENTINEL_CALLS, q)
    ensures Proper(Queued(q)) && Decode(q.wire) == None
  {
    var sent := [Sent(false, [90])];
    var q2 := NewRequest(Post).(bodySize := 10, body := [[90]]);
    var q3 := NewRequest(Post).(bodySize := 10, state := S.HeadersSent, bodySent := 1, sent := sent, wire := [90]);
    var q6 := q3.(bodySize := -1, chunked := true, body := [[]]);
    SentinelFirst(q2, q3);
    SentinelLast(q6, q);
    SentinelRun(q2, q3, q6, q);
    SentinelWire(q);
  }

  lemma SentinelFirst(q: Framing, r: Framing)
    requires q == NewRequest(Post).(bodySize := 10, body := [[90]])
    requires r == q.(body := [], state := S.HeadersSent, bodySent := 1, sent := [Sent(false, [90])], wire := [90])
    ensures Processed(q) == r
  {
    OneLeft(q.(state := S.HeadersSent), r);
  }

  lemma SentinelLast(q: Framing, r: Framing)
    requires q.state == S.HeadersSent && q.chunked && q.body == [[]]
    requires r == q.(body := [], state := S.BodySent, sent := q.sent + [Sent(true, [])], wire := q.wire + Piece([]))
    ensures Processed(q) == r
  {
    OneLeft(q, r);
  }

  lemma SentinelWire(q: Framing)
    requires q.sent == [Sent(false, [90]), Sent(true, [])] && q.body == [] && q.wire == [90] + Piece([])
    ensures Proper(Queued(q)) && Decode(q.wire) == None
  {
    assert Queued(q) == [[90], []];
    assert HexValue(q.wire[0]).None?;
  }

  /** The header value that does it. */
  lemma MinusOneIsSentinel()
    ensures StrToL("-1").value == -1
  {
    assert Accumulate("-1", 1, 0) == Accumulate("-1", 2, 1) == Long(1, 2);
  }

  lemma OneLeft(q: Framing, r: Framing)
    requires |q.body| == 1 && |q.body[0]| < 0x1_0000_0000 && r == SentOne(q)
    ensures SentAll(q) == r
  {
    assert q.body[1..] == [];
  }

  lemma RunsCons(q: Framing, op: Op, q1: Framing, ops: seq<Op>, r: Framing)
    requires Sized(q.body) && (op.Data? ==> |op.data| < 0x1_0000_0000) && q1 == Apply(q, op) && Runs(q1, ops, r)
    ensures Runs(q, [op] + ops, r)
  {
    assert ([op] + ops)[1..] == ops;
  }

  lemma SentinelRun(q2: Framing, q3: Framing, q6: Framing, q: Framing)
    requires q2 == NewRequest(Post).(bodySize := 10, body := [[90]]) && Processed(q2) == q3
    requires q3.bodySize == 10 && !q3.chunked && q3.body == []
    requires q6 == q3.(bodySize := -1, chunked := true, body := [[]]) && Processed(q6) == q
    ensures Runs(NewRequest(Post), SENTINEL_CALLS, q)
  {
    var ops := SENTINEL_CALLS;
    var q1, q4 := NewRequest(Post).(bodySize := 10), q3.(bodySize := -1);
    var q5 := q4.(chunked := true);
    assert q5.body + [[]] == [[]] && q1.body + [[90]] == [[90]];
    RunsCons(q6, Process, q, [], q);
    RunsCons(q5, End, q6, [Process] + [], q);
    RunsCons(q4, Chunk, q5, [End] + ([Process] + []), q);
    var late := [Chunk] + ([End] + ([Process] + []));
    RunsCons(q3, Length(-1), q4, late, q);
    RunsCons(q2, Process, q3, [Length(-1)] + late, q);
    RunsCons(q1, Op.Data([90]), q2, [Process] + ([Length(-1)] + late), q);
    RunsCons(NewRequest(Post), Length(10), q1, [Op.Data([90])] + ([Process] + ([Length(-1)] + late)), q);
    assert ops == [Length(10)] + ([Op.Data([90])] + ([Process] + ([Length(-1)] + late)));
  }

  /** When the length is computed from the queue, it is the number of bytes
      sent in that step, and later data is refused exactly if something was queued. */
  lemma ComputedLengthIsExact(q: Framing)
    requires Framed(q) && q.state == S.Created
    requires q.verb in {Post, Put, Patch} && !q.chunked && q.bodySize == -1
    ensures var r := Processed(q);
      && r.bodySize == |r.wire| && r.wire == Concat(q.body) && r.body == []
      && (r.state == S.BodySent <==> q.body != [])
      && (q.verb in {Post, Put} ==> (AcceptsData(r) <==> q.body == []))
  {
    var q1 := Announced(q).(state := S.HeadersSent);
    SentAllValid(q1);
    var r := SentAll(q1);
    WireOfPlain(r.sent);
    assert Queued(r) == Datas(r.sent) && Queued(q) == q.body;
  }

  /** In every other case no length is announced. */
  lemma NoOtherLength(q: Framing)
    requires Framed(q) && !(q.state == S.Created && q.verb in {Post, Put, Patch} && !q.chunked && q.bodySize == -1)
    ensures Processed(q).bodySize == q.bodySize && Processed(q).chunked == q.chunked
  {
    var q1 := if q.state == S.Created then Announced(q).(state := S.HeadersSent) else q;
    if q1.state == S.HeadersSent {
      SentAllValid(q1);
    }
  }

  /** With nothing queued the announced length is 0, and what is sent next is not covered by it. */
  lemma DataAfterEmptyLength(q: Framing)
    requires q == Processed(Apply(Processed(NewRequest(Post)), Op.Data([90])))
    ensures Runs(NewRequest(Post), [Process, Op.Data([90]), Process], q)
    ensures q.bodySize == 0 && q.wire == [90]
  {
    var q1 := NewRequest(Post).(bodySize := 0, state := S.HeadersSent);
    assert Processed(NewRequest(Post)) == q1;
    var q2 := Apply(q1, Op.Data([90]));
    assert q2.body == [[90]];
    OneLeft(q2, SentOne(q2));
    RunsCons(q2, Process, q, [], q);
    RunsCons(q1, Op.Data([90]), q2, [Process] + [], q);
    RunsCons(NewRequest(Post), Process, q1, [Op.Data([90])] + ([Process] + []), q);
    assert [Process, Op.Data([90]), Process] == [Process] + ([Op.Data([90])] + ([Process] + []));
  }

  // ---------- a length the caller announced ----------

  lemma {:induction false} EndsOnlyAtSize(q: Framing)
    requires Framed(q) && q.state == S.HeadersSent && !q.chunked && SentAll(q).state != S.HeadersSent
    ensures SentAll(q).state == S.BodySent && q.body != [] && SentAll(q).bodySent >= Unsigned(q.bodySize)
    decreases |q.body|
  {
    if q.body != [] {
      var r := SentOne(q);
      SentOneValid(q);
      SentAllValid(r);
      if r.state == S.HeadersSent {
        EndsOnlyAtSize(r);
      }
    }
  }

  /** One round of sending under a size that is not computed: everything queued
      goes out, the request counts as sent exactly if something was queued and the
      pieces so far reach the size, and it is then as long as announced exactly if they
      add up to it. A negative size compares as a 64-bit unsigned number. */
  lemma AnnouncedSizeIsMetIff(q: Framing)
    requires Framed(q) && Uniform(q) && !q.chunked && q.state in {S.Created, S.HeadersSent}
    requires q.state == S.Created && q.verb in {Post, Put, Patch} ==> q.bodySize != -1
    ensures var r, total := Processed(q), |Concat(Queued(q))|;
      && r.wire == Concat(Queued(q)) && r.bodySize == q.bodySize
      && (q.bodySize >= 0 ==> (r.state == S.BodySent <==> q.body != [] && total >= q.bodySize))
      && (q.bodySize < 0 ==>
            (r.state == S.BodySent <==> q.body != [] && total >= q.bodySize + 0x1_0000_0000_0000_0000))
      && (|r.wire| == r.bodySize <==> total == q.bodySize)
  {
    var q1 := q.(state := S.HeadersSent);
    assert Processed(q) == SentAll(q1) && Queued(q1) == Queued(q);
    AllGoesOut(q1);
    SentExactlyIf(q1);
  }

  lemma AllGoesOut(q: Framing)
    requires Framed(q) && Uniform(q) && !q.chunked && q.state == S.HeadersSent
    ensures var r := SentAll(q);
      r.wire == Concat(Queued(q)) && r.bodySent == |Concat(Queued(q))| && r.bodySize == q.bodySize
  {
    SentAllValid(q);
    var r := SentAll(q);
    WireOfPlain(r.sent);
    assert Queued(r) == Datas(r.sent);
  }

  lemma SentExactlyIf(q: Framing)
    requires Framed(q) && !q.chunked && q.state == S.HeadersSent
    ensures var r := SentAll(q); r.state == S.BodySent <==> q.body != [] && r.bodySent >= Unsigned(q.bodySize)
  {
    SentAllValid(q);
    if SentAll(q).state != S.HeadersSent {
      EndsOnlyAtSize(q);
    }
  }

  /** Once a request counts as sent, no call adds to what was written. */
  lemma SentIsFinal(q: Framing, op: Op)
    requires Framed(q) && q.state == S.BodySent
    ensures Apply(q, op).wire == q.wire && Apply(q, op).state == S.BodySent && (op.Data? ==> Refused(q, op))
  {
  }

  /** Two bytes go out under an announced length of one; the source only warns. */
  lemma AnnouncedSizeIsExceeded(q: Framing)
    requires q == NewRequest(Post).(bodySize := 1, body := [[90, 90]])
    ensures Runs(NewRequest(Post), [Length(1), Op.Data([90, 90])], q)
    ensures Processed(q).state == S.BodySent && |Processed(q).wire| == 2
  {
    var q1 := NewRequest(Post).(bodySize := 1);
    assert q1.body + [[90, 90]] == [[90, 90]];
    RunsCons(q1, Op.Data([90, 90]), q, [], q);
    RunsCons(NewRequest(Post), Length(1), q1, [Op.Data([90, 90])] + [], q);
    assert [Length(1), Op.Data([90, 90])] == [Length(1)] + ([Op.Data([90, 90])] + []);
    OneLeft(q.(state := S.HeadersSent), SentOne(q.(state := S.HeadersSent)));
  }

  // ---------- the object ----------

  function WithLength(l: seq<Header>, n: nat): (r: seq<Header>)
    ensures Get(r, "Content-Length") == Some(DecText(n))
    ensures StrToL(DecText(n)).value == Clamp(n)
  {
    SetThenGet(l, "Content-Length", DecText(n));
    assert DecText(n) + "" == DecText(n);
    StrToLOfDecText(n, "");
    Set(l, "Content-Length", Some(DecText(n)))
  }

  lemma ContentLengthName(name: string)
    ensures Lower(name) == "content-length" <==> SameText(name, "Content-Length")
  {
    SpelledAs(name, "Content-Length", "content-length");
  }

  lemma TransferEncodingName(name: string)
    ensures Lower(name) == "transfer-encoding" <==> SameText(name, "Transfer-Encoding")
  {
    SpelledAs(name, "Transfer-Encoding", "transfer-encoding");
  }

  class Request {
    const verb: Verb
    var state: S.Phase
    var chunked: bool
    var bodySize: int
    var bodySent: nat
    var body: seq<seq<byte>>
    var headers: seq<Header>
    ghost var sent: seq<Sent>
    ghost var wire: seq<byte>

    ghost function View(): Framing
      reads this
    {
      Framing(verb, state, chunked, bodySize, bodySent, body, sent, wire)
    }

    ghost predicate Valid()
      reads this
    {
      Framed(View())
    }

    constructor (verb: Verb, headers: seq<Header>)
      ensures Valid() && View() == NewRequest(verb) && this.headers == headers
      ensures this.verb == verb && state == S.Created && !chunked && bodySize == -1 && body == [] && wire == []
    {
      this.verb := verb;
      state, chunked, bodySize, bodySent, body := S.Created, false, -1, 0, [];
      this.headers := headers;
      sent, wire := [], [];
    }

    /** tlsuv_http_req_header. */
    method SetHeader(name: string, value: Option<string>) returns (rc: int)
      // the two framing headers are compared without a check for NULL
      requires SameText(name, "Transfer-Encoding") || SameText(name, "Content-Length") ==> value.Some?
      requires Valid()
      modifies this`chunked, this`bodySize, this`headers
      ensures Valid() && !(chunked && bodySize != -1)
      ensures SameText(name, "Content-Length") ==>
        if old(chunked) then rc == UV_EINVAL && View() == old(View())
        else rc == 0 && View() == old(View()).(bodySize := StrToL(value.value).value)
      ensures SameText(name, "Transfer-Encoding") && value == Some("chunked") ==>
        if old(bodySize) != -1 then rc == UV_EINVAL && View() == old(View())
        else rc == 0 && View() == old(View()).(chunked := true)
      ensures !SameText(name, "Content-Length") ==>
        !(SameText(name, "Transfer-Encoding") && value == Some("chunked")) ==>
        rc == 0 && View() == old(View())
      ensures var q := old(View());
        match HeaderOp(name, value)
        case None => rc == 0 && View() == q
        case Some(op) => rc == (if Refused(q, op) then UV_EINVAL else 0) && View() == Apply(q, op)
      ensures headers == if rc == 0 then Set(old(headers), name, value) else old(headers)
    {
      ContentLengthName(name);
      TransferEncodingName(name);
      if Lower(name) == "transfer-encoding" && value == Some("chunked") {
        if bodySize != -1 {
          return UV_EINVAL;
        }
        chunked := true;
      }
      if Lower(name) == "content-length" {
        if chunked {
          return UV_EINVAL;
        }
        bodySize := StrToL(value.value).value;
        chunked := false;
      }
      headers := Set(headers, name, value);
      rc := 0;
    }

    /** tlsuv_http_req_data: the piece becomes the last one of the body, or is
        refused for the wrong method or too late. */
    method Data(data: seq<byte>) returns (rc: int)
      requires Valid() && |data| < 0x1_0000_0000
      modifies this`body
      ensures Valid() && View() == Apply(old(View()), Op.Data(data))
      ensures rc == if verb in {Post, Put} && state in {S.Created, S.HeadersSent} then 0 else UV_EINVAL
      ensures Queued(View()) == old(Queued(View())) + if rc == 0 then [data] else []
    {
      ghost var q := View();
      ApplyValid(q, Op.Data(data));
      if verb != Post && verb != Put {
        return UV_EINVAL;
      }
      if state != S.Created && state != S.HeadersSent {
        return UV_EINVAL;
      }
      body := body + [data];
      rc := 0;
    }

    /** tlsuv_http_req_end: only a chunked body has an end marker. */
    method End()
      requires Valid()
      modifies this`body
      ensures Valid() && View() == Apply(old(View()), Op.End)
      ensures Queued(View()) == old(Queued(View())) + if chunked then [[]] else []
    {
      ghost var q := View();
      ApplyValid(q, Op.End);
      if chunked {
        body := body + [[]];
      }
    }

    /** process_requests on an established connection: no piece is lost,
        repeated or reordered, and the wire holds what was sent in its coding. */
    method ProcessRequest()
      requires Valid()
      modifies this
      ensures Valid() && View() == Apply(old(View()), Op.Process)
      ensures Queued(View()) == old(Queued(View())) && wire == WireOf(sent)
      ensures old(state) in {S.Created, S.HeadersSent} ==> body == []
      ensures headers ==
        if old(state == S.Created && !chunked && bodySize == -1) && verb in {Post, Put, Patch}
        then WithLength(old(headers), |Concat(old(body))|) else old(headers)
    {
      ghost var q := View();
      ApplyValid(q, Op.Process);
      if state == S.Created {
        AnnounceLength();
        state := S.HeadersSent;
      }
      if state == S.HeadersSent {
        ghost var q1 := View();
        SentAllValid(q1);
        SendBody();
      }
    }

    /** http_req_write's part in framing. */
    method AnnounceLength()
      modifies this`bodySize, this`headers
      ensures View() == Announced(old(View()))
      ensures headers == if Computes(old(View())) then WithLength(old(headers), |Concat(body)|) else old(headers)
    {
      if verb == Post || verb == Put || verb == Patch {
        if !chunked && bodySize == -1 {
          var n := TotalLength(body);
          bodySize := n;
          headers := WithLength(headers, n);
        }
      }
    }

    method SendOne()
      requires body != [] && |body[0]| < 0x1_0000_0000
      modifies this`body, this`bodySent, this`sent, this`wire, this`state
      ensures View() == SentOne(old(View()))
    {
      var b := body[0];
      body := body[1..];
      bodySent := bodySent + |b|;
      sent := sent + [Sent(chunked, b)];
      if chunked {
        wire := wire + Piece(b);
        if b == [] {
          state := S.BodySent;
        }
      } else {
        wire := wire + b;
        if bodySent >= Unsigned(bodySize) {
          state := S.BodySent;
        }
      }
    }

    /** send_body. */
    method SendBody()
      requires Sized(body)
      modifies this`body, this`bodySent, this`sent, this`wire, this`state
      ensures View() == SentAll(old(View()))
    {
      while body != []
        invariant Sized(body) && SentAll(View()) == SentAll(old(View()))
        decreases |body|
      {
        SendOne();
      }
    }
  }

  /** The framing call that a header call is, if it is one. */
  function HeaderOp(name: string, value: Option<string>): Option<Op> {
    if value.None? then None
    else if Lower(name) == "transfer-encoding" then (if value.value == "chunked" then Some(Chunk) else None)
    else if Lower(name) == "content-length" then Some(Length(StrToL(value.value).value))
    else None
  }
}
