/**
 The HTTP client's scheduler as a state machine over the callbacks of the event
 loop: one request is active at a time, the others wait in a FIFO queue, and one
 timer serves both the connect timeout and the idle close.

 A user callback may call back into the client. What it calls is part of the
 event: a script lists, for each callback in turn, the calls made from inside it.
 */
module HttpScheduler {
  import opened Options
  import opened CText

  type Req = nat  // requests are numbered in the order of submission

  datatype Status = Disconnected | Connecting | Handshaking | Connected

  datatype Timer = Off | ConnectTimeout | IdleClose

  datatype Phase = Created | HeadersSent | BodySent | HeadersReceived | Completed

  datatype Active = Active(req: Req, phase: Phase)

  /** What happens on the connections, numbered by `epoch`. */
  datatype Entry =
    | Opened(epoch: nat, tls: bool)
    | Moved(epoch: nat)                             // a TLS session set up on another connection goes on here
    | Handshaken(epoch: nat)
    | Head(epoch: nat, req: Req)                    // request head written
    | Done(epoch: nat, req: Req, persistent: bool)  // response completed

  datatype Client = Client(
    queue: seq<Req>,
    active: Option<Active>,
    status: Status,
    timer: Timer,
    wake: bool,            // uv_async_send was called and process_requests has not run yet
    attempts: nat,         // connection attempts of the source that have not reported
    linkOpen: bool,        // http_link is chained both ways and was not closed
    closings: nat,         // link closes whose callback has yet to run
    ssl: bool,
    idleTime: int,
    connectTimeout: int,
    // history
    epoch: nat,
    log: seq<Entry>,
    next: Req,
    activated: seq<Req>,
    callbacks: multiset<Req>,  // runs of resp_cb
    released: multiset<Req>
  )

  datatype UserCall =
    | Submit
    | Nudge             // tlsuv_http_req_data or _end: only wakes the client
    | Cancel(req: Req, calls: seq<UserCall>)  // with the calls its own response callback makes

  type Script = seq<seq<UserCall>>

  datatype ParserEvent =
    | OnHeaders(calls: seq<UserCall>)   // http_headers_complete_cb, which runs resp_cb
    | OnBody(calls: seq<UserCall>)
    | OnMessage(calls: seq<UserCall>)   // http_message_cb

  datatype Event =
    | User(call: UserCall)
    | CancelAll(script: Script)
    | SetIdle(millis: int)
    | SetConnectTimeout(millis: int)
    | SetTls                                       // tlsuv_http_set_url to an https URL
    | Wake(connectOk: bool, bodyDone: bool, script: Script)
    | AttemptDone(ok: bool, script: Script)
    | TimerFires(script: Script)
    | HandshakeComplete
    | HandshakeFailed(script: Script)
    | HandshakeUnexpected
    | LinkClosed
    | ReadError(script: Script)
    | ReadData(events: seq<ParserEvent>, version: string, connection: Option<string>)

  function Initial(ssl: bool): Client {
    Client([], None, Disconnected, Off, false, 0, false, 0, ssl, 0, 0, 0, [], 0, [], multiset{}, multiset{})
  }

  // ---------- API calls ----------

  function Call(c: Client, u: UserCall): Client
    decreases u
  {
    match u
    case Submit => c.(queue := c.queue + [c.next], next := c.next + 1, timer := Off, wake := true)
    case Nudge => c.(wake := true)
    case Cancel(r, us) =>
      if r in c.queue then
        var c1 := Calls(CalledOff(c, r), us);
        c1.(released := c1.released + multiset{r})
      else c
  }

  function Calls(c: Client, us: seq<UserCall>): Client
    decreases us
  {
    if us == [] then c else Calls(Call(c, us[0]), us[1..])
  }

  /** The request has left the queue and its callback starts. */
  function CalledOff(c: Client, r: Req): Client {
    c.(queue := Without(c.queue, r), callbacks := c.callbacks + multiset{r})
  }

  function Without(q: seq<Req>, r: Req): seq<Req> {
    if q == [] then [] else if q[0] == r then q[1..] else [q[0]] + Without(q[1..], r)
  }

  /** None of the calls, nor of those made from inside them, cancels `r`. */
  predicate Spares(us: seq<UserCall>, r: Req)
    decreases us
  {
    forall i :: 0 <= i < |us| ==> SparesOne(us[i], r)
  }

  predicate SparesOne(u: UserCall, r: Req)
    decreases u
  {
    u.Cancel? ==> u.req != r && Spares(u.calls, r)
  }

  function First(script: Script): seq<UserCall> {
    if script == [] then [] else script[0]
  }

  function Rest(script: Script): Script {
    if script == [] then [] else script[1..]
  }

  // ---------- failing requests ----------

  /** One turn of fail_active_request's loop: the head of the queue gets its
      callback and is released. */
  function FailHead(c: Client, calls: seq<UserCall>): Client
    requires c.queue != []
  {
    var r := c.queue[0];
    var c1 := Calls(CalledOff(c, r), calls);
    c1.(released := c1.released + multiset{r})
  }

  function Drain(c: Client, script: Script): Client
    decreases |script|, |c.queue|
  {
    if c.queue == [] then c else Drain(FailHead(c, First(script)), Rest(script))
  }

  function FailAll(c: Client, script: Script): Client {
    match c.active
    case None => Drain(c, script)
    case Some(a) =>
      var c1 := Calls(c.(callbacks := c.callbacks + multiset{a.req}), First(script));
      Drain(c1.(active := None, released := c1.released + multiset{a.req}), Rest(script))
  }

  // ---------- connections ----------

  function CloseConnection(c: Client): Client {
    var c' := c.(timer := Off);
    match c.status
    case Handshaking => CloseLink(c').(status := Disconnected)
    case Connected => CloseLink(c').(status := Disconnected)
    case Connecting => c'.(status := Disconnected)
    case Disconnected => c'
  }

  /** uv_link_close. On a chain whose source has lost its child the loop ends
      after the source, and the callback is waited for in vain. */
  function CloseLink(c: Client): Client {
    c.(closings := if c.linkOpen then c.closings + 1 else c.closings, linkOpen := false)
  }

  function MakeLinks(c: Client): Client {
    var c' := c.(epoch := c.epoch + 1, linkOpen := true, log := c.log + [Opened(c.epoch + 1, c.ssl)]);
    if c.ssl then c'.(status := Handshaking) else c'.(status := Connected, wake := true)
  }

  /** The source's cancel withdraws the attempt it started last. */
  function CancelSource(c: Client): Client {
    c.(attempts := if c.attempts > 0 then c.attempts - 1 else 0)
  }

  /** The current connection carries a TLS session, or part of one. */
  predicate OverTls(c: Client) {
    Opened(c.epoch, true) in c.log || Moved(c.epoch) in c.log
  }

  /** A further attempt succeeds while there is a chain. Before the client hears
      of it, the source has initialised its link again for the new socket: what
      the chain writes goes there from now on, and nothing reaches the chain. */
  function SwapSource(c: Client): Client {
    var x :=
      if c.status == Connected && OverTls(c) then Moved(c.epoch + 1) else Opened(c.epoch + 1, OverTls(c));
    c.(epoch := c.epoch + 1, linkOpen := false, log := c.log + [x])
  }

  function SrcConnectCb(c: Client, ok: bool, script: Script): Client {
    var c' := c.(timer := Off);
    if ok then
      match c.status
      case Connecting => MakeLinks(c')
      case Disconnected => CancelSource(c'.(linkOpen := false))
      case _ => SwapSource(c')
    else
      FailAll(c'.(status := Disconnected), script).(wake := true)
  }

  // ---------- process_requests ----------

  function Activate(c: Client): Client {
    if c.active.None? && c.queue != [] then
      c.(active := Some(Active(c.queue[0], Created)), activated := c.activated + [c.queue[0]], queue := c.queue[1..])
    else c
  }

  function SendHead(c: Client): Client
    requires c.active.Some?
  {
    var a := c.active.value;
    if a.phase == Created then
      c.(active := Some(a.(phase := HeadersSent)), log := c.log + [Head(c.epoch, a.req)])
    else c
  }

  /** send_body; whether it reaches the end of the body is the event's choice. */
  function SendBody(c: Client, done: bool): Client
    requires c.active.Some?
  {
    var a := c.active.value;
    if a.phase == HeadersSent && done then c.(active := Some(a.(phase := BodySent))) else c
  }

  /** The client before its source has answered to connect. */
  function Dialing(c: Client): Client {
    c.(status := Connecting, timer := if c.connectTimeout > 0 then ConnectTimeout else c.timer)
  }

  function Connect(c: Client, ok: bool, script: Script): Client {
    var c' := Dialing(c);
    if ok then c'.(attempts := c.attempts + 1) else SrcConnectCb(c', false, script)
  }

  function ProcessRequests(c: Client, connectOk: bool, bodyDone: bool, script: Script): Client {
    var c' := Activate(c.(wake := false));
    if c'.active.None? then
      if c'.status == Connected && c'.idleTime >= 0 then c'.(timer := IdleClose) else c'
    else
      match c'.status
      case Disconnected => Connect(c', connectOk, script)
      case Connected => SendBody(SendHead(c'), bodyDone)
      case _ => c'
  }

  // ---------- reading ----------

  /** Whether the connection is kept after a response. */
  predicate KeepAlive(version: string, connection: Option<string>) {
    if version == "1.1" then !(connection.Some? && Lower(connection.value) == "close")
    else if version == "1.0" then connection.Some? && Lower(connection.value) == "keep-alive"
    else false
  }

  function Parse(c: Client, e: ParserEvent): Client
    requires c.active.Some?
  {
    var a := c.active.value;
    match e
    case OnHeaders(us) =>
      Calls(c.(active := Some(a.(phase := HeadersReceived)), callbacks := c.callbacks + multiset{a.req}), us)
    case OnBody(us) => Calls(c, us)
    case OnMessage(us) => Calls(c.(active := Some(a.(phase := Completed))), us)
  }

  lemma {:induction false} CallsKeepActive(c: Client, us: seq<UserCall>)
    ensures Calls(c, us).active == c.active
    decreases us
  {
    if us != [] {
      CallKeepsActive(c, us[0]);
      CallsKeepActive(Call(c, us[0]), us[1..]);
    }
  }

  lemma {:induction false} CallKeepsActive(c: Client, u: UserCall)
    ensures Call(c, u).active == c.active
    decreases u
  {
    if u.Cancel? && u.req in c.queue {
      CallsKeepActive(CalledOff(c, u.req), u.calls);
    }
  }

  function ParseAll(c: Client, events: seq<ParserEvent>): (r: Client)
    requires c.active.Some?
    ensures r.active.Some? && r.active.value.req == c.active.value.req
    decreases |events|
  {
    if events == [] then c
    else
      CallsKeepActive(c, events[0].calls);
      CallsKeepActive(c.(active := Some(c.active.value.(phase := Completed))), events[0].calls);
      CallsKeepActive(c.(active := Some(c.active.value.(phase := HeadersReceived)),
                         callbacks := c.callbacks + multiset{c.active.value.req}), events[0].calls);
      ParseAll(Parse(c, events[0]), events[1..])
  }

  /** The active request is done: release it, and keep the connection or not. */
  function Complete(c: Client, keep: bool): Client
    requires c.active.Some?
  {
    var r := c.active.value.req;
    var c' := c.(active := None, released := c.released + multiset{r}, log := c.log + [Done(c.epoch, r, keep)]);
    if keep then c'.(wake := true) else CloseConnection(c')
  }

  function OnData(c: Client, events: seq<ParserEvent>, version: string, connection: Option<string>): Client {
    if c.active.None? then c
    else
      var c' := ParseAll(c, events);
      if c'.active.value.phase == Completed then Complete(c', KeepAlive(version, connection)) else c'
  }

  function OnReadError(c: Client, script: Script): Client {
    var c' := if c.active.Some? then FailAll(c, script) else c;
    CloseConnection(c').(wake := true)
  }

  // ---------- the handshake ----------

  datatype HandshakeStatus = HsComplete | HsError | HsOther

  function OnHandshake(c: Client, hs: HandshakeStatus, script: Script): Client {
    match hs
    case HsComplete => c.(status := Connected, wake := true, log := c.log + [Handshaken(c.epoch)])
    case HsError => FailAll(CloseConnection(c), script)
    case HsOther => CloseConnection(c)
  }

  // ---------- the step relation ----------

  /** Established: the transport is there and, with TLS, the handshake is complete. */
  predicate Established(log: seq<Entry>, epoch: nat) {
    Opened(epoch, false) in log || (Opened(epoch, true) in log && Handshaken(epoch) in log)
  }

  predicate TlsPending(c: Client) {
    c.linkOpen && Opened(c.epoch, true) in c.log && !Established(c.log, c.epoch)
  }

  /** Callbacks never cancel the active request. */
  predicate Harmless(c: Client, script: Script) {
    c.active.Some? ==> forall i :: 0 <= i < |script| ==> Spares(script[i], c.active.value.req)
  }

  predicate ParserSpares(es: seq<ParserEvent>, r: Req) {
    forall i :: 0 <= i < |es| ==> Spares(es[i].calls, r)
  }

  /** The parser reports headers before the end of a message. */
  predicate InOrder(phase: Phase, events: seq<ParserEvent>)
    decreases |events|
  {
    events == [] ||
    match events[0]
    case OnHeaders(_) => InOrder(HeadersReceived, events[1..])
    case OnBody(_) => InOrder(phase, events[1..])
    case OnMessage(_) => phase == HeadersReceived && InOrder(Completed, events[1..])
  }

  predicate Enabled(c: Client, e: Event) {
    match e
    case User(u) => c.active.Some? ==> SparesOne(u, c.active.value.req)
    case CancelAll(s) => Harmless(c, s)
    case SetIdle(_) => true
    case SetConnectTimeout(_) => true
    case SetTls => true
    case Wake(_, _, s) => c.wake && Harmless(Activate(c), s)
    case AttemptDone(_, s) => c.attempts > 0 && Harmless(c, s)
    case TimerFires(s) => c.timer != Off && Harmless(c, s)
    case HandshakeComplete => TlsPending(c)
    case HandshakeFailed(s) => TlsPending(c) && Harmless(c, s)
    case HandshakeUnexpected => TlsPending(c)
    case LinkClosed => c.closings > 0
    case ReadError(s) => c.linkOpen && Harmless(c, s)
    case ReadData(es, _, _) =>
      && c.linkOpen && Established(c.log, c.epoch)
      && (c.active.Some? ==> InOrder(c.active.value.phase, es) && ParserSpares(es, c.active.value.req))
  }

  function Step(c: Client, e: Event): Client
    requires Enabled(c, e)
  {
    match e
    case User(u) => Call(c, u)
    case CancelAll(s) => CloseConnection(FailAll(c, s))
    case SetIdle(t) => c.(idleTime := t)
    case SetConnectTimeout(t) => c.(connectTimeout := t)
    case SetTls => c.(ssl := true)
    case Wake(ok, done, s) => ProcessRequests(c, ok, done, s)
    case AttemptDone(ok, s) => SrcConnectCb(c.(attempts := c.attempts - 1), ok, s)
    case TimerFires(s) =>
      if c.timer == IdleClose then CloseConnection(c.(timer := Off))
      else CancelSource(SrcConnectCb(c.(timer := Off), false, s))
    case HandshakeComplete => OnHandshake(c, HsComplete, [])
    case HandshakeFailed(s) => OnHandshake(c, HsError, s)
    case HandshakeUnexpected => OnHandshake(c, HsOther, [])
    case LinkClosed => c.(closings := c.closings - 1, wake := true)
    case ReadError(s) => OnReadError(c, s)
    case ReadData(es, v, h) => OnData(c, es, v, h)
  }

  ghost predicate Runs(c: Client, es: seq<Event>, d: Client)
    decreases |es|
  {
    if es == [] then c == d
    else Enabled(c, es[0]) && Runs(Step(c, es[0]), es[1..], d)
  }

  // ---------- what failing requests and calling back cannot change ----------

  ghost predicate OnlyRequestsChange(c: Client, d: Client) {
    && d == c.(queue := d.queue, active := d.active, timer := d.timer, wake := d.wake,
               next := d.next, callbacks := d.callbacks, released := d.released)
    && (c.wake ==> d.wake)
    && (d.timer == c.timer || d.timer == Off)
  }

  /** Calls leave the connection alone; a queue that fills up comes with a
      wake-up and a stopped timer. */
  lemma {:induction false} CallsEffect(c: Client, us: seq<UserCall>)
    ensures CallEffect(c, Calls(c, us))
    decreases us
  {
    if us != [] {
      CallHasEffect(c, us[0]);
      CallsEffect(Call(c, us[0]), us[1..]);
    }
  }

  ghost predicate CallEffect(c: Client, d: Client) {
    && OnlyRequestsChange(c, d) && d.active == c.active
    && (c.queue == [] && d.queue != [] ==> d.wake && d.timer == Off)
  }

  lemma {:induction false} CallHasEffect(c: Client, u: UserCall)
    ensures CallEffect(c, Call(c, u))
    decreases u
  {
    if u.Cancel? && u.req in c.queue {
      CallsEffect(CalledOff(c, u.req), u.calls);
    }
  }

  lemma {:induction false} DrainEffect(c: Client, script: Script)
    ensures var d := Drain(c, script);
      OnlyRequestsChange(c, d) && d.active == c.active && d.queue == []
    decreases |script|, |c.queue|
  {
    if c.queue != [] {
      var c0 := CalledOff(c, c.queue[0]);
      CallsEffect(c0, First(script));
      var c1 := Calls(c0, First(script));
      DrainEffect(c1.(released := c1.released + multiset{c.queue[0]}), Rest(script));
    }
  }

  lemma FailAllEffect(c: Client, script: Script)
    ensures var d := FailAll(c, script);
      OnlyRequestsChange(c, d) && d.active == None && d.queue == []
  {
    if c.active.None? {
      DrainEffect(c, script);
    } else {
      var a := c.active.value;
      var c0 := c.(callbacks := c.callbacks + multiset{a.req});
      CallsEffect(c0, First(script));
      var c1 := Calls(c0, First(script));
      DrainEffect(c1.(active := None, released := c1.released + multiset{a.req}), Rest(script));
    }
  }

  lemma CloseEffect(c: Client)
    ensures var d := CloseConnection(c);
      && d.status == Disconnected && d.timer == Off && d.active == c.active && d.queue == c.queue
      && d.log == c.log && d.epoch == c.epoch && LinkIsLetGo(c, d)
  {
  }

  /** A chain is closed if there is one; its callback is owed exactly if the chain was whole. */
  predicate LinkIsLetGo(c: Client, d: Client) {
    if c.status in {Handshaking, Connected} then
      !d.linkOpen && d.closings == c.closings + if c.linkOpen then 1 else 0
    else d.linkOpen == c.linkOpen && d.closings == c.closings
  }

  lemma {:induction false} ParseEffect(c: Client, events: seq<ParserEvent>)
    requires c.active.Some?
    ensures var d := ParseAll(c, events);
      && OnlyRequestsChange(c, d)
      && (c.queue == [] && d.queue != [] ==> d.wake && d.timer == Off)
      && (c.active.value.phase != Created ==> d.active.value.phase != Created)
      && (d.active.value.phase in {Created, HeadersSent, BodySent} ==> d.active == c.active)
    decreases |events|
  {
    if events != [] {
      var a, e := c.active.value, events[0];
      CallsEffect(c, e.calls);
      CallsEffect(c.(active := Some(a.(phase := Completed))), e.calls);
      CallsEffect(c.(active := Some(a.(phase := HeadersReceived)),
                     callbacks := c.callbacks + multiset{a.req}), e.calls);
      ParseEffect(Parse(c, e), events[1..]);
    }
  }
}
