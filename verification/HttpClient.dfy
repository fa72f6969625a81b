/**
 The HTTP client as an object whose callbacks update its fields in place.

 The object is Valid when its requests are conserved and in order, every head in
 its log went out on a usable connection or on one a TLS session was moved to, and
 an armed idle timer has nothing to interrupt. Every call and every callback of the event loop keeps it so; the
 methods below "inside a callback" are the parts they are made of, which also run
 while a request is between the queue and its release.
 */
module HttpClient {
  import opened CText
  import opened Options
  import opened HttpScheduler
  import opened HttpRequests
  import opened HttpWire
  import opened HttpWakeups

  lemma {:induction false} WithoutAt(q: seq<Req>, r: Req, i: nat)
    requires i < |q| && q[i] == r && r !in q[..i]
    ensures Without(q, r) == q[..i] + q[i + 1..]
  {
    if i > 0 {
      assert q[0] == q[..i][0];
      assert q[1..][..i - 1] == q[..i][1..];
      WithoutAt(q[1..], r, i - 1);
    }
  }

  ghost predicate Good(c: Client) {
    Kept(c, multiset{}) && WireInv(c) && IdleOk(c)
  }

  lemma GoodStep(c: Client, e: Event)
    requires Good(c) && Enabled(c, e)
    ensures Good(Step(c, e))
  {
    StepKeeps(c, e);
    StepWire(c, e);
    StepIdle(c, e);
  }

  /** What Valid means for each request and each head; a TLS session can only
      have been moved by a late swap. */
  lemma GoodMeans(c: Client, r: Req, i: nat)
    requires Good(c)
    ensures QueueCount(c, r) + ActiveCount(c, r) + c.released[r] == if r < c.next then 1 else 0
    ensures c.released[r] > 0 ==> c.callbacks[r] > 0
    ensures i < |c.log| && c.log[i].Head? ==>
      (Usable(c.log[..i], c.log[i].epoch) <==> Moved(c.log[i].epoch) !in c.log[..i])
    ensures c.timer == IdleClose ==> c.status == Connected && c.active.None? && c.queue == []
  {
    assert KeptAt(c, multiset{}, r);
    if i < |c.log| && c.log[i].Head? {
      GoodHead(c, i);
    }
  }

  // ---------- what the callbacks are for ----------

  /** No request of the client is left. */
  predicate NoRequests(c: Client) {
    c.active.None? && c.queue == []
  }

  lemma SrcFailureMeans(c: Client, script: Script)
    ensures var d := SrcConnectCb(c, false, script);
      NoRequests(d) && d.status == Disconnected && d.timer == Off && d.wake
  {
    FailAllEffect(c.(timer := Off, status := Disconnected), script);
  }

  lemma AttemptMeans(c: Client, ok: bool, script: Script)
    requires Enabled(c, AttemptDone(ok, script))
    ensures var d := Step(c, AttemptDone(ok, script));
      && d.timer == Off && (!ok ==> NoRequests(d) && d.status == Disconnected && d.wake)
      && (ok ==> Succeeded(c, d))
  {
    var c1 := c.(attempts := c.attempts - 1);
    if !ok {
      SrcFailureMeans(c1, script);
    }
  }

  /** An attempt succeeds. A connecting client gets a new connection, over TLS if
      it is set so; a disconnected one gets none; under any other the source changes the
      connection, and the TLS session or handshake goes on there. No request is affected. */
  ghost predicate Succeeded(c: Client, d: Client) {
    && d.queue == c.queue && d.active == c.active && d.callbacks == c.callbacks && d.released == c.released
    && (c.status == Connecting ==>
          && d.status == (if c.ssl then Handshaking else Connected) && (!c.ssl ==> d.wake)
          && d.linkOpen && d.epoch == c.epoch + 1 && d.log == c.log + [Opened(d.epoch, c.ssl)])
    && (c.status != Connecting ==> d.status == c.status && d.wake == c.wake && !d.linkOpen)
    && (c.status == Disconnected ==> d.epoch == c.epoch && d.log == c.log)
    && (c.status in {Handshaking, Connected} ==>
          var tls := Opened(c.epoch, true) in c.log || Moved(c.epoch) in c.log;
          && d.epoch == c.epoch + 1
          && d.log == c.log + [if c.status == Connected && tls then Moved(d.epoch) else Opened(d.epoch, tls)])
    // a disconnected client withdraws the attempt started last, if there is another one
    && d.attempts == (if c.status == Disconnected && c.attempts > 1 then c.attempts - 2 else c.attempts - 1)
  }

  /** The request process_requests is concerned with. */
  function Due(c: Client): Option<Active> {
    if c.active.Some? then c.active
    else if c.queue != [] then Some(Active(c.queue[0], Created))
    else None
  }

  /** Nothing to do: a connected client sets its idle timer, unless that is switched off. */
  ghost predicate Idled(c: Client, d: Client) {
    d == c.(wake := false, timer := if c.status == Connected && c.idleTime >= 0 then IdleClose else c.timer)
  }

  ghost predicate TookDue(c: Client, d: Client) {
    && d.queue == (if c.active.None? && c.queue != [] then c.queue[1..] else c.queue)
    && d.callbacks == c.callbacks && d.released == c.released
  }

  /** A connected client writes the head once, and as much body as there is. */
  ghost predicate Sent(c: Client, d: Client, a: Active, bodyDone: bool) {
    && TookDue(c, d) && d.status == Connected && d.timer == c.timer
    && d.log == c.log + (if a.phase == Created then [Head(c.epoch, a.req)] else [])
    && d.active == Some(a.(phase :=
         if a.phase in {Created, HeadersSent} then (if bodyDone then BodySent else HeadersSent) else a.phase))
  }

  /** A disconnected client starts an attempt, with its timeout if one is set. */
  ghost predicate Dialed(c: Client, d: Client, a: Active) {
    && TookDue(c, d) && d.status == Connecting && d.attempts == c.attempts + 1
    && d.timer == (if c.connectTimeout > 0 then ConnectTimeout else c.timer)
    && d.log == c.log && d.active == Some(a)
  }

  lemma ProcMeans(c: Client, connectOk: bool, bodyDone: bool, script: Script)
    ensures var d, a := HttpScheduler.ProcessRequests(c, connectOk, bodyDone, script), Due(c);
      && (a.None? ==> Idled(c, d))
      && (a.Some? && c.status == Connected ==> Sent(c, d, a.value, bodyDone))
      && (a.Some? && c.status == Disconnected && connectOk ==> Dialed(c, d, a.value))
      && (a.Some? && c.status == Disconnected && !connectOk ==>
            NoRequests(d) && d.status == Disconnected && d.timer == Off && d.wake)
      && (a.Some? && c.status in {Connecting, Handshaking} ==>
            TookDue(c, d) && d.status == c.status && d.timer == c.timer && d.log == c.log && d.active == a)
  {
    if Due(c).Some? && c.status == Disconnected {
      DialMeans(c, connectOk, script);
    }
  }

  lemma DialMeans(c: Client, ok: bool, script: Script)
    requires Due(c).Some?
    ensures var d := Connect(Activate(c.(wake := false)), ok, script);
      if ok then Dialed(c, d, Due(c).value) else NoRequests(d) && d.status == Disconnected && d.timer == Off && d.wake
  {
    if !ok {
      SrcFailureMeans(Dialing(Activate(c.(wake := false))), script);
    }
  }

  lemma TimerMeans(c: Client, script: Script)
    requires IdleOk(c) && Enabled(c, TimerFires(script))
    ensures var d := Step(c, TimerFires(script));
      && NoRequests(d) && d.status == Disconnected && d.timer == Off
      && (c.timer == IdleClose ==> d.callbacks == c.callbacks && d.released == c.released && LinkIsLetGo(c, d))
      && (c.timer == ConnectTimeout ==> d.wake && d.attempts == if c.attempts > 0 then c.attempts - 1 else 0)
  {
    if c.timer == IdleClose {
      CloseEffect(c.(timer := Off));
    } else {
      SrcFailureMeans(c.(timer := Off), script);
      FailAllEffect(c.(timer := Off, status := Disconnected), script);
    }
  }

  lemma HandshakeMeans(c: Client, hs: HandshakeStatus, script: Script)
    requires Enabled(c, HandshakeEvent(hs, script))
    ensures var d := Step(c, HandshakeEvent(hs, script));
      && (hs.HsComplete? ==> Established(d.log, d.epoch) && d.status == Connected && d.wake)
      && (!hs.HsComplete? ==> d.status == Disconnected && LinkIsLetGo(c, d)) && (hs.HsError? ==> NoRequests(d))
      && (!hs.HsError? ==> d.queue == c.queue && d.active == c.active && d.callbacks == c.callbacks)
  {
    if hs.HsComplete? {
      assert Established(c.log + [Handshaken(c.epoch)], c.epoch);
    } else {
      CloseEffect(c);
      FailAllEffect(CloseConnection(c), script);
    }
  }

  lemma ErrorMeans(c: Client, script: Script)
    ensures var d := OnReadError(c, script);
      && d.status == Disconnected && d.wake && d.timer == Off && d.active.None? && LinkIsLetGo(c, d)
      && (c.active.Some? ==> d.queue == [])
      && (c.active.None? ==> d.queue == c.queue && d.callbacks == c.callbacks && d.released == c.released)
  {
    if c.active.Some? {
      FailAllEffect(c, script);
    }
    CloseEffect(if c.active.Some? then FailAll(c, script) else c);
  }

  lemma CancelAllMeans(c: Client, script: Script)
    ensures var d := CloseConnection(FailAll(c, script));
      NoRequests(d) && d.timer == Off && d.status == Disconnected && LinkIsLetGo(c, d)
  {
    FailAllEffect(c, script);
    CloseEffect(FailAll(c, script));
  }

  lemma CancelMeans(c: Client, r: Req, calls: seq<UserCall>)
    requires Good(c) && Enabled(c, User(Cancel(r, calls))) && r in c.queue
    ensures var d := Step(c, User(Cancel(r, calls))); r !in d.queue && d.callbacks[r] == 1 && d.released[r] == 1
  {
    var d := Step(c, User(Cancel(r, calls)));
    GoodStep(c, User(Cancel(r, calls)));
    CallHasEffect(c, Cancel(r, calls));
    assert KeptAt(c, multiset{}, r) && KeptAt(d, multiset{}, r);
  }

  /** The parser has reported the end of a message, and nothing but body data after it. */
  ghost predicate Finishes(phase: Phase, es: seq<ParserEvent>) {
    (exists i: nat :: EndsAt(es, i)) || (phase == Completed && AllBody(es))
  }

  predicate EndsAt(es: seq<ParserEvent>, i: nat) {
    i < |es| && es[i].OnMessage? && AllBody(es[i + 1..])
  }

  predicate AllBody(es: seq<ParserEvent>) {
    forall i :: 0 <= i < |es| ==> es[i].OnBody?
  }

  function Next(phase: Phase, e: ParserEvent): Phase {
    match e
    case OnHeaders(_) => HeadersReceived
    case OnBody(_) => phase
    case OnMessage(_) => Completed
  }

  lemma EndsInTail(es: seq<ParserEvent>, i: nat)
    requires es != []
    ensures EndsAt(es, i + 1) <==> EndsAt(es[1..], i)
  {
    if i + 1 < |es| {
      assert es[1..][i] == es[i + 1] && es[1..][i + 1..] == es[i + 2..];
    }
  }

  lemma BodyTail(es: seq<ParserEvent>)
    requires es != []
    ensures AllBody(es) <==> es[0].OnBody? && AllBody(es[1..])
    ensures EndsAt(es, 0) <==> es[0].OnMessage? && AllBody(es[1..])
  {
    if es[0].OnBody? && AllBody(es[1..]) {
      forall i | 0 <= i < |es| ensures es[i].OnBody? {
        assert i > 0 ==> es[1..][i - 1].OnBody?;
      }
    }
  }

  lemma FinishesTail(phase: Phase, es: seq<ParserEvent>)
    requires es != []
    ensures Finishes(phase, es) <==> Finishes(Next(phase, es[0]), es[1..])
  {
    BodyTail(es);
    if i: nat :| EndsAt(es, i) {
      if i > 0 {
        EndsInTail(es, i - 1);
        assert EndsAt(es[1..], i - 1);
      }
    }
    if i: nat :| EndsAt(es[1..], i) {
      EndsInTail(es, i);
      assert EndsAt(es, i + 1);
    }
  }

  lemma {:induction false} ParseFinishes(c: Client, es: seq<ParserEvent>)
    requires c.active.Some?
    ensures ParseAll(c, es).active.value.phase == Completed <==> Finishes(c.active.value.phase, es)
    decreases |es|
  {
    if es != [] {
      var a, e := c.active.value, es[0];
      CallsKeepActive(c, e.calls);
      CallsKeepActive(c.(active := Some(a.(phase := Completed))), e.calls);
      CallsKeepActive(
        c.(active := Some(a.(phase := HeadersReceived)), callbacks := c.callbacks + multiset{a.req}), e.calls);
      FinishesTail(a.phase, es);
      ParseFinishes(Parse(c, e), es[1..]);
    }
  }

  ghost predicate SameLink(c: Client, d: Client) {
    d.status == c.status && d.linkOpen == c.linkOpen && d.closings == c.closings && d.epoch == c.epoch
  }

  /** A response. The request is done exactly when the parser has reported the
      end of the message; the connection is then kept, and the next request woken up
      for, exactly if section 9.3 of RFC 9112 lets it persist, and closed otherwise. */
  lemma ResponseMeans(c: Client, es: seq<ParserEvent>, version: string, connection: Option<string>)
    requires Enabled(c, ReadData(es, version, connection)) && c.active.Some?
    ensures var d := Step(c, ReadData(es, version, connection));
      && (d.active.None? <==> Finishes(c.active.value.phase, es))
      && (d.active.Some? || Persistent(version, connection) ==> SameLink(c, d))
      && (d.active.None? && Persistent(version, connection) ==> d.wake)
      && (d.active.None? && !Persistent(version, connection) ==>
            d.status == Disconnected && d.timer == Off && LinkIsLetGo(c, d))
  {
    ParseEffect(c, es);
    ParseFinishes(c, es);
    KeepAliveIsPersistence(version, connection);
    var c1 := ParseAll(c, es);
    var r := c1.active.value.req;
    CloseEffect(c1.(active := None, released := c1.released + multiset{r}, log := c1.log + [Done(c1.epoch, r, false)]));
  }

  lemma ReadMeans(c: Client, es: seq<ParserEvent>, version: string, connection: Option<string>)
    requires Good(c) && Enabled(c, ReadData(es, version, connection)) && c.active.Some?
    ensures var d, r := Step(c, ReadData(es, version, connection)), c.active.value.req;
      if d.active.Some? then d.active.value.req == r else d.callbacks[r] > 0 && d.released[r] == 1
  {
    var d, r := Step(c, ReadData(es, version, connection)), c.active.value.req;
    GoodStep(c, ReadData(es, version, connection));
    ParseEffect(c, es);
    assert KeptAt(c, multiset{}, r) && KeptAt(d, multiset{}, r);
  }

  class Http {
    var requests: seq<Req>      // the STAILQ
    var active: Option<Active>
    var connected: Status
    var connTimer: Timer
    var proc: bool              // the async handle has been signalled
    var ssl: bool
    var idleTime: int
    var connectTimeout: int
    var next: Req
    // the environment and the history
    ghost var attempts: nat
    ghost var linkOpen: bool
    ghost var closings: nat
    ghost var epoch: nat
    ghost var log: seq<Entry>
    ghost var activated: seq<Req>
    ghost var callbacks: multiset<Req>
    ghost var released: multiset<Req>

    ghost function State(): Client
      reads this
    {
      Client(requests, active, connected, connTimer, proc, attempts, linkOpen, closings,
             ssl, idleTime, connectTimeout, epoch, log, next, activated, callbacks, released)
    }

    ghost predicate Valid()
      reads this
    {
      Good(State())
    }

    constructor (ssl: bool)
      ensures Valid() && State() == Initial(ssl)
      ensures requests == [] && active.None? && connected == Disconnected && connTimer == Off && !proc
      ensures this.ssl == ssl && idleTime == 0 && connectTimeout == 0
    {
      requests, active, connected, connTimer, proc := [], None, Disconnected, Off, false;
      this.ssl, idleTime, connectTimeout, next := ssl, 0, 0, 0;
      attempts, linkOpen, closings, epoch, log := 0, false, 0, 0, [];
      activated, callbacks, released := [], multiset{}, multiset{};
    }

    // ---------- calls and callbacks ----------

    /** tlsuv_http_req, from the moment the request object exists. */
    method Submit() returns (r: Req)
      requires Valid()
      modifies this
      ensures Valid() && State() == Step(old(State()), User(UserCall.Submit))
      ensures r == old(next) && requests == old(requests) + [r] && proc && connTimer == Off
    {
      ghost var c := State();
      r := AddRequest();
      GoodStep(c, User(UserCall.Submit));
    }

    /** tlsuv_http_req_cancel for a request that is not active; `calls` is what
        its response callback does. */
    method CancelQueued(r: Req, calls: seq<UserCall>) returns (rc: int)
      requires Valid() && Enabled(State(), User(Cancel(r, calls)))
      modifies this
      ensures Valid() && State() == Step(old(State()), User(Cancel(r, calls)))
      ensures rc == if r in old(requests) then 0 else UV_EINVAL
      ensures rc == 0 ==> r !in requests && callbacks[r] == 1 && released[r] == 1
    {
      ghost var c := State();
      if r in requests {
        CancelMeans(c, r, calls);
      }
      rc := CallOff(r, calls);
      GoodStep(c, User(Cancel(r, calls)));
    }

    /** tlsuv_http_req_data and _end, as far as the client is concerned. */
    method Nudge()
      requires Valid()
      modifies this
      ensures Valid() && State() == Step(old(State()), User(UserCall.Nudge)) && proc
    {
      ghost var c := State();
      proc := true;
      GoodStep(c, User(UserCall.Nudge));
    }

    /** tlsuv_http_cancel_all. */
    method CancelAllRequests(script: Script)
      requires Valid() && Enabled(State(), CancelAll(script))
      modifies this
      ensures Valid() && State() == Step(old(State()), CancelAll(script))
      ensures active.None? && requests == [] && connTimer == Off && connected == Disconnected
      ensures LinkIsLetGo(old(State()), State())
    {
      ghost var c := State();
      CancelAllMeans(c, script);
      FailActiveRequest(script);
      CloseConn();
      GoodStep(c, CancelAll(script));
    }

    /** tlsuv_http_idle_keepalive. */
    method SetIdleTime(millis: int)
      requires Valid()
      modifies this
      ensures Valid() && State() == Step(old(State()), SetIdle(millis)) && State() == old(State()).(idleTime := millis)
    {
      ghost var c := State();
      idleTime := millis;
      GoodStep(c, SetIdle(millis));
    }

    /** tlsuv_http_connect_timeout. */
    method SetTimeout(millis: int)
      requires Valid()
      modifies this
      ensures Valid() && State() == Step(old(State()), SetConnectTimeout(millis))
      ensures State() == old(State()).(connectTimeout := millis)
    {
      ghost var c := State();
      connectTimeout := millis;
      GoodStep(c, SetConnectTimeout(millis));
    }

    /** tlsuv_http_set_url to an https URL. */
    method UseTls()
      requires Valid()
      modifies this
      ensures Valid() && State() == Step(old(State()), SetTls) && State() == old(State()).(ssl := true)
    {
      ghost var c := State();
      ssl := true;
      GoodStep(c, SetTls);
    }

    /** The event loop runs process_requests. `rc` is what the source's connect
        returns, `bodyDone` whether send_body reaches the end of the body. */
    method OnProc(rc: int, bodyDone: bool, script: Script)
      requires Valid() && Enabled(State(), Wake(rc == 0, bodyDone, script))
      modifies this
      ensures Valid() && State() == Step(old(State()), Wake(rc == 0, bodyDone, script))
      ensures var c, a := old(State()), old(Due(State()));
        && (a.None? ==> Idled(c, State()))
        && (a.Some? && c.status == Connected ==> Sent(c, State(), a.value, bodyDone))
        && (a.Some? && c.status == Disconnected && rc == 0 ==> Dialed(c, State(), a.value))
        && (a.Some? && c.status == Disconnected && rc != 0 ==>
              active.None? && requests == [] && connected == Disconnected && connTimer == Off && proc)
        && (a.Some? && c.status in {Connecting, Handshaking} ==> TookDue(c, State()) && active == a && log == c.log)
      ensures active.None? ==> requests == []
    {
      ghost var c := State();
      ProcMeans(c, rc == 0, bodyDone, script);
      ProcessRequests(rc, bodyDone, script);
      GoodStep(c, Wake(rc == 0, bodyDone, script));
    }

    /** The source reports the outcome of an attempt. */
    method OnSource(ok: bool, script: Script)
      requires Valid() && Enabled(State(), AttemptDone(ok, script))
      modifies this
      ensures Valid() && State() == Step(old(State()), AttemptDone(ok, script))
      ensures connTimer == Off && connected != Connecting
      ensures ok ==> Succeeded(old(State()), State())
      ensures !ok ==> active.None? && requests == [] && connected == Disconnected && proc
    {
      ghost var c := State();
      AttemptMeans(c, ok, script);
      Outcome(ok, script);
      GoodStep(c, AttemptDone(ok, script));
    }

    /** src_connect_timeout and idle_timeout, whichever the timer was armed for. */
    method OnTimer(script: Script)
      requires Valid() && Enabled(State(), TimerFires(script))
      modifies this
      ensures Valid() && State() == Step(old(State()), TimerFires(script))
      ensures active.None? && requests == [] && connected == Disconnected && connTimer == Off
      ensures old(connTimer) == IdleClose ==>
        callbacks == old(callbacks) && released == old(released) && LinkIsLetGo(old(State()), State())
      ensures old(connTimer) == ConnectTimeout ==>
        proc && attempts == if old(attempts) > 0 then old(attempts) - 1 else 0
    {
      ghost var c := State();
      TimerMeans(c, script);
      if connTimer == IdleClose {
        connTimer := Off;
        CloseConn();
      } else {
        ConnectTimedOut(script);
      }
      GoodStep(c, TimerFires(script));
    }

    /** on_tls_handshake. */
    method OnTlsHandshake(hs: HandshakeStatus, script: Script)
      requires Valid() && TlsPending(State()) && Harmless(State(), script)
      modifies this
      ensures Valid() && State() == Step(old(State()), HandshakeEvent(hs, script))
      ensures hs.HsComplete? ==> Established(log, epoch) && connected == Connected && proc
      ensures !hs.HsComplete? ==> connected == Disconnected && LinkIsLetGo(old(State()), State())
      ensures hs.HsError? ==> active.None? && requests == []
      ensures !hs.HsError? ==> requests == old(requests) && active == old(active) && callbacks == old(callbacks)
    {
      ghost var c := State();
      HandshakeMeans(c, hs, script);
      Handshake(hs, script);
      GoodStep(c, HandshakeEvent(hs, script));
    }

    /** link_close_cb. */
    method OnLinkClosed()
      requires Valid() && Enabled(State(), LinkClosed)
      modifies this
      ensures Valid() && State() == Step(old(State()), LinkClosed)
      ensures proc && closings == old(closings) - 1 && requests == old(requests) && active == old(active)
    {
      ghost var c := State();
      closings := closings - 1;
      proc := true;
      GoodStep(c, LinkClosed);
    }

    /** http_read_cb with a negative count. */
    method OnError(script: Script)
      requires Valid() && Enabled(State(), ReadError(script))
      modifies this
      ensures Valid() && State() == Step(old(State()), ReadError(script))
      ensures connected == Disconnected && proc && connTimer == Off && active.None?
      ensures old(active).Some? ==> requests == []
      ensures old(active).None? ==>
        requests == old(requests) && callbacks == old(callbacks) && released == old(released)
      ensures LinkIsLetGo(old(State()), State())
    {
      ghost var c := State();
      ErrorMeans(c, script);
      if active.Some? {
        FailActiveRequest(script);
      }
      CloseConn();
      proc := true;
      GoodStep(c, ReadError(script));
    }

    /** http_read_cb with data, which the parser turns into `events`. */
    method OnRead(events: seq<ParserEvent>, version: string, connection: Option<string>)
      requires Valid() && Enabled(State(), ReadData(events, version, connection))
      modifies this
      ensures Valid() && State() == Step(old(State()), ReadData(events, version, connection))
      ensures old(active).Some? && active.Some? ==> active.value.req == old(active).value.req
      ensures old(active).Some? && active.None? ==> var r := old(active).value.req; callbacks[r] > 0 && released[r] == 1
      ensures old(active).None? ==> State() == old(State())
      ensures old(active).Some? ==> (active.None? <==> Finishes(old(active).value.phase, events))
      ensures old(active).Some? && (active.Some? || Persistent(version, connection)) ==> SameLink(old(State()), State())
      ensures old(active).Some? && active.None? && Persistent(version, connection) ==> proc
      ensures old(active).Some? && active.None? && !Persistent(version, connection) ==>
        connected == Disconnected && connTimer == Off && LinkIsLetGo(old(State()), State())
    {
      ghost var c := State();
      if active.Some? {
        ReadMeans(c, events, version, connection);
        ResponseMeans(c, events, version, connection);
      }
      if active.Some? {
        Process(events);
        if active.value.phase == Completed {
          CompleteActive(KeepAlive(version, connection));
        }
      }
      GoodStep(c, ReadData(events, version, connection));
    }

    // ---------- inside a callback ----------

    method AddRequest() returns (r: Req)
      modifies this
      ensures State() == Call(old(State()), UserCall.Submit) && r == old(next)
    {
      r := next;
      next := next + 1;
      requests := requests + [r];
      connTimer := Off;
      proc := true;
    }

    method CallOff(r: Req, calls: seq<UserCall>) returns (rc: int)
      requires active.Some? ==> SparesOne(Cancel(r, calls), active.value.req)
      modifies this
      ensures State() == Call(old(State()), Cancel(r, calls)) && active == old(active)
      ensures rc == if r in old(requests) then 0 else UV_EINVAL
      decreases calls, 1
    {
      if r !in requests {
        return UV_EINVAL;
      }
      TakeOff(r);
      RunCallback(calls);
      LetGo(r);
      rc := 0;
    }

    method TakeOff(r: Req)
      requires r in requests
      modifies this`requests, this`callbacks
      ensures State() == CalledOff(old(State()), r)
    {
      requests := Remove(requests, r);
      callbacks := callbacks + multiset{r};
    }

    ghost method LetGo(r: Req)
      modifies this`released
      ensures released == old(released) + multiset{r}
    {
      released := released + multiset{r};
    }

    /** STAILQ_REMOVE: walk to the element and unlink it. */
    static method Remove(q: seq<Req>, r: Req) returns (rest: seq<Req>)
      requires r in q
      ensures rest == Without(q, r)
    {
      var i := 0;
      while q[i] != r
        invariant 0 <= i < |q| && r !in q[..i]
        decreases |q| - i
      {
        i := i + 1;
      }
      WithoutAt(q, r, i);
      rest := q[..i] + q[i + 1..];
    }

    /** What user code does from inside a callback. */
    method RunCallback(us: seq<UserCall>)
      requires active.Some? ==> Spares(us, active.value.req)
      modifies this
      ensures State() == Calls(old(State()), us) && active == old(active)
      decreases us, 0
    {
      var i := 0;
      while i < |us|
        invariant 0 <= i <= |us| && active == old(active)
        invariant Calls(State(), us[i..]) == Calls(old(State()), us)
      {
        match us[i] {
          case Submit => var r := AddRequest();
          case Nudge => proc := true;
          case Cancel(r, calls) => var rc := CallOff(r, calls);
        }
        i := i + 1;
      }
    }

    /** fail_active_request. */
    method FailActiveRequest(script: Script)
      requires Harmless(State(), script)
      modifies this
      ensures State() == FailAll(old(State()), script)
    {
      if active.None? {
        DrainRequests(script);
        return;
      }
      FailActive(First(script));
      DrainRequests(Rest(script));
    }

    method FailActive(calls: seq<UserCall>)
      requires active.Some? && Spares(calls, active.value.req)
      modifies this
      ensures var c := old(State());
        var c1 := Calls(c.(callbacks := c.callbacks + multiset{c.active.value.req}), calls);
        State() == c1.(active := None, released := c1.released + multiset{c.active.value.req})
    {
      var r := active.value.req;
      callbacks := callbacks + multiset{r};
      RunCallback(calls);
      released := released + multiset{r};
      active := None;
    }

    method FailFirst(calls: seq<UserCall>)
      requires requests != [] && active.None?
      modifies this
      ensures State() == FailHead(old(State()), calls) && active.None?
    {
      var r := requests[0];
      TakeFirst();
      RunCallback(calls);
      LetGo(r);
    }

    method TakeFirst()
      requires requests != []
      modifies this`requests, this`callbacks
      ensures State() == CalledOff(old(State()), old(requests[0]))
    {
      callbacks := callbacks + multiset{requests[0]};
      requests := requests[1..];
    }

    method DrainRequests(script: Script)
      requires active.None?
      modifies this
      ensures State() == Drain(old(State()), script)
    {
      var s := script;
      while requests != []
        invariant active.None?
        invariant Drain(State(), s) == Drain(old(State()), script)
        decreases |s|, |requests|
      {
        FailFirst(First(s));
        s := Rest(s);
      }
    }

    /** close_connection. */
    method CloseConn()
      modifies this
      ensures State() == CloseConnection(old(State()))
    {
      connTimer := Off;
      match connected {
        case Handshaking => CloseLink();
        case Connected => CloseLink();
        case Connecting => connected := Disconnected;
        case Disconnected =>
      }
    }

    method CloseLink()
      modifies this`connected, this`closings, this`linkOpen
      ensures State() == HttpScheduler.CloseLink(old(State())).(status := Disconnected)
    {
      closings, linkOpen := if linkOpen then closings + 1 else closings, false;
      connected := Disconnected;
    }

    /** make_links. */
    method ChainLinks()
      modifies this
      ensures State() == MakeLinks(old(State()))
    {
      epoch, linkOpen := epoch + 1, true;
      log := log + [Opened(epoch, ssl)];
      if ssl {
        connected := Handshaking;
      }
      if !ssl {
        connected := Connected;
        proc := true;
      }
    }

    method Outcome(ok: bool, script: Script)
      requires attempts > 0 && Harmless(State(), script)
      modifies this
      ensures State() == SrcConnectCb(old(State()).(attempts := old(attempts) - 1), ok, script)
    {
      attempts := attempts - 1;
      OnSrcConnect(ok, script);
    }

    /** src_connect_cb; `ok` stands for a status of zero. */
    method OnSrcConnect(ok: bool, script: Script)
      requires Harmless(State(), script)
      modifies this
      ensures State() == SrcConnectCb(old(State()), ok, script)
    {
      connTimer := Off;
      if ok {
        match connected {
          case Connecting => ChainLinks();
          case Disconnected =>
            linkOpen := false;
            WithdrawAttempt();
          case _ => NoteSwap();
        }
      } else {
        ConnectFailed(script);
      }
    }

    /** The client only logs a message; what has happened to the chain is the source's doing. */
    ghost method NoteSwap()
      modifies this`epoch, this`linkOpen, this`log
      ensures State() == SwapSource(old(State()))
    {
      log := SwapSource(State()).log;
      epoch, linkOpen := epoch + 1, false;
    }

    method ConnectFailed(script: Script)
      requires Harmless(State(), script)
      modifies this
      ensures State() == FailAll(old(State()).(status := Disconnected), script).(wake := true)
    {
      connected := Disconnected;
      FailActiveRequest(script);
      proc := true;
    }

    /** src_connect_timeout. */
    method ConnectTimedOut(script: Script)
      requires Harmless(State(), script)
      modifies this
      ensures State() == CancelSource(SrcConnectCb(old(State()).(timer := Off), false, script))
    {
      connTimer := Off;
      OnSrcConnect(false, script);
      WithdrawAttempt();
    }

    ghost method WithdrawAttempt()
      modifies this`attempts
      ensures attempts == if old(attempts) > 0 then old(attempts) - 1 else 0
    {
      attempts := if attempts > 0 then attempts - 1 else 0;
    }

    method Handshake(hs: HandshakeStatus, script: Script)
      requires Harmless(State(), script)
      modifies this
      ensures State() == OnHandshake(old(State()), hs, script)
    {
      match hs {
        case HsComplete =>
          Establish();
        case HsError =>
          CloseAndFail(script);
        case HsOther =>
          CloseConn();
      }
    }

    method CloseAndFail(script: Script)
      requires Harmless(State(), script)
      modifies this
      ensures State() == FailAll(CloseConnection(old(State())), script)
    {
      CloseConn();
      FailActiveRequest(script);
    }

    method Establish()
      modifies this`connected, this`proc, this`log
      ensures State() == old(State()).(status := Connected, wake := true, log := old(log) + [Handshaken(epoch)])
    {
      connected := Connected;
      proc := true;
      log := log + [Handshaken(epoch)];
    }

    /** process_requests. `rc` is what the source's connect returns, `bodyDone`
        whether send_body reaches the end of the body. */
    method ProcessRequests(rc: int, bodyDone: bool, script: Script)
      requires Harmless(Activate(State()), script)
      modifies this
      ensures State() == HttpScheduler.ProcessRequests(old(State()), rc == 0, bodyDone, script)
    {
      proc := false;
      ActivateFirst();
      if active.None? {
        if connected == Connected && idleTime >= 0 {
          connTimer := IdleClose;
        }
        return;
      }
      if connected == Disconnected {
        StartConnect(rc, script);
      } else if connected == Connected {
        SendActive(bodyDone);
      }
    }

    method ActivateFirst()
      modifies this`active, this`activated, this`requests
      ensures State() == Activate(old(State()))
    {
      if active.None? && requests != [] {
        active := Some(Active(requests[0], Created));
        activated := activated + [requests[0]];
        requests := requests[1..];
      }
    }

    method StartConnect(rc: int, script: Script)
      requires Harmless(State(), script)
      modifies this
      ensures State() == Connect(old(State()), rc == 0, script)
    {
      connected := Connecting;
      if connectTimeout > 0 {
        connTimer := ConnectTimeout;
      }
      if rc != 0 {
        OnSrcConnect(false, script);
      } else {
        attempts := attempts + 1;
      }
    }

    method SendActive(bodyDone: bool)
      requires active.Some?
      modifies this
      ensures State() == SendBody(SendHead(old(State())), bodyDone)
    {
      if active.value.phase == Created {
        log := log + [Head(epoch, active.value.req)];
        active := Some(active.value.(phase := HeadersSent));
      }
      if active.value.phase == HeadersSent && bodyDone {
        active := Some(active.value.(phase := BodySent));
      }
    }

    /** http_req_process: the parser's callbacks, in order. */
    method Process(events: seq<ParserEvent>)
      requires active.Some? && ParserSpares(events, active.value.req)
      modifies this
      ensures State() == ParseAll(old(State()), events)
    {
      var i := 0;
      while i < |events|
        invariant 0 <= i <= |events| && active.Some? && active.value.req == old(active).value.req
        invariant ParseAll(State(), events[i..]) == ParseAll(old(State()), events)
      {
        ParseOne(events[i]);
        i := i + 1;
      }
    }

    method ParseOne(e: ParserEvent)
      requires active.Some? && Spares(e.calls, active.value.req)
      modifies this
      ensures State() == Parse(old(State()), e)
      ensures active.Some? && active.value.req == old(active).value.req
    {
      match e {
        case OnHeaders(us) =>
          active := Some(active.value.(phase := HeadersReceived));
          callbacks := callbacks + multiset{active.value.req};
        case OnBody(us) =>
        case OnMessage(us) =>
          active := Some(active.value.(phase := Completed));
      }
      RunCallback(e.calls);
    }

    method CompleteActive(keep: bool)
      requires active.Some?
      modifies this
      ensures State() == Complete(old(State()), keep)
    {
      var r := active.value.req;
      active := None;
      released := released + multiset{r};
      log := log + [Done(epoch, r, keep)];
      if !keep {
        CloseConn();
      } else {
        proc := true;
      }
    }
  }

  function HandshakeEvent(hs: HandshakeStatus, script: Script): Event {
    match hs
    case HsComplete => HandshakeComplete
    case HsError => HandshakeFailed(script)
    case HsOther => HandshakeUnexpected
  }
}
