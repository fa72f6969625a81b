/**
 The connect timeout. It is armed only while the client is connecting, in every
 run up to one kind of event: a TLS handshake that completes on a connection the
 client had already given up.
 */
module HttpTimeouts {
  import opened Options
  import opened HttpScheduler
  import opened HttpSwaps
  import opened HttpWire
  import opened HttpWakeups

  /** The connect timeout is armed only while connecting. */
  predicate TimeoutOk(c: Client) {
    c.timer == ConnectTimeout ==> c.status == Connecting
  }

  /** A handshake completes although the client has started another attempt. */
  predicate LateHandshake(c: Client, e: Event) {
    e.HandshakeComplete? && c.timer == ConnectTimeout
  }

  // ---------- one event breaks the rule ----------

  lemma SrcConnectTimeout(c: Client, ok: bool, script: Script)
    ensures TimeoutOk(SrcConnectCb(c, ok, script))
  {
    FailAllKeepsConnection(c.(timer := Off, status := Disconnected), script);
  }

  lemma ProcessTimeout(c: Client, connectOk: bool, bodyDone: bool, script: Script)
    requires TimeoutOk(c)
    ensures TimeoutOk(ProcessRequests(c, connectOk, bodyDone, script))
  {
    var c1 := Activate(c.(wake := false));
    if c1.active.Some? && c1.status == Disconnected && !connectOk {
      SrcConnectTimeout(Dialing(c1), false, script);
    }
  }

  lemma FailTimeout(c: Client, script: Script)
    requires c.timer == Off
    ensures TimeoutOk(FailAll(c, script))
  {
    FailAllKeepsConnection(c, script);
  }

  lemma DataTimeout(c: Client, es: seq<ParserEvent>, version: string, connection: Option<string>)
    requires TimeoutOk(c)
    ensures TimeoutOk(OnData(c, es, version, connection))
  {
    if c.active.Some? {
      ParseKeepsConnection(c, es);
    }
  }

  lemma CloseTimeout(c: Client)
    ensures TimeoutOk(CloseConnection(c)) && TimeoutOk(CloseConnection(c).(wake := true))
  {
  }

  lemma TimerTimeout(c: Client, script: Script)
    requires Enabled(c, TimerFires(script))
    ensures TimeoutOk(Step(c, TimerFires(script)))
  {
    if c.timer == IdleClose {
      CloseTimeout(c.(timer := Off));
    } else {
      SrcConnectTimeout(c.(timer := Off), false, script);
    }
  }

  /** Exactly one event breaks the rule, in whatever state it held. */
  lemma TimeoutBreaksIff(c: Client, e: Event)
    requires TimeoutOk(c) && Enabled(c, e)
    ensures TimeoutOk(Step(c, e)) <==> !LateHandshake(c, e)
  {
    match e
    case User(u) => CallKeepsConnection(c, u);
    case CancelAll(s) => CloseTimeout(FailAll(c, s));
    case Wake(ok, done, s) => ProcessTimeout(c, ok, done, s);
    case AttemptDone(ok, s) => SrcConnectTimeout(c.(attempts := c.attempts - 1), ok, s);
    case TimerFires(s) => TimerTimeout(c, s);
    case HandshakeFailed(s) => FailTimeout(CloseConnection(c), s);
    case ReadError(s) => CloseTimeout(if c.active.Some? then FailAll(c, s) else c);
    case ReadData(es, v, h) => DataTimeout(c, es, v, h);
    case _ =>
  }

  /** A run in which no handshake completes while the connect timeout is armed. */
  ghost predicate TimelyRuns(c: Client, es: seq<Event>, d: Client)
    decreases |es|
  {
    if es == [] then c == d
    else Enabled(c, es[0]) && !LateHandshake(c, es[0]) && TimelyRuns(Step(c, es[0]), es[1..], d)
  }

  lemma {:induction false} RunTimeout(c: Client, es: seq<Event>, d: Client)
    requires TimeoutOk(c) && TimelyRuns(c, es, d)
    ensures TimeoutOk(d)
    decreases |es|
  {
    if es != [] {
      TimeoutBreaksIff(c, es[0]);
      RunTimeout(Step(c, es[0]), es[1..], d);
    }
  }

  /** In every run, with overlapping attempts or not, in which no handshake
      completes while the timeout is armed. */
  lemma ConnectTimeoutOnlyConnecting(ssl: bool, es: seq<Event>, c: Client)
    requires TimelyRuns(Initial(ssl), es, c)
    ensures c.timer == ConnectTimeout ==> c.status == Connecting
  {
    RunTimeout(Initial(ssl), es, c);
  }

  // ---------- where no handshake is late ----------

  lemma {:induction false} PlainIsTimely(c: Client, es: seq<Event>, d: Client)
    requires Plain(c) && Runs(c, es, d) && SetTls !in es
    ensures TimelyRuns(c, es, d)
    decreases |es|
  {
    if es != [] {
      StepPlain(c, es[0]);
      PlainIsTimely(Step(c, es[0]), es[1..], d);
    }
  }

  lemma {:induction false} SafeIsTimely(c: Client, es: seq<Event>, d: Client)
    requires WireInv(c) && IdleOk(c) && Safe(c) && SafeRuns(c, es, d)
    ensures TimelyRuns(c, es, d)
    decreases |es|
  {
    if es != [] {
      StepWire(c, es[0]);
      StepIdle(c, es[0]);
      StepSafe(c, es[0]);
      SafeIsTimely(Step(c, es[0]), es[1..], d);
    }
  }

  /** No handshake is late in a plain-HTTP run, nor in one without overlapping attempts. */
  lemma TimelyWithoutTlsOrOverlap(ssl: bool, es: seq<Event>, c: Client)
    requires (!ssl && SetTls !in es && Runs(Initial(ssl), es, c)) || SafeRuns(Initial(ssl), es, c)
    ensures TimelyRuns(Initial(ssl), es, c)
  {
    if SafeRuns(Initial(ssl), es, c) {
      SafeIsTimely(Initial(ssl), es, c);
    } else {
      PlainIsTimely(Initial(ssl), es, c);
    }
  }

  // ---------- a late handshake ----------

  /** The first of two attempts connects, the second fails. */
  lemma FirstConnectsSecondFails(c: Client) returns (es: seq<Event>, d: Client)
    requires WireInv(c) && c.ssl && c.status == Connecting && c.attempts == 2
    ensures Runs(c, es, d) && TlsPending(d)
    ensures d.status == Disconnected && d.active.None? && d.queue == [] && d.connectTimeout == c.connectTimeout
  {
    var c1 := Step(c, AttemptDone(true, []));
    assert c1.log[|c.log|] == Opened(c1.epoch, true);
    assert Opened(c1.epoch, false) !in c.log && Handshaken(c1.epoch) !in c.log;
    assert TlsPending(c1);
    RunsOne(c, AttemptDone(true, []));
    FailAllEffect(c1.(attempts := 0, timer := Off, status := Disconnected), []);
    RunsAppend(c, [AttemptDone(true, [])], c1, AttemptDone(false, []));
    es := [AttemptDone(true, [])] + [AttemptDone(false, [])];
    d := Step(c1, AttemptDone(false, []));
  }

  /** The client tries again, and the handshake of the forgotten connection completes. */
  lemma RetryThenHandshake(c: Client) returns (es: seq<Event>, d: Client)
    requires TlsPending(c) && c.status == Disconnected && c.active.None? && c.queue == [] && c.connectTimeout > 0
    ensures Runs(c, es, d) && d.timer == ConnectTimeout && d.status == Connected
  {
    var c1 := Step(c, User(Submit));
    RunsOne(c, User(Submit));
    var c2 := Step(c1, AGAIN);
    RunsAppend(c, [User(Submit)], c1, AGAIN);
    es := [User(Submit)] + [AGAIN];
    RunsAppend(c, es, c2, HandshakeComplete);
    es := es + [HandshakeComplete];
    d := Step(c2, HandshakeComplete);
  }

  lemma LateHandshakeRun(c: Client) returns (es: seq<Event>, d: Client)
    requires WireInv(c) && c.ssl && c.wake && c.status == Disconnected && Activate(c).active.Some?
    requires c.attempts == 1 && c.connectTimeout > 0
    ensures Runs(c, es, d) && d.timer == ConnectTimeout && d.status == Connected
  {
    SecondAttempt(c);
    RunsOne(c, AGAIN);
    var c1 := Step(c, AGAIN);
    assert c1.ssl && c1.connectTimeout == c.connectTimeout;
    var es1, c2 := FirstConnectsSecondFails(c1);
    RunsJoin(c, [AGAIN], c1, es1, c2);
    var es2;
    es2, d := RetryThenHandshake(c2);
    es := [AGAIN] + es1 + es2;
    RunsJoin(c, [AGAIN] + es1, c2, es2, d);
  }

  /** Such a run exists: after it the client is connected and the timeout is armed. */
  lemma LateHandshakeIsReachable()
    ensures exists es: seq<Event>, c: Client ::
      Runs(Initial(true), es, c) && c.timer == ConnectTimeout && c.status == Connected
  {
    var es1, c1 := CancelWhileConnecting(true, 5);
    SafeRunsAreRuns(Initial(true), es1, c1);
    RunSafe(Initial(true), es1, c1);
    var es2, c2 := LateHandshakeRun(c1);
    RunsJoin(Initial(true), es1, c1, es2, c2);
  }
}
