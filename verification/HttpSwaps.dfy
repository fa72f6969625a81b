/**
 Connections a running TLS session is moved to. While the client is connected
 over TLS, a second connection attempt that succeeds gives the chain another
 socket; request heads then go out where no handshake took place. No other event
 does this, and without TLS or without overlapping attempts it cannot happen.
 */
module HttpSwaps {
  import opened Options
  import opened HttpScheduler
  import opened HttpWire
  import opened HttpWakeups

  /** An attempt succeeds although the client is connected over TLS. */
  predicate LateSwap(c: Client, e: Event) {
    e.AttemptDone? && e.ok && c.status == Connected && OverTls(c)
  }

  // ---------- what requests and callbacks leave alone ----------

  ghost predicate SameConnection(c: Client, d: Client) {
    && d.log == c.log && d.epoch == c.epoch && d.ssl == c.ssl && d.status == c.status
    && (d.timer == c.timer || d.timer == Off)
  }

  lemma CallKeepsConnection(c: Client, u: UserCall)
    ensures SameConnection(c, Call(c, u))
  {
    CallHasEffect(c, u);
  }

  lemma FailAllKeepsConnection(c: Client, script: Script)
    ensures SameConnection(c, FailAll(c, script))
  {
    FailAllEffect(c, script);
  }

  lemma ParseKeepsConnection(c: Client, es: seq<ParserEvent>)
    requires c.active.Some?
    ensures SameConnection(c, ParseAll(c, es))
  {
    ParseEffect(c, es);
  }

  // ---------- what an event adds to the log ----------

  predicate Fitting(c: Client, x: Entry, late: bool) {
    match x
    case Moved(_) => late
    case Opened(_, tls) => tls ==> c.ssl || OverTls(c)
    case _ => true
  }

  ghost predicate Extends(c: Client, d: Client, late: bool) {
    d.log == c.log ||
    (|d.log| == |c.log| + 1 && d.log[..|c.log|] == c.log && Fitting(c, d.log[|c.log|], late))
  }

  lemma SrcConnectExtends(c: Client, ok: bool, script: Script)
    ensures Extends(c, SrcConnectCb(c, ok, script), ok && c.status == Connected && OverTls(c))
    ensures SrcConnectCb(c, ok, script).ssl == c.ssl
  {
    if !ok {
      FailAllKeepsConnection(c.(timer := Off, status := Disconnected), script);
    }
  }

  lemma ProcessExtends(c: Client, connectOk: bool, bodyDone: bool, script: Script)
    ensures var d := ProcessRequests(c, connectOk, bodyDone, script); Extends(c, d, false) && d.ssl == c.ssl
  {
    var c1 := Activate(c.(wake := false));
    if c1.active.Some? && c1.status == Disconnected {
      ConnectExtends(c1, connectOk, script);
    }
  }

  lemma ConnectExtends(c: Client, ok: bool, script: Script)
    ensures var d := Connect(c, ok, script); d.log == c.log && d.ssl == c.ssl
  {
    if !ok {
      FailAllKeepsConnection(Dialing(c).(timer := Off, status := Disconnected), script);
    }
  }

  lemma FailExtends(c: Client, script: Script)
    ensures var d := CloseConnection(FailAll(c, script)); d.log == c.log && d.ssl == c.ssl
    ensures var d := FailAll(CloseConnection(c), script); d.log == c.log && d.ssl == c.ssl
  {
    FailAllKeepsConnection(c, script);
    FailAllKeepsConnection(CloseConnection(c), script);
  }

  lemma ReadErrorExtends(c: Client, script: Script)
    ensures var d := OnReadError(c, script); d.log == c.log && d.ssl == c.ssl
  {
    if c.active.Some? {
      FailAllKeepsConnection(c, script);
    }
  }

  lemma TimerExtends(c: Client, script: Script)
    requires Enabled(c, TimerFires(script))
    ensures var d := Step(c, TimerFires(script)); d.log == c.log && d.ssl == c.ssl
  {
    if c.timer != IdleClose {
      FailAllKeepsConnection(c.(timer := Off, status := Disconnected), script);
    }
  }

  lemma DataExtends(c: Client, es: seq<ParserEvent>, version: string, connection: Option<string>)
    ensures var d := OnData(c, es, version, connection); Extends(c, d, false) && d.ssl == c.ssl
  {
    if c.active.Some? {
      ParseKeepsConnection(c, es);
    }
  }

  lemma StepExtends(c: Client, e: Event)
    requires Enabled(c, e)
    ensures Extends(c, Step(c, e), LateSwap(c, e)) && (e != SetTls ==> Step(c, e).ssl == c.ssl)
  {
    match e
    case User(u) => CallKeepsConnection(c, u);
    case CancelAll(s) => FailExtends(c, s);
    case Wake(ok, done, s) => ProcessExtends(c, ok, done, s);
    case AttemptDone(ok, s) => SrcConnectExtends(c.(attempts := c.attempts - 1), ok, s);
    case TimerFires(s) => TimerExtends(c, s);
    case HandshakeFailed(s) => FailExtends(c, s);
    case ReadError(s) => ReadErrorExtends(c, s);
    case ReadData(es, v, h) => DataExtends(c, es, v, h);
    case _ =>
  }

  // ---------- one event moves a session ----------

  ghost predicate NoMoves(log: seq<Entry>) {
    forall i :: 0 <= i < |log| ==> !log[i].Moved?
  }

  /** Exactly one kind of event moves a session, in whatever state none was moved. */
  lemma MovesIff(c: Client, e: Event)
    requires NoMoves(c.log) && Enabled(c, e)
    ensures NoMoves(Step(c, e).log) <==> !LateSwap(c, e)
  {
    var d := Step(c, e);
    StepExtends(c, e);
    if LateSwap(c, e) {
      assert d.log[|c.log|] == Moved(c.epoch + 1);
    } else {
      forall i | 0 <= i < |d.log| ensures !d.log[i].Moved? {
        if i < |c.log| {
          assert d.log[i] == d.log[..|c.log|][i];
        }
      }
    }
  }

  /** Whatever goes out next then goes out on a connection that is not usable. */
  lemma LateSwapMisleads(c: Client, e: Event, w: Event)
    requires WireInv(c) && Enabled(c, e) && LateSwap(c, e)
    requires var d := Step(c, e);
      w.Wake? && Enabled(d, w) && Activate(d).active.Some? && Activate(d).active.value.phase == Created
    ensures var d := Step(c, e); var log := Step(d, w).log;
      log == d.log + [Head(d.epoch, Activate(d).active.value.req)] && !Usable(d.log, d.epoch)
  {
    var d := Step(c, e);
    assert Opened(d.epoch, true) !in c.log && Opened(d.epoch, false) !in c.log;
  }

  /** A run without such an event. */
  ghost predicate SwapFreeRuns(c: Client, es: seq<Event>, d: Client)
    decreases |es|
  {
    if es == [] then c == d
    else Enabled(c, es[0]) && !LateSwap(c, es[0]) && SwapFreeRuns(Step(c, es[0]), es[1..], d)
  }

  lemma {:induction false} RunSwapFree(c: Client, es: seq<Event>, d: Client)
    requires WireInv(c) && NoMoves(c.log) && SwapFreeRuns(c, es, d)
    ensures WireInv(d) && NoMoves(d.log)
    decreases |es|
  {
    if es != [] {
      StepWire(c, es[0]);
      MovesIff(c, es[0]);
      RunSwapFree(Step(c, es[0]), es[1..], d);
    }
  }

  /** Every head of such a run, overlapping attempts or not, goes out on a usable connection. */
  lemma HeadsOnUsableConnections(ssl: bool, es: seq<Event>, c: Client, i: nat)
    requires SwapFreeRuns(Initial(ssl), es, c) && i < |c.log| && c.log[i].Head?
    ensures Usable(c.log[..i], c.log[i].epoch)
  {
    RunSwapFree(Initial(ssl), es, c);
    GoodHead(c, i);
  }

  // ---------- where no session is moved ----------

  /** No connection of this client uses TLS. */
  ghost predicate Plain(c: Client) {
    !c.ssl && forall i :: 0 <= i < |c.log| ==> !c.log[i].Moved? && !(c.log[i].Opened? && c.log[i].tls)
  }

  lemma StepPlain(c: Client, e: Event)
    requires Plain(c) && Enabled(c, e) && e != SetTls
    ensures Plain(Step(c, e)) && !e.HandshakeComplete? && !LateSwap(c, e)
  {
    var d := Step(c, e);
    assert !OverTls(c) && !TlsPending(c);
    StepExtends(c, e);
    forall i | 0 <= i < |d.log| ensures !d.log[i].Moved? && !(d.log[i].Opened? && d.log[i].tls) {
      if i < |c.log| {
        assert d.log[i] == d.log[..|c.log|][i];
      }
    }
  }

  lemma {:induction false} PlainIsSwapFree(c: Client, es: seq<Event>, d: Client)
    requires Plain(c) && Runs(c, es, d) && SetTls !in es
    ensures SwapFreeRuns(c, es, d)
    decreases |es|
  {
    if es != [] {
      StepPlain(c, es[0]);
      PlainIsSwapFree(Step(c, es[0]), es[1..], d);
    }
  }

  lemma {:induction false} SafeIsSwapFree(c: Client, es: seq<Event>, d: Client)
    requires WireInv(c) && IdleOk(c) && Safe(c) && SafeRuns(c, es, d)
    ensures SwapFreeRuns(c, es, d)
    decreases |es|
  {
    if es != [] {
      StepWire(c, es[0]);
      StepIdle(c, es[0]);
      StepSafe(c, es[0]);
      SafeIsSwapFree(Step(c, es[0]), es[1..], d);
    }
  }

  /** No session is moved in a plain-HTTP run, nor in one without overlapping attempts. */
  lemma SwapFreeWithoutTlsOrOverlap(ssl: bool, es: seq<Event>, c: Client)
    requires (!ssl && SetTls !in es && Runs(Initial(ssl), es, c)) || SafeRuns(Initial(ssl), es, c)
    ensures SwapFreeRuns(Initial(ssl), es, c)
  {
    if SafeRuns(Initial(ssl), es, c) {
      SafeIsSwapFree(Initial(ssl), es, c);
    } else {
      PlainIsSwapFree(Initial(ssl), es, c);
    }
  }

  // ---------- a session that is moved ----------

  /** The second attempt succeeds too, and the request goes out. */
  lemma SecondIsUsed(c: Client) returns (es: seq<Event>, d: Client, i: nat)
    requires WireInv(c) && c.status == Connected && c.attempts == 1 && c.wake && OverTls(c)
    requires c.active.Some? && c.active.value.phase == Created
    ensures Runs(c, es, d) && i < |d.log| && d.log[i].Head? && !Usable(d.log[..i], d.log[i].epoch)
  {
    var e := AttemptDone(true, []);
    var c1 := Step(c, e);
    RunsOne(c, e);
    LateSwapMisleads(c, e, AGAIN);
    RunsAppend(c, [e], c1, AGAIN);
    es := [e] + [AGAIN];
    d := Step(c1, AGAIN);
    i := |c1.log|;
    assert d.log[..i] == c1.log;
  }

  lemma MisledRun(c: Client) returns (es: seq<Event>, d: Client, i: nat)
    requires WireInv(c) && c.ssl && c.wake && c.status == Disconnected && c.attempts == 1
    requires Activate(c).active.Some? && Activate(c).active.value.phase == Created
    ensures Runs(c, es, d) && i < |d.log| && d.log[i].Head? && !Usable(d.log[..i], d.log[i].epoch)
  {
    SecondAttempt(c);
    RunsOne(c, AGAIN);
    var c1 := Step(c, AGAIN);
    assert c1.ssl && c1.active == Activate(c).active;
    var es1, c2 := FirstReports(c1);
    RunsJoin(c, [AGAIN], c1, es1, c2);
    var es2;
    es2, d, i := SecondIsUsed(c2);
    es := [AGAIN] + es1 + es2;
    RunsJoin(c, [AGAIN] + es1, c2, es2, d);
  }

  /** There is a run that writes a head on a connection that is not usable. */
  lemma MovedSessionIsReachable()
    ensures exists es: seq<Event>, c: Client, i: nat ::
      Runs(Initial(true), es, c) && i < |c.log| && c.log[i].Head? && !Usable(c.log[..i], c.log[i].epoch)
  {
    var es1, c1 := CancelWhileConnecting(true, 0);
    SafeRunsAreRuns(Initial(true), es1, c1);
    RunSafe(Initial(true), es1, c1);
    var es2, c2, i := MisledRun(c1);
    RunsJoin(Initial(true), es1, c1, es2, c2);
  }
}
