/**
 When the client sleeps. The idle timer never interrupts a request, and while
 connection attempts do not overlap no wake-up is lost: whenever a request is
 unfinished, something that will move it on is already under way.
 */
module HttpWakeups {
  import opened CText
  import opened Options
  import opened HttpScheduler
  import opened HttpWire

  // ---------- the idle timer, in every run ----------

  predicate IdleOk(c: Client) {
    c.timer == IdleClose ==> c.status == Connected && c.active.None? && c.queue == []
  }

  lemma SrcConnectIdle(c: Client, ok: bool, script: Script)
    ensures IdleOk(SrcConnectCb(c, ok, script))
  {
    if !ok {
      FailAllEffect(c.(timer := Off, status := Disconnected), script);
    }
  }

  lemma DataIdle(c: Client, es: seq<ParserEvent>, version: string, connection: Option<string>)
    requires IdleOk(c)
    ensures IdleOk(OnData(c, es, version, connection))
  {
    if c.active.Some? {
      ParseEffect(c, es);
    }
  }

  lemma ProcessIdle(c: Client, connectOk: bool, bodyDone: bool, script: Script)
    requires IdleOk(c)
    ensures IdleOk(ProcessRequests(c, connectOk, bodyDone, script))
  {
    var c1 := Activate(c.(wake := false));
    if c1.active.Some? && c1.status == Disconnected && !connectOk {
      SrcConnectIdle(Dialing(c1), false, script);
    }
  }

  lemma FailIdle(c: Client, script: Script)
    ensures IdleOk(FailAll(CloseConnection(c), script))
  {
    CloseEffect(c);
    FailAllEffect(CloseConnection(c), script);
  }

  lemma ReadErrorIdle(c: Client, script: Script)
    ensures IdleOk(OnReadError(c, script))
  {
    CloseEffect(if c.active.Some? then FailAll(c, script) else c);
  }

  lemma StepIdle(c: Client, e: Event)
    requires IdleOk(c) && Enabled(c, e)
    ensures IdleOk(Step(c, e))
  {
    match e
    case User(u) => CallHasEffect(c, u);
    case Wake(ok, done, s) => ProcessIdle(c, ok, done, s);
    case AttemptDone(ok, s) => SrcConnectIdle(c.(attempts := c.attempts - 1), ok, s);
    case TimerFires(s) => SrcConnectIdle(c.(timer := Off), false, s);
    case HandshakeFailed(s) => FailIdle(c, s);
    case ReadError(s) => ReadErrorIdle(c, s);
    case ReadData(es, v, h) => DataIdle(c, es, v, h);
    case _ =>
  }

  lemma {:induction false} RunIdle(c: Client, es: seq<Event>, d: Client)
    requires IdleOk(c) && Runs(c, es, d)
    ensures IdleOk(d)
    decreases |es|
  {
    if es != [] {
      StepIdle(c, es[0]);
      RunIdle(Step(c, es[0]), es[1..], d);
    }
  }

  /** When the idle timer fires there is no request to interrupt. */
  lemma IdleCloseInterruptsNothing(ssl: bool, es: seq<Event>, c: Client)
    requires Runs(Initial(ssl), es, c) && c.timer == IdleClose
    ensures c.status == Connected && c.active.None? && c.queue == []
  {
    RunIdle(Initial(ssl), es, c);
  }

  // ---------- wake-ups, while attempts do not overlap ----------

  /** A second connection attempt is not started while one is outstanding. */
  predicate NoOverlap(c: Client, e: Event) {
    e.Wake? && c.status == Disconnected && Activate(c).active.Some? ==> c.attempts == 0
  }

  ghost predicate SafeRuns(c: Client, es: seq<Event>, d: Client)
    decreases |es|
  {
    if es == [] then c == d
    else Enabled(c, es[0]) && NoOverlap(c, es[0]) && SafeRuns(Step(c, es[0]), es[1..], d)
  }

  predicate Scheduled(c: Client) {
    c.wake || c.closings > 0
  }

  ghost predicate Safe(c: Client) {
    && (c.linkOpen <==> c.status in {Handshaking, Connected})
    && (c.status == Handshaking ==> !Established(c.log, c.epoch))
    && c.attempts <= 1
    && (c.status == Connecting ==> c.attempts == 1)
    && (c.linkOpen ==> c.attempts == 0)
    && (c.timer == ConnectTimeout ==> c.status == Connecting)
    && (c.active.None? && c.queue != [] ==> Scheduled(c))
    && (c.active.Some? && c.status == Disconnected ==> Scheduled(c))
    && (c.active.Some? && c.status == Connected && c.active.value.phase == Created ==> c.wake)
  }

  lemma MakeLinksSafe(c: Client)
    requires WireInv(c) && c.status == Connecting && c.attempts == 0 && c.timer == Off
    requires c.active.None? && c.queue != [] ==> Scheduled(c)
    ensures Safe(MakeLinks(c))
  {
    assert Opened(c.epoch + 1, true) !in c.log && Opened(c.epoch + 1, false) !in c.log;
    assert Handshaken(c.epoch + 1) !in c.log;
  }

  lemma SrcConnectSafe(c: Client, ok: bool, script: Script)
    requires WireInv(c) && c.attempts == 0 && c.status in {Connecting, Disconnected} && !c.linkOpen
    requires c.active.None? && c.queue != [] ==> Scheduled(c)
    requires c.active.Some? && c.status == Disconnected ==> Scheduled(c)
    ensures Safe(SrcConnectCb(c, ok, script))
  {
    if ok && c.status == Connecting {
      MakeLinksSafe(c.(timer := Off));
    } else if !ok {
      FailAllEffect(c.(timer := Off, status := Disconnected), script);
    }
  }

  lemma ConnectSafe(c: Client, ok: bool, script: Script)
    requires WireInv(c) && c.status == Disconnected && c.active.Some?
    requires c.attempts == 0 && !c.linkOpen && c.timer == Off
    ensures Safe(Connect(c, ok, script))
  {
    if !ok {
      var c' := Dialing(c);
      WireDepends(c, c');
      SrcConnectSafe(c', false, script);
    }
  }

  lemma ProcessSafe(c: Client, connectOk: bool, bodyDone: bool, script: Script)
    requires WireInv(c) && IdleOk(c) && Safe(c) && NoOverlap(c, Wake(connectOk, bodyDone, script))
    ensures Safe(ProcessRequests(c, connectOk, bodyDone, script))
  {
    var c1 := Activate(c.(wake := false));
    if c1.active.Some? && c1.status == Disconnected {
      WireDepends(c, c1);
      ConnectSafe(c1, connectOk, script);
    } else if c1.active.Some? && c1.status == Connected {
      StillUnestablished(c1);
    }
  }

  /** Writing a head does not change how far the handshake is. */
  lemma StillUnestablished(c: Client)
    requires c.active.Some?
    ensures Established(SendHead(c).log, c.epoch) <==> Established(c.log, c.epoch)
  {
  }

  lemma CloseSafe(c: Client)
    requires Safe(c) && (c.status == Connecting ==> c.active.None? && c.queue == [])
    ensures Safe(CloseConnection(c))
  {
  }

  lemma FailAllSafe(c: Client, script: Script)
    requires Safe(c)
    ensures Safe(FailAll(c, script)) && FailAll(c, script).active.None? && FailAll(c, script).queue == []
  {
    FailAllEffect(c, script);
  }

  lemma CallSafe(c: Client, u: UserCall)
    requires Safe(c)
    ensures Safe(Call(c, u))
  {
    CallHasEffect(c, u);
  }

  lemma CancelAllSafe(c: Client, script: Script)
    requires Safe(c)
    ensures Safe(CloseConnection(FailAll(c, script)))
  {
    FailAllSafe(c, script);
    CloseSafe(FailAll(c, script));
  }

  lemma HandshakeSafe(c: Client, e: Event)
    requires WireInv(c) && Safe(c) && Enabled(c, e)
    requires e.HandshakeComplete? || e.HandshakeFailed? || e.HandshakeUnexpected?
    ensures Safe(Step(c, e))
  {
    if e.HandshakeComplete? {
      assert Established(c.log + [Handshaken(c.epoch)], c.epoch);
    } else {
      CloseSafe(c);
      if e.HandshakeFailed? {
        FailAllSafe(CloseConnection(c), e.script);
      }
    }
  }

  lemma ReadErrorSafe(c: Client, script: Script)
    requires Safe(c) && c.linkOpen
    ensures Safe(OnReadError(c, script))
  {
    FailAllEffect(c, script);
    CloseSafe(if c.active.Some? then FailAll(c, script) else c);
  }

  lemma CompleteSafe(c: Client, keep: bool)
    requires Safe(c) && c.active.Some? && c.status == Connected
    ensures Safe(Complete(c, keep))
  {
  }

  lemma DataSafe(c: Client, es: seq<ParserEvent>, version: string, connection: Option<string>)
    requires Safe(c) && Enabled(c, ReadData(es, version, connection))
    ensures Safe(OnData(c, es, version, connection))
  {
    if c.active.Some? {
      ParseEffect(c, es);
      var c1 := ParseAll(c, es);
      assert Safe(c1);
      if c1.active.value.phase == Completed {
        CompleteSafe(c1, KeepAlive(version, connection));
      }
    }
  }

  lemma TimerSafe(c: Client, script: Script)
    requires WireInv(c) && IdleOk(c) && Safe(c) && Enabled(c, TimerFires(script))
    ensures Safe(Step(c, TimerFires(script)))
  {
    if c.timer == IdleClose {
      CloseSafe(c.(timer := Off));
    } else {
      FailAllEffect(c.(timer := Off, status := Disconnected), script);
    }
  }

  lemma AttemptSafe(c: Client, ok: bool, script: Script)
    requires WireInv(c) && Safe(c) && Enabled(c, AttemptDone(ok, script))
    ensures Safe(Step(c, AttemptDone(ok, script)))
  {
    var c' := c.(attempts := c.attempts - 1);
    WireDepends(c, c');
    SrcConnectSafe(c', ok, script);
  }

  lemma StepSafe(c: Client, e: Event)
    requires WireInv(c) && IdleOk(c) && Safe(c) && Enabled(c, e) && NoOverlap(c, e)
    ensures Safe(Step(c, e))
  {
    match e
    case User(u) => CallSafe(c, u);
    case CancelAll(s) => CancelAllSafe(c, s);
    case Wake(ok, done, s) => ProcessSafe(c, ok, done, s);
    case AttemptDone(ok, s) => AttemptSafe(c, ok, s);
    case TimerFires(s) => TimerSafe(c, s);
    case HandshakeComplete => HandshakeSafe(c, e);
    case HandshakeFailed(_) => HandshakeSafe(c, e);
    case HandshakeUnexpected => HandshakeSafe(c, e);
    case ReadError(s) => ReadErrorSafe(c, s);
    case ReadData(es, v, h) => DataSafe(c, es, v, h);
    case _ =>
  }

  lemma {:induction false} RunSafe(c: Client, es: seq<Event>, d: Client)
    requires WireInv(c) && IdleOk(c) && Safe(c) && SafeRuns(c, es, d)
    ensures WireInv(d) && IdleOk(d) && Safe(d)
    decreases |es|
  {
    if es != [] {
      StepWire(c, es[0]);
      StepIdle(c, es[0]);
      StepSafe(c, es[0]);
      RunSafe(Step(c, es[0]), es[1..], d);
    }
  }

  /** Something that moves the work on is under way: a wake-up, the completion
      of a link close (which sends one), the outcome of a connection attempt, a
      handshake, or the response to a head that was written. */
  predicate UnderWay(c: Client) {
    || Scheduled(c)
    || (c.status == Connecting && c.attempts > 0)
    || (c.status == Handshaking && c.linkOpen)
    || (c.status == Connected && c.linkOpen && c.active.Some? && c.active.value.phase != Created)
  }

  /** No wake-up is lost. */
  lemma NoLostWakeup(ssl: bool, es: seq<Event>, c: Client)
    requires SafeRuns(Initial(ssl), es, c)
    ensures c.active.None? && c.queue != [] ==> Scheduled(c)
    ensures c.active.Some? || c.queue != [] ==> UnderWay(c)
  {
    RunSafe(Initial(ssl), es, c);
  }

  // ---------- what goes wrong when attempts overlap ----------

  /** A queued request, and nothing under way that would look at it. */
  predicate Stranded(c: Client) {
    && c.active.None? && c.queue != [] && !Scheduled(c) && c.attempts == 0 && c.status == Disconnected
    && c.timer == Off && !c.linkOpen
  }

  /** Only the user can still get a stranded client going. */
  predicate Rescues(e: Event) {
    e.User? || e.CancelAll?
  }

  lemma StrandedStays(c: Client, e: Event)
    requires Stranded(c) && Enabled(c, e) && !Rescues(e)
    ensures Stranded(Step(c, e)) && Step(c, e).queue == c.queue
  {
  }

  /** However long the client runs on its own, the request stays where it is. */
  lemma {:induction false} StrandedForGood(c: Client, es: seq<Event>, d: Client)
    requires Stranded(c) && Runs(c, es, d) && forall i :: 0 <= i < |es| ==> !Rescues(es[i])
    ensures Stranded(d) && d.queue == c.queue
    decreases |es|
  {
    if es != [] {
      StrandedStays(c, es[0]);
      StrandedForGood(Step(c, es[0]), es[1..], d);
    }
  }

  lemma {:induction false} RunsAppend(c: Client, es: seq<Event>, d: Client, e: Event)
    requires Runs(c, es, d) && Enabled(d, e)
    ensures Runs(c, es + [e], Step(d, e))
    decreases |es|
  {
    if es == [] {
      assert (es + [e])[1..] == [];
    } else {
      assert (es + [e])[1..] == es[1..] + [e];
      RunsAppend(Step(c, es[0]), es[1..], d, e);
    }
  }

  lemma {:induction false} FinishClosings(c: Client) returns (es: seq<Event>, d: Client)
    ensures Runs(c, es, d) && d == c.(closings := 0, wake := d.wake) && (c.wake ==> d.wake)
    decreases c.closings
  {
    if c.closings == 0 {
      return [], c;
    }
    var rest;
    rest, d := FinishClosings(Step(c, LinkClosed));
    es := [LinkClosed] + rest;
    assert es[1..] == rest;
  }

  /** Both attempts report: the first connects, the second fails all requests
      and forgets the connection without closing it. */
  lemma BothReport(c: Client) returns (es: seq<Event>, d: Client)
    requires c.status == Connecting && c.attempts == 2 && c.closings == 0 && WireInv(c)
    ensures Runs(c, es, d)
    ensures d.status == Disconnected && d.active.None? && d.queue == [] && d.attempts == 0 && d.closings == 0
    ensures d.linkOpen && Established(d.log, d.epoch)
  {
    var es1, c1 := FirstReports(c);
    var second := AttemptDone(false, []);
    FailAllEffect(c1.(attempts := 0, timer := Off, status := Disconnected), []);
    RunsAppend(c, es1, c1, second);
    es := es1 + [second];
    d := Step(c1, second);
  }

  /** The first of two attempts connects and, with TLS, completes its handshake. */
  lemma FirstReports(c: Client) returns (es: seq<Event>, d: Client)
    requires c.status == Connecting && c.attempts == 2 && WireInv(c)
    ensures Runs(c, es, d) && WireInv(d) && d.status == Connected && d.wake && d.linkOpen
    ensures d.attempts == 1 && d.closings == c.closings && d.active == c.active && d.queue == c.queue
    ensures Established(d.log, d.epoch) && (c.ssl ==> OverTls(d))
  {
    var first := AttemptDone(true, []);
    RunsOne(c, first);
    StepWire(c, first);
    es, d := [first], Step(c, first);
    assert d.log[|c.log|] == Opened(d.epoch, c.ssl);
    if c.ssl {
      var c1 := d;
      assert Opened(c1.epoch, false) !in c.log && Handshaken(c1.epoch) !in c.log;
      assert TlsPending(c1);
      RunsAppend(c, es, c1, HandshakeComplete);
      StepWire(c1, HandshakeComplete);
      es, d := es + [HandshakeComplete], Step(c1, HandshakeComplete);
      assert d.log[|c1.log|] == Handshaken(d.epoch) && d.log[|c.log|] == Opened(d.epoch, true);
    }
  }

  const LATE := ReadData([OnHeaders([]), OnMessage([])], "1.1", Some("close"))

  lemma LateResponse(c: Client)
    requires c.linkOpen && Established(c.log, c.epoch) && c.active.Some? && c.status == Connecting
    ensures Enabled(c, LATE)
    ensures var d := Step(c, LATE);
      d.active.None? && d.status == Disconnected && d.queue == c.queue && d.wake == c.wake &&
      d.closings == c.closings && d.attempts == c.attempts && Established(d.log, d.epoch)
  {
    assert Lower("close") == "close" by {
      assert Lower("e") == "e" && Lower("se") == "se" && Lower("ose") == "ose" && Lower("lose") == "lose";
    }
    var a := c.active.value;
    var c1 := Parse(c, OnHeaders([]));
    assert c1 == c.(active := Some(a.(phase := HeadersReceived)), callbacks := c.callbacks + multiset{a.req});
    var c2 := Parse(c1, OnMessage([]));
    assert LATE.events[1..] == [OnMessage([])] && LATE.events[1..][1..] == [];
    assert ParseAll(c1, LATE.events[1..]) == c2;
    assert ParseAll(c, LATE.events) == c2;
  }

  lemma RunsOne(c: Client, e: Event)
    requires Enabled(c, e)
    ensures Runs(c, [e], Step(c, e))
  {
    assert [e][1..] == [];
  }

  lemma {:induction false} RunsJoin(c: Client, es: seq<Event>, m: Client, fs: seq<Event>, d: Client)
    requires Runs(c, es, m) && Runs(m, fs, d)
    ensures Runs(c, es + fs, d)
    decreases |es|
  {
    if es == [] {
      assert es + fs == fs;
    } else {
      assert (es + fs)[1..] == es[1..] + fs;
      RunsJoin(Step(c, es[0]), es[1..], m, fs, d);
    }
  }

  /** Two requests come in, and the first of them starts an attempt. */
  lemma TwoMore(c: Client) returns (es: seq<Event>, d: Client)
    requires c.status == Disconnected && c.active.None? && c.queue == [] && c.attempts == 0 && c.closings == 0
    ensures Runs(c, es, d) && d.status == Connecting && d.active.Some? && d.queue == [c.next + 1] && !d.wake
    ensures d.attempts == 1 && d.closings == 0 && d.linkOpen == c.linkOpen && d.log == c.log && d.epoch == c.epoch
  {
    var c1 := Step(c, User(Submit));
    var c2 := Step(c1, User(Submit));
    RunsOne(c, User(Submit));
    RunsAppend(c, [User(Submit)], c1, User(Submit));
    es := [User(Submit)] + [User(Submit)];
    assert c2.queue == [c.next, c.next + 1];
    RunsAppend(c, es, c2, AGAIN);
    es := es + [AGAIN];
    d := Step(c2, AGAIN);
  }

  /** The response that was on its way over the forgotten connection then
      answers the next request and strands the one after it. */
  lemma LateResponseStrands(c: Client) returns (es: seq<Event>, d: Client)
    requires c.status == Disconnected && c.active.None? && c.queue == [] && c.attempts == 0 && c.closings == 0
    requires c.linkOpen && Established(c.log, c.epoch)
    ensures Runs(c, es, d) && Stranded(d)
  {
    var es1, c1 := TwoMore(c);
    LateResponse(c1);
    RunsAppend(c, es1, c1, LATE);
    var c2 := Step(c1, LATE);
    RunsAppend(c, es1 + [LATE], c2, AttemptDone(true, []));
    es := es1 + [LATE] + [AttemptDone(true, [])];
    d := Step(c2, AttemptDone(true, []));
  }

  const AGAIN := Wake(true, false, [])

  lemma SecondAttempt(c: Client)
    requires WireInv(c) && c.wake && c.status == Disconnected && Activate(c).active.Some? && c.attempts == 1
    ensures Enabled(c, AGAIN) && WireInv(Step(c, AGAIN))
    ensures var d := Step(c, AGAIN); d.status == Connecting && d.attempts == 2 && d.closings == c.closings
  {
    ProcessWire(c, true, false, []);
  }

  lemma OverlapRun(c: Client) returns (es: seq<Event>, d: Client)
    requires WireInv(c) && c.wake && c.status == Disconnected && Activate(c).active.Some?
    requires c.attempts == 1 && c.closings == 0
    ensures Runs(c, es, d) && Stranded(d)
  {
    SecondAttempt(c);
    RunsOne(c, AGAIN);
    var es1, c1 := BothReport(Step(c, AGAIN));
    RunsJoin(c, [AGAIN], Step(c, AGAIN), es1, c1);
    var es2;
    es2, d := LateResponseStrands(c1);
    es := [AGAIN] + es1 + es2;
    RunsJoin(c, [AGAIN] + es1, c1, es2, d);
  }

  /** From every safe state in which a wake-up is about to start a second
      attempt, there is a run that strands a request. */
  lemma OverlapCanStrand(c: Client)
    requires WireInv(c) && Safe(c) && c.wake && !NoOverlap(c, AGAIN)
    ensures exists es: seq<Event>, d: Client :: Runs(c, es, d) && Stranded(d)
  {
    var es1, c1 := FinishClosings(c);
    WireDepends(c, c1);
    var es2, d := OverlapRun(c1);
    RunsJoin(c, es1, c1, es2, d);
  }

  lemma {:induction false} SafeRunsAppend(c: Client, es: seq<Event>, d: Client, e: Event)
    requires SafeRuns(c, es, d) && Enabled(d, e) && NoOverlap(d, e)
    ensures SafeRuns(c, es + [e], Step(d, e))
    decreases |es|
  {
    if es == [] {
      assert (es + [e])[1..] == [];
    } else {
      assert (es + [e])[1..] == es[1..] + [e];
      SafeRunsAppend(Step(c, es[0]), es[1..], d, e);
    }
  }

  lemma {:induction false} SafeRunsAreRuns(c: Client, es: seq<Event>, d: Client)
    requires SafeRuns(c, es, d)
    ensures Runs(c, es, d)
    decreases |es|
  {
    if es != [] {
      SafeRunsAreRuns(Step(c, es[0]), es[1..], d);
    }
  }

  /** Cancelling everything while a connection attempt is outstanding: the
      next submit is about to start a second one. */
  lemma CancelWhileConnecting(ssl: bool, millis: int) returns (es: seq<Event>, c: Client)
    ensures SafeRuns(Initial(ssl), es, c) && c.wake && !NoOverlap(c, AGAIN)
    ensures c.status == Disconnected && c.attempts == 1 && c.closings == 0
    ensures Activate(c).active.Some? && Activate(c).active.value.phase == Created
    ensures c.ssl == ssl && c.connectTimeout == millis
  {
    var es1, c1 := FirstAttempt(ssl, millis);
    FailAllEffect(c1, []);
    var c2 := Step(c1, CancelAll([]));
    SafeRunsAppend(Initial(ssl), es1, c1, CancelAll([]));
    SafeRunsAppend(Initial(ssl), es1 + [CancelAll([])], c2, User(Submit));
    es := es1 + [CancelAll([])] + [User(Submit)];
    c := Step(c2, User(Submit));
  }

  lemma FirstAttempt(ssl: bool, millis: int) returns (es: seq<Event>, c: Client)
    ensures SafeRuns(Initial(ssl), es, c)
    ensures c.status == Connecting && c.attempts == 1 && c.closings == 0 && c.ssl == ssl && c.connectTimeout == millis
  {
    var c0 := Initial(ssl);
    var c1 := Step(c0, SetConnectTimeout(millis));
    SafeRunsAppend(c0, [], c0, SetConnectTimeout(millis));
    var c2 := Step(c1, User(Submit));
    SafeRunsAppend(c0, [] + [SetConnectTimeout(millis)], c1, User(Submit));
    es := [] + [SetConnectTimeout(millis)] + [User(Submit)];
    SafeRunsAppend(c0, es, c2, AGAIN);
    es := es + [AGAIN];
    c := Step(c2, AGAIN);
  }

  /** Cancelling everything while a connection attempt is outstanding leads there. */
  lemma OverlapIsReachable(ssl: bool)
    ensures exists es: seq<Event>, c: Client :: SafeRuns(Initial(ssl), es, c) && c.wake && !NoOverlap(c, AGAIN)
  {
    var es, c := CancelWhileConnecting(ssl, 0);
  }
}
