/**
 What happens to requests, in every run of the scheduler: none is lost or
 duplicated, they become active in the order of submission, and none is released
 before its response callback has run.
 */
module HttpRequests {
  import opened Options
  import opened HttpScheduler

  ghost predicate Increasing(s: seq<Req>) {
    forall i, j :: 0 <= i < j < |s| ==> s[i] < s[j]
  }

  function QueueCount(c: Client, r: Req): nat {
    if r in c.queue then 1 else 0
  }

  function ActiveCount(c: Client, r: Req): nat {
    if c.active.Some? && c.active.value.req == r then 1 else 0
  }

  ghost predicate Ordered(c: Client) {
    && Increasing(c.queue) && Increasing(c.activated)
    && (forall a, q :: a in c.activated && q in c.queue ==> a < q)
    && (forall a :: a in c.activated ==> a < c.next)
    && (c.active.Some? ==> c.active.value.req in c.activated)
  }

  /** A submitted request is in exactly one place; `flight` holds those whose
      callback is running after they left the queue. */
  ghost predicate Conserved(c: Client, flight: multiset<Req>, r: Req) {
    QueueCount(c, r) + ActiveCount(c, r) + c.released[r] + flight[r] == if r < c.next then 1 else 0
  }

  ghost predicate CalledBack(c: Client, flight: multiset<Req>, r: Req) {
    if r !in c.activated then c.callbacks[r] == c.released[r] + flight[r]
    else
      && flight[r] == 0
      && (c.released[r] > 0 ==> c.callbacks[r] > 0)
      && (ActiveCount(c, r) == 1 && c.active.value.phase in {HeadersReceived, Completed} ==> c.callbacks[r] > 0)
  }

  ghost predicate KeptAt(c: Client, flight: multiset<Req>, r: Req) {
    Conserved(c, flight, r) && CalledBack(c, flight, r)
  }

  ghost predicate Kept(c: Client, flight: multiset<Req>) {
    Ordered(c) && forall r {:trigger KeptAt(c, flight, r)} :: KeptAt(c, flight, r)
  }

  // ---------- what calls made by the user can change ----------

  lemma {:induction false} WithoutRemoves(q: seq<Req>, r: Req)
    requires Increasing(q)
    ensures forall x :: x in Without(q, r) <==> x in q && x != r
    ensures Increasing(Without(q, r))
  {
    if q != [] {
      if q[0] != r {
        var t := Without(q[1..], r);
        WithoutRemoves(q[1..], r);
        IncreasingFrom(q[0], q[1..], t);
        assert Without(q, r) == [q[0]] + t;
      }
      assert q == [q[0]] + q[1..];
    }
  }

  lemma IncreasingFrom(first: Req, q: seq<Req>, t: seq<Req>)
    requires Increasing(t) && (forall i :: 0 <= i < |q| ==> first < q[i]) && forall x :: x in t ==> x in q
    ensures Increasing([first] + t)
  {
    forall i | 0 <= i < |t| ensures first < t[i] {
      assert t[i] in q;
    }
  }

  /** A queued request is called off: its callback runs outside the queue. */
  lemma CalledOffKeeps(c: Client, q: Req, flight: multiset<Req>)
    requires Kept(c, flight) && q in c.queue
    ensures Kept(CalledOff(c, q), flight + multiset{q})
  {
    var d := CalledOff(c, q);
    WithoutRemoves(c.queue, q);
    forall r ensures KeptAt(d, flight + multiset{q}, r) {
      assert KeptAt(c, flight, r);
    }
  }

  lemma LandKeeps(c: Client, q: Req, flight: multiset<Req>)
    requires Kept(c, flight + multiset{q})
    ensures Kept(c.(released := c.released + multiset{q}), flight)
  {
    var d := c.(released := c.released + multiset{q});
    forall r ensures KeptAt(d, flight, r) {
      assert KeptAt(c, flight + multiset{q}, r);
    }
  }

  lemma SubmitKeeps(c: Client, flight: multiset<Req>)
    requires Kept(c, flight)
    ensures Kept(Call(c, Submit), flight)
  {
    var d := Call(c, Submit);
    forall i | 0 <= i < |c.queue| ensures c.queue[i] < c.next {
      assert KeptAt(c, flight, c.queue[i]);
    }
    forall r ensures KeptAt(d, flight, r) {
      assert KeptAt(c, flight, r);
    }
  }

  lemma {:induction false} CallKeeps(c: Client, u: UserCall, flight: multiset<Req>)
    requires Kept(c, flight) && (c.active.Some? ==> SparesOne(u, c.active.value.req))
    ensures Kept(Call(c, u), flight)
    decreases u
  {
    match u
    case Submit => SubmitKeeps(c, flight);
    case Nudge => KeptDepends(c, Call(c, u), flight);
    case Cancel(q, us) =>
      if q in c.queue {
        CalledOffKeeps(c, q, flight);
        CallsKeep(CalledOff(c, q), us, flight + multiset{q});
        LandKeeps(Calls(CalledOff(c, q), us), q, flight);
      }
  }

  lemma {:induction false} CallsKeep(c: Client, us: seq<UserCall>, flight: multiset<Req>)
    requires Kept(c, flight) && (c.active.Some? ==> Spares(us, c.active.value.req))
    ensures Kept(Calls(c, us), flight)
    decreases us
  {
    if us != [] {
      CallKeeps(c, us[0], flight);
      CallKeepsActive(c, us[0]);
      CallsKeep(Call(c, us[0]), us[1..], flight);
    }
  }

  // ---------- the steps ----------

  ghost predicate SameRequests(c: Client, d: Client) {
    && d.queue == c.queue && d.active == c.active && d.next == c.next
    && d.activated == c.activated && d.callbacks == c.callbacks && d.released == c.released
  }

  lemma KeptDepends(c: Client, d: Client, flight: multiset<Req>)
    requires Kept(c, flight) && SameRequests(c, d)
    ensures Kept(d, flight)
  {
    forall r ensures KeptAt(d, flight, r) {
      assert KeptAt(c, flight, r);
    }
  }

  lemma {:induction false} DrainKeeps(c: Client, script: Script)
    requires Kept(c, multiset{}) && c.active.None?
    ensures Kept(Drain(c, script), multiset{})
    decreases |script|, |c.queue|
  {
    if c.queue != [] {
      var r := c.queue[0];
      var c0 := CalledOff(c, r);
      CalledOffKeeps(c, r, multiset{});
      CallsKeep(c0, First(script), multiset{} + multiset{r});
      CallsKeepActive(c0, First(script));
      var c1 := Calls(c0, First(script));
      LandKeeps(c1, r, multiset{});
      DrainKeeps(c1.(released := c1.released + multiset{r}), Rest(script));
    }
  }

  /** A callback of the active request. */
  lemma CallbackKeeps(c: Client, phase: Phase)
    requires Kept(c, multiset{}) && c.active.Some?
    ensures var a := c.active.value;
      Kept(c.(active := Some(a.(phase := phase)), callbacks := c.callbacks + multiset{a.req}), multiset{})
  {
    var a := c.active.value;
    var d := c.(active := Some(a.(phase := phase)), callbacks := c.callbacks + multiset{a.req});
    forall r ensures KeptAt(d, multiset{}, r) {
      assert KeptAt(c, multiset{}, r);
    }
  }

  lemma RetireKeeps(c: Client)
    requires Kept(c, multiset{}) && c.active.Some? && c.callbacks[c.active.value.req] > 0
    ensures Kept(c.(active := None, released := c.released + multiset{c.active.value.req}), multiset{})
  {
    var d := c.(active := None, released := c.released + multiset{c.active.value.req});
    forall r ensures KeptAt(d, multiset{}, r) {
      assert KeptAt(c, multiset{}, r);
    }
  }

  lemma {:induction false} CallsOnlyAdd(c: Client, us: seq<UserCall>)
    ensures c.callbacks <= Calls(c, us).callbacks
    decreases us
  {
    if us != [] {
      CallOnlyAdds(c, us[0]);
      CallsOnlyAdd(Call(c, us[0]), us[1..]);
    }
  }

  lemma {:induction false} CallOnlyAdds(c: Client, u: UserCall)
    ensures c.callbacks <= Call(c, u).callbacks
    decreases u
  {
    if u.Cancel? && u.req in c.queue {
      CallsOnlyAdd(CalledOff(c, u.req), u.calls);
    }
  }

  lemma FailAllKeeps(c: Client, script: Script)
    requires Kept(c, multiset{}) && Harmless(c, script)
    ensures Kept(FailAll(c, script), multiset{})
  {
    if c.active.None? {
      DrainKeeps(c, script);
    } else {
      var a := c.active.value;
      CallbackKeeps(c, a.phase);
      var c0 := c.(callbacks := c.callbacks + multiset{a.req});
      assert c0 == c.(active := Some(a.(phase := a.phase)), callbacks := c.callbacks + multiset{a.req});
      CallsKeep(c0, First(script), multiset{});
      CallsKeepActive(c0, First(script));
      CallsOnlyAdd(c0, First(script));
      var c1 := Calls(c0, First(script));
      RetireKeeps(c1);
      DrainKeeps(c1.(active := None, released := c1.released + multiset{a.req}), Rest(script));
    }
  }

  lemma ActivateKeeps(c: Client)
    requires Kept(c, multiset{})
    ensures Kept(Activate(c), multiset{})
  {
    var d := Activate(c);
    if c.active.None? && c.queue != [] {
      var q := c.queue[0];
      assert forall x :: x in c.queue <==> x == q || x in d.queue;
      forall i | 0 <= i < |c.activated| ensures c.activated[i] < q {
        assert c.activated[i] in c.activated && q in c.queue;
      }
      assert KeptAt(c, multiset{}, q);
      forall r ensures KeptAt(d, multiset{}, r) {
        assert KeptAt(c, multiset{}, r);
      }
    }
  }

  lemma PhaseKeeps(c: Client, phase: Phase)
    requires Kept(c, multiset{}) && c.active.Some?
    requires phase == Completed ==> c.active.value.phase == HeadersReceived
    requires phase != HeadersReceived
    ensures Kept(c.(active := Some(c.active.value.(phase := phase))), multiset{})
  {
    var d := c.(active := Some(c.active.value.(phase := phase)));
    forall r ensures KeptAt(d, multiset{}, r) {
      assert KeptAt(c, multiset{}, r);
    }
  }

  lemma {:induction false} ParseKeeps(c: Client, events: seq<ParserEvent>)
    requires Kept(c, multiset{}) && c.active.Some? && InOrder(c.active.value.phase, events)
    requires ParserSpares(events, c.active.value.req)
    ensures Kept(ParseAll(c, events), multiset{})
    decreases |events|
  {
    if events != [] {
      var a, e := c.active.value, events[0];
      var c0 := match e
        case OnHeaders(_) =>
          c.(active := Some(a.(phase := HeadersReceived)), callbacks := c.callbacks + multiset{a.req})
        case OnBody(_) => c
        case OnMessage(_) => c.(active := Some(a.(phase := Completed)));
      if e.OnHeaders? {
        CallbackKeeps(c, HeadersReceived);
      } else if e.OnMessage? {
        PhaseKeeps(c, Completed);
      }
      CallsKeep(c0, e.calls, multiset{});
      CallsKeepActive(c0, e.calls);
      ParseKeeps(Parse(c, e), events[1..]);
    }
  }

  lemma SrcConnectKeeps(c: Client, ok: bool, script: Script)
    requires Kept(c, multiset{}) && Harmless(c, script)
    ensures Kept(SrcConnectCb(c, ok, script), multiset{})
  {
    if ok {
      KeptDepends(c, SrcConnectCb(c, ok, script), multiset{});
    } else {
      var c0 := c.(timer := Off, status := Disconnected);
      KeptDepends(c, c0, multiset{});
      FailAllKeeps(c0, script);
      KeptDepends(FailAll(c0, script), SrcConnectCb(c, ok, script), multiset{});
    }
  }

  lemma ConnectKeeps(c: Client, ok: bool, script: Script)
    requires Kept(c, multiset{}) && Harmless(c, script)
    ensures Kept(Connect(c, ok, script), multiset{})
  {
    var c' := Dialing(c);
    KeptDepends(c, c', multiset{});
    if ok {
      KeptDepends(c', Connect(c, ok, script), multiset{});
    } else {
      SrcConnectKeeps(c', false, script);
    }
  }

  lemma ProcessKeeps(c: Client, connectOk: bool, bodyDone: bool, script: Script)
    requires Kept(c, multiset{}) && Harmless(Activate(c), script)
    ensures Kept(ProcessRequests(c, connectOk, bodyDone, script), multiset{})
  {
    var c0 := c.(wake := false);
    KeptDepends(c, c0, multiset{});
    ActivateKeeps(c0);
    var c1 := Activate(c0);
    var d := ProcessRequests(c, connectOk, bodyDone, script);
    if c1.active.None? || c1.status in {Connecting, Handshaking} {
      KeptDepends(c1, d, multiset{});
    } else if c1.status == Disconnected {
      ConnectKeeps(c1, connectOk, script);
    } else {
      SendKeeps(c1, bodyDone);
    }
  }

  lemma SendKeeps(c: Client, bodyDone: bool)
    requires Kept(c, multiset{}) && c.active.Some?
    ensures Kept(SendBody(SendHead(c), bodyDone), multiset{})
  {
    var d := SendBody(SendHead(c), bodyDone);
    if c.active.value.phase in {Created, HeadersSent} {
      PhaseKeeps(c, d.active.value.phase);
      KeptDepends(c.(active := d.active), d, multiset{});
    }
  }

  lemma CompleteKeeps(c: Client, keep: bool)
    requires Kept(c, multiset{}) && c.active.Some? && c.active.value.phase == Completed
    ensures Kept(Complete(c, keep), multiset{})
  {
    var r := c.active.value.req;
    assert KeptAt(c, multiset{}, r);
    RetireKeeps(c);
    KeptDepends(c.(active := None, released := c.released + multiset{r}), Complete(c, keep), multiset{});
  }

  lemma DataKeeps(c: Client, es: seq<ParserEvent>, version: string, connection: Option<string>)
    requires Kept(c, multiset{}) && Enabled(c, ReadData(es, version, connection))
    ensures Kept(OnData(c, es, version, connection), multiset{})
  {
    if c.active.Some? {
      ParseKeeps(c, es);
      if ParseAll(c, es).active.value.phase == Completed {
        CompleteKeeps(ParseAll(c, es), KeepAlive(version, connection));
      }
    }
  }

  lemma TimerKeeps(c: Client, script: Script)
    requires Kept(c, multiset{}) && Enabled(c, TimerFires(script))
    ensures Kept(Step(c, TimerFires(script)), multiset{})
  {
    var c0, d := c.(timer := Off), Step(c, TimerFires(script));
    KeptDepends(c, c0, multiset{});
    if c.timer == IdleClose {
      KeptDepends(c0, d, multiset{});
    } else {
      SrcConnectKeeps(c0, false, script);
      KeptDepends(SrcConnectCb(c0, false, script), d, multiset{});
    }
  }

  lemma CloseKeeps(c: Client)
    requires Kept(c, multiset{})
    ensures Kept(CloseConnection(c), multiset{}) && Kept(CloseConnection(c).(wake := true), multiset{})
  {
    KeptDepends(c, CloseConnection(c), multiset{});
    KeptDepends(c, CloseConnection(c).(wake := true), multiset{});
  }

  lemma ReadErrorKeeps(c: Client, script: Script)
    requires Kept(c, multiset{}) && Harmless(c, script)
    ensures Kept(OnReadError(c, script), multiset{})
  {
    if c.active.Some? {
      FailAllKeeps(c, script);
    }
    CloseKeeps(if c.active.Some? then FailAll(c, script) else c);
  }

  lemma CancelAllKeeps(c: Client, script: Script)
    requires Kept(c, multiset{}) && Harmless(c, script)
    ensures Kept(CloseConnection(FailAll(c, script)), multiset{})
  {
    FailAllKeeps(c, script);
    CloseKeeps(FailAll(c, script));
  }

  lemma HandshakeFailedKeeps(c: Client, script: Script)
    requires Kept(c, multiset{}) && Harmless(c, script)
    ensures Kept(FailAll(CloseConnection(c), script), multiset{})
  {
    CloseKeeps(c);
    FailAllKeeps(CloseConnection(c), script);
  }

  lemma AttemptKeeps(c: Client, ok: bool, script: Script)
    requires Kept(c, multiset{}) && c.attempts > 0 && Harmless(c, script)
    ensures Kept(SrcConnectCb(c.(attempts := c.attempts - 1), ok, script), multiset{})
  {
    KeptDepends(c, c.(attempts := c.attempts - 1), multiset{});
    SrcConnectKeeps(c.(attempts := c.attempts - 1), ok, script);
  }

  lemma StepKeeps(c: Client, e: Event)
    requires Kept(c, multiset{}) && Enabled(c, e)
    ensures Kept(Step(c, e), multiset{})
  {
    match e
    case User(u) => CallKeeps(c, u, multiset{});
    case CancelAll(s) => CancelAllKeeps(c, s);
    case Wake(ok, done, s) => ProcessKeeps(c, ok, done, s);
    case AttemptDone(ok, s) => AttemptKeeps(c, ok, s);
    case TimerFires(s) => TimerKeeps(c, s);
    case HandshakeFailed(s) => HandshakeFailedKeeps(c, s);
    case HandshakeUnexpected => CloseKeeps(c);
    case ReadError(s) => ReadErrorKeeps(c, s);
    case ReadData(es, v, h) => DataKeeps(c, es, v, h);
    case _ => QuietKeeps(c, e);
  }

  lemma QuietKeeps(c: Client, e: Event)
    requires Kept(c, multiset{}) && Enabled(c, e)
    requires e.SetIdle? || e.SetConnectTimeout? || e.SetTls? || e.HandshakeComplete? || e.LinkClosed?
    ensures Kept(Step(c, e), multiset{})
  {
    KeptDepends(c, Step(c, e), multiset{});
  }

  lemma {:induction false} RunKeeps(c: Client, es: seq<Event>, d: Client)
    requires Kept(c, multiset{}) && Runs(c, es, d)
    ensures Kept(d, multiset{})
    decreases |es|
  {
    if es != [] {
      StepKeeps(c, es[0]);
      RunKeeps(Step(c, es[0]), es[1..], d);
    }
  }

  // ---------- what every run promises ----------

  /** A submitted request is always in the queue, active or released, and only
      once in one of them; nothing else ever is. */
  lemma RequestsAreConserved(ssl: bool, es: seq<Event>, c: Client, r: Req)
    requires Runs(Initial(ssl), es, c)
    ensures QueueCount(c, r) + ActiveCount(c, r) + c.released[r] == if r < c.next then 1 else 0
    ensures forall i, j :: 0 <= i < j < |c.queue| ==> c.queue[i] != c.queue[j]
  {
    RunKeeps(Initial(ssl), es, c);
    assert KeptAt(c, multiset{}, r);
  }

  /** Requests become active in the order of submission. */
  lemma ActivationIsFifo(ssl: bool, es: seq<Event>, c: Client)
    requires Runs(Initial(ssl), es, c)
    ensures Increasing(c.activated) && Increasing(c.queue)
    ensures forall a, q :: a in c.activated && q in c.queue ==> a < q
  {
    RunKeeps(Initial(ssl), es, c);
  }

  /** No request is released before its callback has run, and one that never
      became active gets the callback exactly once. */
  lemma CallbackBeforeRelease(ssl: bool, es: seq<Event>, c: Client, r: Req)
    requires Runs(Initial(ssl), es, c)
    ensures c.released[r] > 0 ==> c.callbacks[r] > 0
    ensures r !in c.activated ==> c.callbacks[r] == c.released[r] <= 1
  {
    RunKeeps(Initial(ssl), es, c);
    assert KeptAt(c, multiset{}, r);
  }
}
