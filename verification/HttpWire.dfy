/**
 What the client writes on its connections, in every run: a request head goes out
 only on an established connection, and only if it is the first there or the
 previous request there was answered by a response that keeps the connection. The
 one exception are connections a running TLS session was moved to.
 */
module HttpWire {
  import opened CText
  import opened Options
  import opened HttpScheduler

  /** A connection as a reader of the log sees it. */
  datatype Line =
    | Fresh            // no request head yet
    | Busy(req: Req)   // waiting for the response to `req`
    | Free             // the last request was answered, and the connection is kept
    | Spent            // not to be used again

  function LineStep(line: Line, x: Entry, epoch: nat): Line {
    match x
    case Head(e, r) => if e == epoch then Busy(r) else line
    case Done(e, r, keep) =>
      if e != epoch then line
      else if !keep || line == Spent || (line.Busy? && line.req != r) then Spent
      else if line.Busy? then Free
      else line
    case _ => line
  }

  function LineOf(log: seq<Entry>, epoch: nat): Line {
    if log == [] then Fresh else LineStep(LineOf(log[..|log| - 1], epoch), log[|log| - 1], epoch)
  }

  predicate Usable(log: seq<Entry>, epoch: nat) {
    Established(log, epoch) && LineOf(log, epoch) in {Fresh, Free}
  }

  /** A head may be written here: the connection is usable, or a TLS session was moved to it. */
  predicate Writable(log: seq<Entry>, epoch: nat) {
    Usable(log, epoch) || Moved(epoch) in log
  }

  /** Every head was written on a connection writable at that moment. */
  ghost predicate GoodLog(log: seq<Entry>) {
    forall i :: 0 <= i < |log| && log[i].Head? ==> Writable(log[..i], log[i].epoch)
  }

  /** A connection a session was moved to was not opened for it. */
  ghost predicate Apart(log: seq<Entry>) {
    forall i, j :: 0 <= i < |log| && 0 <= j < |log| && log[i].Moved? && log[j].Opened? ==> log[i].epoch != log[j].epoch
  }

  /** The current connection is established and not spent, and any request
      that is waiting for a response there is the active one. */
  predicate Sound(c: Client) {
    && Established(c.log, c.epoch)
    && LineOf(c.log, c.epoch) != Spent
    && (LineOf(c.log, c.epoch).Busy? ==>
          c.active.Some? && c.active.value.req == LineOf(c.log, c.epoch).req && c.active.value.phase != Created)
  }

  ghost predicate WireInv(c: Client) {
    && GoodLog(c.log) && Apart(c.log)
    && (forall i :: 0 <= i < |c.log| ==> c.log[i].epoch <= c.epoch)
    && (Established(c.log, c.epoch) || Moved(c.epoch) in c.log || LineOf(c.log, c.epoch) == Fresh)
    && (c.status == Connected ==> Sound(c) || Moved(c.epoch) in c.log)
  }

  // ---------- appending to the log ----------

  lemma LineAppend(log: seq<Entry>, x: Entry, epoch: nat)
    ensures LineOf(log + [x], epoch) == LineStep(LineOf(log, epoch), x, epoch)
  {
    assert (log + [x])[..|log|] == log;
  }

  lemma GoodAppend(log: seq<Entry>, x: Entry)
    requires GoodLog(log) && (x.Head? ==> Writable(log, x.epoch))
    ensures GoodLog(log + [x])
  {
    var l := log + [x];
    forall i | 0 <= i < |l| && l[i].Head? ensures Writable(l[..i], l[i].epoch) {
      if i < |log| {
        assert l[..i] == log[..i];
      } else {
        assert l[..i] == log;
      }
    }
  }

  lemma {:induction false} UnseenIsFresh(log: seq<Entry>, epoch: nat)
    requires forall i :: 0 <= i < |log| ==> log[i].epoch != epoch
    ensures LineOf(log, epoch) == Fresh
  {
    if log != [] {
      UnseenIsFresh(log[..|log| - 1], epoch);
    }
  }

  // ---------- the steps ----------

  /** What the invariant depends on. */
  lemma WireDepends(c: Client, d: Client)
    requires WireInv(c) && d.log == c.log && d.epoch == c.epoch
    requires d.status == Connected ==> c.status == Connected
    requires d.status == Connected && c.active.Some? && c.active.value.phase != Created ==>
               d.active.Some? && d.active.value.req == c.active.value.req && d.active.value.phase != Created
    ensures WireInv(d)
  {
  }

  /** A connection that is new in the log. */
  lemma NewLine(log: seq<Entry>, epoch: nat, x: Entry, d: seq<Entry>)
    requires GoodLog(log) && Apart(log) && (forall i :: 0 <= i < |log| ==> log[i].epoch < epoch)
    requires d == log + [x] && x.epoch == epoch && (x.Opened? || x.Moved?)
    ensures GoodLog(d) && Apart(d) && forall i :: 0 <= i < |d| ==> d[i].epoch <= epoch
    ensures LineOf(d, epoch) == Fresh && x in d
  {
    GoodAppend(log, x);
    UnseenIsFresh(log, epoch);
    LineAppend(log, x, epoch);
    assert d[|log|] == x;
  }

  lemma MakeLinksWire(c: Client)
    requires WireInv(c)
    ensures WireInv(MakeLinks(c))
  {
    var d := MakeLinks(c);
    NewLine(c.log, d.epoch, Opened(d.epoch, c.ssl), d.log);
    NewLineWire(d);
  }

  lemma SwapWire(c: Client)
    requires WireInv(c) && c.status in {Handshaking, Connected}
    ensures WireInv(SwapSource(c))
  {
    var d := SwapSource(c);
    NewLine(c.log, d.epoch, d.log[|c.log|], d.log);
    NewLineWire(d);
  }

  lemma NewLineWire(d: Client)
    requires GoodLog(d.log) && Apart(d.log) && (forall i :: 0 <= i < |d.log| ==> d.log[i].epoch <= d.epoch)
    requires LineOf(d.log, d.epoch) == Fresh
    requires d.status == Connected ==> Established(d.log, d.epoch) || Moved(d.epoch) in d.log
    ensures WireInv(d)
  {
  }

  lemma SrcConnectWire(c: Client, ok: bool, script: Script)
    requires WireInv(c)
    ensures WireInv(SrcConnectCb(c, ok, script))
  {
    var c1 := c.(timer := Off);
    WireDepends(c, c1);
    if !ok {
      FailAllEffect(c1.(status := Disconnected), script);
      WireDepends(c, SrcConnectCb(c, ok, script));
    } else if c.status == Connecting {
      MakeLinksWire(c1);
    } else if c.status == Disconnected {
      WireDepends(c, SrcConnectCb(c, ok, script));
    } else {
      SwapWire(c1);
    }
  }

  lemma SendHeadWire(c: Client)
    requires WireInv(c) && c.status == Connected && c.active.Some? && c.active.value.phase == Created
    ensures WireInv(SendHead(c))
  {
    assert Writable(c.log, c.epoch);
    NotedLog(c.log, c.epoch, Head(c.epoch, c.active.value.req), SendHead(c).log);
  }

  /** A head or a completion on a connection that is already in the log. */
  lemma NotedLog(log: seq<Entry>, epoch: nat, x: Entry, d: seq<Entry>)
    requires GoodLog(log) && Apart(log) && (forall i :: 0 <= i < |log| ==> log[i].epoch <= epoch)
    requires d == log + [x] && x.epoch == epoch && (x.Done? || (x.Head? && Writable(log, epoch)))
    ensures GoodLog(d) && Apart(d) && forall i :: 0 <= i < |d| ==> d[i].epoch <= epoch
    ensures LineOf(d, epoch) == LineStep(LineOf(log, epoch), x, epoch)
    ensures (Established(d, epoch) <==> Established(log, epoch)) && (Moved(epoch) in d <==> Moved(epoch) in log)
  {
    GoodAppend(log, x);
    LineAppend(log, x, epoch);
    StillEstablished(log, x, epoch);
  }

  lemma SendWire(c: Client, bodyDone: bool)
    requires WireInv(c) && c.status == Connected && c.active.Some?
    ensures WireInv(SendBody(SendHead(c), bodyDone))
  {
    if c.active.value.phase == Created {
      SendHeadWire(c);
    }
    WireDepends(SendHead(c), SendBody(SendHead(c), bodyDone));
  }

  lemma StillEstablished(log: seq<Entry>, x: Entry, epoch: nat)
    ensures Established(log, epoch) ==> Established(log + [x], epoch)
    ensures (x.Head? || x.Done?) && Established(log + [x], epoch) ==> Established(log, epoch)
  {
  }

  lemma ProcessWire(c: Client, connectOk: bool, bodyDone: bool, script: Script)
    requires WireInv(c)
    ensures WireInv(ProcessRequests(c, connectOk, bodyDone, script))
  {
    var c1 := Activate(c.(wake := false));
    WireDepends(c, c1);
    var d := ProcessRequests(c, connectOk, bodyDone, script);
    if c1.active.None? || c1.status in {Connecting, Handshaking} {
      WireDepends(c1, d);
    } else if c1.status == Connected {
      SendWire(c1, bodyDone);
    } else {
      ConnectWire(c1, connectOk, script);
    }
  }

  lemma ConnectWire(c: Client, ok: bool, script: Script)
    requires WireInv(c)
    ensures WireInv(Connect(c, ok, script))
  {
    var c1 := Dialing(c);
    WireDepends(c, c1);
    if ok {
      WireDepends(c1, Connect(c, ok, script));
    } else {
      SrcConnectWire(c1, false, script);
    }
  }

  lemma CloseWire(c: Client)
    requires WireInv(c)
    ensures WireInv(CloseConnection(c))
  {
    WireDepends(c, CloseConnection(c));
  }

  /** Failing all requests is harmless once the connection is being closed. */
  lemma FailWire(c: Client, d: Client)
    requires WireInv(c) && d.log == c.log && d.epoch == c.epoch && d.status != Connected
    ensures WireInv(d)
  {
    WireDepends(c, d);
  }

  lemma CancelAllWire(c: Client, script: Script)
    requires WireInv(c)
    ensures WireInv(CloseConnection(FailAll(c, script)))
  {
    FailAllEffect(c, script);
    FailWire(c, CloseConnection(FailAll(c, script)));
  }

  lemma HandshakeFailedWire(c: Client, script: Script)
    requires WireInv(c)
    ensures WireInv(FailAll(CloseConnection(c), script))
  {
    FailAllEffect(CloseConnection(c), script);
    FailWire(c, FailAll(CloseConnection(c), script));
  }

  lemma ReadErrorWire(c: Client, script: Script)
    requires WireInv(c)
    ensures WireInv(OnReadError(c, script))
  {
    ReadErrorLog(c, script);
    FailWire(c, OnReadError(c, script));
  }

  lemma ReadErrorLog(c: Client, script: Script)
    ensures var d := OnReadError(c, script); d.log == c.log && d.epoch == c.epoch && d.status == Disconnected
  {
    if c.active.Some? {
      FailAllEffect(c, script);
    }
    CloseEffect(if c.active.Some? then FailAll(c, script) else c);
  }

  lemma CompleteWire(c: Client, keep: bool)
    requires WireInv(c) && c.active.Some? && Established(c.log, c.epoch)
    ensures WireInv(Complete(c, keep))
  {
    var x := Done(c.epoch, c.active.value.req, keep);
    var d := c.(active := None, log := c.log + [x], status := if keep then c.status else Disconnected);
    NotedLog(c.log, c.epoch, x, d.log);
    assert WireInv(d);
    WireDepends(d, Complete(c, keep));
  }

  lemma DataWire(c: Client, es: seq<ParserEvent>, version: string, connection: Option<string>)
    requires WireInv(c) && Enabled(c, ReadData(es, version, connection))
    ensures WireInv(OnData(c, es, version, connection))
  {
    if c.active.Some? {
      ParseEffect(c, es);
      var c1 := ParseAll(c, es);
      WireDepends(c, c1);
      if c1.active.value.phase == Completed {
        CompleteWire(c1, KeepAlive(version, connection));
      }
    }
  }

  lemma HandshakeWire(c: Client)
    requires WireInv(c) && Enabled(c, HandshakeComplete)
    ensures WireInv(Step(c, HandshakeComplete))
  {
    var x := Handshaken(c.epoch);
    GoodAppend(c.log, x);
    LineAppend(c.log, x, c.epoch);
    assert (c.log + [x])[|c.log|] == x;
  }

  lemma TimerWire(c: Client, script: Script)
    requires WireInv(c) && Enabled(c, TimerFires(script))
    ensures WireInv(Step(c, TimerFires(script)))
  {
    if c.timer == IdleClose {
      CloseWire(c.(timer := Off));
    } else {
      SrcConnectWire(c.(timer := Off), false, script);
    }
  }

  lemma AttemptWire(c: Client, ok: bool, script: Script)
    requires WireInv(c) && c.attempts > 0
    ensures WireInv(SrcConnectCb(c.(attempts := c.attempts - 1), ok, script))
  {
    WireDepends(c, c.(attempts := c.attempts - 1));
    SrcConnectWire(c.(attempts := c.attempts - 1), ok, script);
  }

  lemma StepWire(c: Client, e: Event)
    requires WireInv(c) && Enabled(c, e)
    ensures WireInv(Step(c, e))
  {
    match e
    case CancelAll(s) => CancelAllWire(c, s);
    case Wake(ok, done, s) => ProcessWire(c, ok, done, s);
    case AttemptDone(ok, s) => AttemptWire(c, ok, s);
    case TimerFires(s) => TimerWire(c, s);
    case HandshakeComplete => HandshakeWire(c);
    case HandshakeFailed(s) => HandshakeFailedWire(c, s);
    case HandshakeUnexpected => CloseWire(c);
    case ReadError(s) => ReadErrorWire(c, s);
    case ReadData(es, v, h) => DataWire(c, es, v, h);
    case _ => QuietWire(c, e);
  }

  lemma QuietWire(c: Client, e: Event)
    requires WireInv(c) && Enabled(c, e)
    requires e.User? || e.SetIdle? || e.SetConnectTimeout? || e.SetTls? || e.LinkClosed?
    ensures WireInv(Step(c, e))
  {
    if e.User? {
      CallHasEffect(c, e.call);
    }
    WireDepends(c, Step(c, e));
  }

  lemma {:induction false} RunWire(c: Client, es: seq<Event>, d: Client)
    requires WireInv(c) && Runs(c, es, d)
    ensures WireInv(d)
    decreases |es|
  {
    if es != [] {
      StepWire(c, es[0]);
      RunWire(Step(c, es[0]), es[1..], d);
    }
  }

  // ---------- what every run promises ----------

  /** A head is written on a usable connection if and only if no TLS session had
      been moved to that connection. */
  lemma HeadIsUsableIff(ssl: bool, es: seq<Event>, c: Client, i: nat)
    requires Runs(Initial(ssl), es, c) && i < |c.log| && c.log[i].Head?
    ensures Usable(c.log[..i], c.log[i].epoch) <==> Moved(c.log[i].epoch) !in c.log[..i]
  {
    RunWire(Initial(ssl), es, c);
    GoodHead(c, i);
  }

  lemma GoodHead(c: Client, i: nat)
    requires WireInv(c) && i < |c.log| && c.log[i].Head?
    ensures Usable(c.log[..i], c.log[i].epoch) <==> Moved(c.log[i].epoch) !in c.log[..i]
  {
    var e := c.log[i].epoch;
    assert Writable(c.log[..i], e);
    if Moved(e) in c.log[..i] {
      assert Moved(e) in c.log && Opened(e, true) !in c.log && Opened(e, false) !in c.log;
      assert Opened(e, true) !in c.log[..i] && Opened(e, false) !in c.log[..i];
    }
  }

  /** A usable connection: either no head was written there before, or the last
      one written was followed by its own response, which kept the connection. */
  lemma {:induction false} UsableMeans(log: seq<Entry>, epoch: nat)
    ensures LineOf(log, epoch) == Fresh ==> forall i :: 0 <= i < |log| && log[i].epoch == epoch ==> !log[i].Head?
    ensures LineOf(log, epoch) == Free ==>
      exists i, j :: 0 <= i < j < |log| && LastHead(log, epoch, i) && log[j] == Done(epoch, log[i].req, true)
    ensures LineOf(log, epoch).Busy? ==>
      exists i :: 0 <= i < |log| && LastHead(log, epoch, i) && log[i].req == LineOf(log, epoch).req
  {
    if log != [] {
      var n := |log| - 1;
      var init, line := log[..n], LineOf(log[..n], epoch);
      UsableMeans(init, epoch);
      if LineOf(log, epoch) == Free {
        if line == Free {
          var i, j :| 0 <= i < j < |init| && LastHead(init, epoch, i) && init[j] == Done(epoch, init[i].req, true);
          assert LastHead(log, epoch, i) && log[j] == Done(epoch, log[i].req, true);
        } else {
          var i :| 0 <= i < |init| && LastHead(init, epoch, i) && init[i].req == line.req;
          assert LastHead(log, epoch, i) && log[n] == Done(epoch, log[i].req, true);
        }
      } else if LineOf(log, epoch).Busy? {
        if log[n].Head? && log[n].epoch == epoch {
          assert LastHead(log, epoch, n);
        } else {
          var i :| 0 <= i < |init| && LastHead(init, epoch, i) && init[i].req == line.req;
          assert LastHead(log, epoch, i);
        }
      }
    }
  }

  ghost predicate LastHead(log: seq<Entry>, epoch: nat, i: nat) {
    && i < |log| && log[i].Head? && log[i].epoch == epoch
    && forall k :: i < k < |log| && log[k].epoch == epoch ==> !log[k].Head?
  }

  // ---------- persistence ----------

  /** A Connection header that consists of this option; options are compared
      without regard to case. */
  predicate HasOption(connection: Option<string>, option: string) {
    connection.Some? && SameText(connection.value, option)
  }

  /** Section 9.3 of RFC 9112: whether a response of HTTP/1.`minor` with this
      Connection header leaves the connection open. */
  predicate Persists(minor: nat, connection: Option<string>) {
    !HasOption(connection, "close") && (minor >= 1 || HasOption(connection, "keep-alive"))
  }

  /** The same by the version as the parser reports it; a response of any other
      version is taken to end the connection. */
  predicate Persistent(version: string, connection: Option<string>) {
    (version == "1.0" && Persists(0, connection)) || (version == "1.1" && Persists(1, connection))
  }

  /** The client's rule is that of the standard for headers with a single option. */
  lemma KeepAliveIsPersistence(version: string, connection: Option<string>)
    ensures KeepAlive(version, connection) <==> Persistent(version, connection)
  {
    assert version == "1.1" ==> version[2] == '1';
    assert version == "1.0" ==> version[2] == '0';
    if connection.Some? {
      OptionsAreLow();
      OptionName(connection.value, "close");
      OptionName(connection.value, "keep-alive");
    }
  }

  lemma OptionsAreLow()
    ensures NoCapitals("close") && NoCapitals("keep-alive")
  {
  }

  lemma OptionName(option: string, low: string)
    requires NoCapitals(low)
    ensures Lower(option) == low <==> SameText(option, low)
  {
    SpelledAs(option, low, low);
  }

  /** A response is completed on its connection under the number of the active
      request, and judged by its own version and Connection header. */
  lemma ResponseIsJudged(c: Client, es: seq<ParserEvent>, version: string, connection: Option<string>)
    requires Enabled(c, ReadData(es, version, connection))
    ensures var d := Step(c, ReadData(es, version, connection));
      d.log == c.log || (c.active.Some? && d.active.None? &&
        d.log == c.log + [Done(c.epoch, c.active.value.req, KeepAlive(version, connection))])
  {
    if c.active.Some? {
      ParseEffect(c, es);
    }
  }
}
