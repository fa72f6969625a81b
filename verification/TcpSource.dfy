/**
 The TCP source: connection attempts as a state machine over name resolution,
 connect, timeout, cancel and close events in every order.

 An attempt makes at most one resolve request, one connect request and one TCP
 handle, so that the attempt's number names all three.
 */
module TcpSource {
  import opened Options

  datatype Status = Ok | Failed | TimedOut

  /** What the client is told about an attempt. */
  datatype Outcome = Outcome(attempt: nat, status: Status)

  datatype State = State(
    current: nat,                // the attempt the connect callback and its context belong to
    resolveReq: Option<nat>,
    connReq: Option<nat>,
    conn: Option<nat>,
    stream: Option<nat>,         // the stream under the source link
    resolves: map<nat, bool>,    // resolve requests in flight, and whether their data link is set
    connects: map<nat, bool>,    // connect requests in flight, and whether their data link is set
    closes: map<nat, nat>,       // opened handles, and how often each was closed
    waiting: bool,               // the client waits for the outcome of the current attempt
    outcomes: seq<Outcome>,
    cancelled: set<nat>)

  const INIT := State(0, None, None, None, None, map[], map[], map[], false, [], {})

  /** How resolving ends: no address, no socket, connect refused at once, or connect started. */
  datatype Resolution = NoAddress | NoSocket | Refused | Started

  /** How connecting ends; it is canceled by closing the handle. */
  datatype Connection = Done | Broken | Canceled

  datatype Event =
    | Connect(accepted: bool)
    | Resolved(id: nat, resolution: Resolution)
    | Connected(id: nat, connection: Connection)
    | Timeout
    | Cancel
    | CloseLink
    | LinkClosed
    | Release

  predicate Closing(s: State, h: nat) {
    h in s.closes && s.closes[h] > 0
  }

  function Close(s: State, h: nat): State {
    s.(closes := s.closes[h := 1 + if h in s.closes then s.closes[h] else 0])
  }

  function Tell(s: State, status: Status): State {
    s.(outcomes := s.outcomes + [Outcome(s.current, status)], waiting := false)
  }

  /** The close method of the source link. */
  function CloseStream(s: State): State {
    if s.stream.Some? && !Closing(s, s.stream.value) then Close(s, s.stream.value) else s
  }

  /** What becomes of an earlier connection. */
  function DropOld(s: State): State {
    if s.conn.None? then s
    else if !Closing(s, s.conn.value) then CloseStream(s)
    else s.(conn := None)
  }

  /** tcp_src_connect */
  function StartConnect(s: State, accepted: bool): State {
    Begin(DropOld(s), accepted)
  }

  function Begin(s: State, accepted: bool): State {
    var s := s.(current := s.current + 1);
    if accepted then
      s.(resolveReq := Some(s.current), resolves := s.resolves[s.current := true], waiting := true)
    else s.(resolveReq := None)
  }

  /** resolve_cb */
  function OnResolved(s: State, id: nat, result: Resolution): State
    requires id in s.resolves
  {
    var live := s.resolves[id];
    var s := s.(resolves := s.resolves - {id});
    if live then OnResolvedLive(s, id, result) else s
  }

  function OnResolvedLive(s: State, id: nat, result: Resolution): State {
    var s := if result.Refused? || result.Started? then s.(closes := s.closes[id := 0], connReq := Some(id)) else s;
    if result.Started? then s.(connects := s.connects[id := true], resolveReq := None)
    else
      var s := Tell(s, Failed);
      var s := if s.connReq.None? then s else
        var s := s.(connReq := None);
        if result.Refused? then Close(s, id) else s;
      s.(resolveReq := None)
  }

  /** tcp_connect_cb */
  function OnConnected(s: State, id: nat, result: Connection): State
    requires id in s.connects
  {
    var live := s.connects[id];
    var s := s.(connects := s.connects - {id});
    if live then OnConnectedLive(s, id, result)
    else if Closing(s, id) then s
    else Close(s, id)
  }

  function OnConnectedLive(s: State, id: nat, result: Connection): State {
    var s := s.(connReq := None);
    match result
    case Canceled => Close(s, id)
    case Done => Tell(s.(conn := Some(id), stream := Some(id)), Ok)
    case Broken => Tell(Close(s.(conn := None), id), Failed)
  }

  function CancelResolve(s: State): State {
    if s.resolveReq.None? then s
    else s.(resolves := s.resolves[s.resolveReq.value := false], resolveReq := None)
  }

  function CancelConnect(s: State): State {
    if s.connReq.None? then s
    else Close(s, s.connReq.value).(connects := s.connects[s.connReq.value := false], connReq := None)
  }

  function CancelConn(s: State): State {
    if s.conn.Some? && !Closing(s, s.conn.value) then CloseStream(s) else s
  }

  /** tcp_src_cancel */
  function OnCancel(s: State): State {
    CancelConn(CancelConnect(CancelResolve(s))).(cancelled := s.cancelled + {s.current}, waiting := false)
  }

  predicate Enabled(s: State, e: Event) {
    match e
    case Connect(_) => s.resolveReq.None? && s.connReq.None?
    case Resolved(id, _) => id in s.resolves
    case Connected(id, result) => id in s.connects && (result.Canceled? <==> Closing(s, id))
    case Timeout => s.waiting
    case Cancel => true
    case CloseLink => s.stream.Some?
    case LinkClosed => s.stream.Some? && Closing(s, s.stream.value)
    case Release => true
  }

  function Step(s: State, e: Event): State
    requires Enabled(s, e)
  {
    match e
    case Connect(accepted) => StartConnect(s, accepted)
    case Resolved(id, result) => OnResolved(s, id, result)
    case Connected(id, result) => OnConnected(s, id, result)
    case Timeout => OnCancel(Tell(s, TimedOut))
    case Cancel => OnCancel(s)
    case CloseLink => CloseStream(s)
    case LinkClosed => s.(conn := None, stream := None)
    case Release => s.(conn := None)
  }

  ghost predicate Runs(s: State, es: seq<Event>, t: State)
    decreases |es|
  {
    if es == [] then s == t else Enabled(s, es[0]) && Runs(Step(s, es[0]), es[1..], t)
  }

  // ---------- the invariant ----------

  /** The requests in flight whose data link is set are those the source points to. */
  ghost predicate Linked(inFlight: map<nat, bool>, req: Option<nat>) {
    && (forall id <- inFlight :: inFlight[id] <==> req == Some(id))
    && (req.Some? ==> req.value in inFlight)
  }

  ghost predicate Numbered(s: State) {
    && (forall id <- s.resolves :: id <= s.current && id !in s.closes && id !in s.connects)
    && (forall id <- s.connects :: id in s.closes)
    && (forall id <- s.closes :: id <= s.current)
    && (forall id <- s.cancelled :: id <= s.current)
  }

  ghost predicate Handles(s: State) {
    && (forall id <- s.closes :: s.closes[id] <= 1)
    && (s.connReq.Some? ==> !Closing(s, s.connReq.value))
    && (s.stream.Some? ==> s.stream.value in s.closes && s.stream.value !in s.connects)
    && (s.conn.Some? ==> s.conn == s.stream)
  }

  ghost predicate Told(s: State) {
    && (forall i :: 0 <= i < |s.outcomes| ==> s.outcomes[i].attempt <= s.current)
    && (forall i, j :: 0 <= i < j < |s.outcomes| ==> s.outcomes[i].attempt != s.outcomes[j].attempt)
    && (s.waiting ==> forall i :: 0 <= i < |s.outcomes| ==> s.outcomes[i].attempt < s.current)
  }

  /** The client waits exactly as long as one request of the current attempt is in flight. */
  ghost predicate Waits(s: State) {
    && (s.waiting ==> s.current !in s.cancelled)
    && (s.waiting <==> s.resolveReq.Some? || s.connReq.Some?)
    && !(s.resolveReq.Some? && s.connReq.Some?)
    && (s.resolveReq.Some? ==> s.resolveReq.value == s.current)
    && (s.connReq.Some? ==> s.connReq.value == s.current)
  }

  ghost predicate Sound(s: State) {
    Linked(s.resolves, s.resolveReq) && Linked(s.connects, s.connReq) && Numbered(s) && Handles(s) && Told(s)
  }

  ghost predicate Inv(s: State) {
    Sound(s) && Waits(s)
  }

  lemma CloseStreamSound(s: State)
    requires Sound(s)
    ensures Sound(CloseStream(s))
  {
  }

  lemma DropOldInv(s: State)
    requires Inv(s)
    ensures Inv(DropOld(s)) && DropOld(s).waiting == s.waiting
  {
    CloseStreamSound(s);
  }

  lemma BeginInv(s: State, accepted: bool)
    requires Inv(s) && !s.waiting
    ensures Inv(Begin(s, accepted))
  {
  }

  lemma ConnectInv(s: State, accepted: bool)
    requires Inv(s) && Enabled(s, Connect(accepted))
    ensures Inv(StartConnect(s, accepted))
  {
    DropOldInv(s);
    BeginInv(DropOld(s), accepted);
  }

  lemma ResolvedDead(s: State, id: nat, result: Resolution)
    requires Inv(s) && id in s.resolves && !s.resolves[id]
    ensures Inv(OnResolved(s, id, result))
  {
  }

  lemma ResolvedStarted(s: State, id: nat)
    requires Inv(s) && id in s.resolves && s.resolves[id]
    ensures Inv(OnResolved(s, id, Started))
  {
  }

  lemma ResolvedFailed(s: State, id: nat, result: Resolution)
    requires Inv(s) && id in s.resolves && s.resolves[id] && !result.Started?
    ensures Inv(OnResolved(s, id, result))
  {
    TellTold(s, Failed);
  }

  lemma TellTold(s: State, status: Status)
    requires Told(s) && s.waiting
    ensures Told(Tell(s, status))
  {
  }

  lemma ConnectedDead(s: State, id: nat, result: Connection)
    requires Inv(s) && Enabled(s, Connected(id, result)) && !s.connects[id]
    ensures Inv(OnConnected(s, id, result))
  {
  }

  lemma ConnectedLive(s: State, id: nat, result: Connection)
    requires Inv(s) && Enabled(s, Connected(id, result)) && s.connects[id]
    ensures Inv(OnConnected(s, id, result))
  {
    TellTold(s, Ok);
    TellTold(s, Failed);
  }

  lemma CancelResolveSound(s: State)
    requires Sound(s)
    ensures Sound(CancelResolve(s))
  {
  }

  lemma CancelConnectSound(s: State)
    requires Sound(s)
    ensures Sound(CancelConnect(s))
  {
  }

  lemma CancelConnSound(s: State)
    requires Sound(s)
    ensures Sound(CancelConn(s))
  {
    CloseStreamSound(s);
  }

  lemma CancelledInv(s: State)
    requires Sound(s) && s.resolveReq.None? && s.connReq.None?
    ensures Inv(s.(cancelled := s.cancelled + {s.current}, waiting := false))
  {
  }

  lemma CancelInv(s: State)
    requires Sound(s)
    ensures Inv(OnCancel(s))
  {
    var t := CancelResolve(s);
    CancelResolveSound(s);
    var u := CancelConnect(t);
    CancelConnectSound(t);
    CancelConnSound(u);
    CancelledInv(CancelConn(u));
  }

  lemma TellSound(s: State, status: Status)
    requires Sound(s) && s.waiting
    ensures Sound(Tell(s, status))
  {
    TellTold(s, status);
  }

  lemma TimeoutInv(s: State)
    requires Inv(s) && s.waiting
    ensures Inv(OnCancel(Tell(s, TimedOut)))
  {
    TellSound(s, TimedOut);
    CancelInv(Tell(s, TimedOut));
  }

  lemma StepInv(s: State, e: Event)
    requires Inv(s) && Enabled(s, e)
    ensures Inv(Step(s, e))
  {
    match e
    case Connect(accepted) => ConnectInv(s, accepted);
    case Resolved(id, result) =>
      if !s.resolves[id] {
        ResolvedDead(s, id, result);
      } else if result.Started? {
        ResolvedStarted(s, id);
      } else {
        ResolvedFailed(s, id, result);
      }
    case Connected(id, result) =>
      if s.connects[id] {
        ConnectedLive(s, id, result);
      } else {
        ConnectedDead(s, id, result);
      }
    case Timeout => TimeoutInv(s);
    case Cancel => CancelInv(s);
    case CloseLink => CloseStreamSound(s);
    case LinkClosed =>
    case Release =>
  }

  lemma {:induction false} RunInv(s: State, es: seq<Event>, t: State)
    requires Inv(s) && Runs(s, es, t)
    ensures Inv(t)
    decreases |es|
  {
    if es != [] {
      StepInv(s, es[0]);
      RunInv(Step(s, es[0]), es[1..], t);
    }
  }

  // ---------- what holds in every run ----------

  /** No attempt has two outcomes. */
  lemma OneOutcomePerAttempt(es: seq<Event>, s: State)
    requires Runs(INIT, es, s)
    ensures forall i, j :: 0 <= i < j < |s.outcomes| ==> s.outcomes[i].attempt != s.outcomes[j].attempt
  {
    RunInv(INIT, es, s);
  }

  /** No handle is closed twice. */
  lemma ClosedAtMostOnce(es: seq<Event>, s: State, h: nat)
    requires Runs(INIT, es, s) && h in s.closes
    ensures s.closes[h] <= 1
  {
    RunInv(INIT, es, s);
  }

  /** While the client waits, exactly one request of its attempt is in flight that
      can answer it, and its handle is open; every other request in flight is cut off. */
  lemma WaitingIsServed(es: seq<Event>, s: State)
    requires Runs(INIT, es, s)
    ensures s.waiting <==> (exists id <- s.resolves :: s.resolves[id]) || (exists id <- s.connects :: s.connects[id])
    ensures forall id <- s.resolves :: s.resolves[id] ==> id == s.current && id !in s.connects
    ensures forall id <- s.connects :: s.connects[id] ==> id == s.current && id in s.closes && s.closes[id] == 0
  {
    RunInv(INIT, es, s);
  }

  lemma CancelTells(s: State)
    ensures OnCancel(s).outcomes == s.outcomes && OnCancel(s).cancelled == s.cancelled + {s.current}
  {
    var t := CancelResolve(s);
    assert t.outcomes == s.outcomes;
    assert CancelConnect(t).outcomes == s.outcomes;
  }

  /** Only a waiting client is told anything, and about the current attempt. */
  ghost predicate Tells(s: State, t: State) {
    t.outcomes == s.outcomes || (s.waiting && exists st :: t.outcomes == s.outcomes + [Outcome(s.current, st)])
  }

  lemma ResolvedTells(s: State, id: nat, result: Resolution)
    requires Inv(s) && id in s.resolves
    ensures var t := OnResolved(s, id, result);
      Tells(s, t) && (t.outcomes != s.outcomes ==> id == s.current) && t.cancelled == s.cancelled
  {
    var t := OnResolved(s, id, result);
    if s.resolves[id] && !result.Started? {
      assert t.outcomes == s.outcomes + [Outcome(s.current, Failed)];
    } else {
      assert t.outcomes == s.outcomes;
    }
  }

  lemma ConnectedTells(s: State, id: nat, result: Connection)
    requires Inv(s) && id in s.connects
    ensures var t := OnConnected(s, id, result);
      Tells(s, t) && (t.outcomes != s.outcomes ==> id == s.current) && t.cancelled == s.cancelled
  {
  }

  lemma StepTells(s: State, e: Event)
    requires Inv(s) && Enabled(s, e)
    ensures Tells(s, Step(s, e)) && s.cancelled <= Step(s, e).cancelled
  {
    match e
    case Connect(accepted) =>
    case Resolved(id, result) => ResolvedTells(s, id, result);
    case Connected(id, result) => ConnectedTells(s, id, result);
    case Timeout => CancelTells(Tell(s, TimedOut));
    case Cancel => CancelTells(s);
    case CloseLink =>
    case LinkClosed =>
    case Release =>
  }

  /** Whether the end of a request is the end of its attempt. */
  predicate Ends(s: State, e: Event)
    requires Enabled(s, e)
  {
    match e
    case Resolved(id, result) => s.resolves[id] && !result.Started?
    case Connected(id, _) => s.connects[id]
    case _ => false
  }

  /** The client is told exactly when a linked request ends its attempt, about the
      attempt whose request ended, although the outcome goes to whatever callback was
      registered last; it is told Ok exactly if it then has an open connection of
      that attempt. */
  lemma OutcomeIsOwn(es: seq<Event>, s: State, e: Event)
    requires Runs(INIT, es, s) && Enabled(s, e) && (e.Resolved? || e.Connected?)
    ensures var t := Step(s, e);
      if !Ends(s, e) then t.outcomes == s.outcomes
      else if t.conn == Some(e.id) then t.outcomes == s.outcomes + [Outcome(e.id, Ok)] && !Closing(t, e.id)
      else t.outcomes == s.outcomes + [Outcome(e.id, Failed)] && (e.id in t.closes ==> Closing(t, e.id))
  {
    RunInv(INIT, es, s);
    if e.Resolved? {
      ResolvedEnds(s, e.id, e.resolution);
    } else {
      ConnectedEnds(s, e.id, e.connection);
    }
  }

  /** After a cancel nothing in flight is linked and the connection is closing. */
  lemma CancelCutsOff(s: State)
    requires Sound(s)
    ensures var t := OnCancel(s);
      && Inv(t) && !t.waiting
      && (forall id <- t.resolves :: !t.resolves[id]) && (forall id <- t.connects :: !t.connects[id])
      && (t.conn.Some? ==> Closing(t, t.conn.value))
  {
    CancelInv(s);
  }

  lemma ResolvedEnds(s: State, id: nat, result: Resolution)
    requires Inv(s) && Enabled(s, Resolved(id, result))
    ensures var t := OnResolved(s, id, result);
      if !Ends(s, Resolved(id, result)) then t.outcomes == s.outcomes
      else t.outcomes == s.outcomes + [Outcome(id, Failed)] && t.conn != Some(id) && (id in t.closes ==> Closing(t, id))
  {
  }

  lemma ConnectedEnds(s: State, id: nat, result: Connection)
    requires Inv(s) && Enabled(s, Connected(id, result))
    ensures var t := OnConnected(s, id, result);
      if !s.connects[id] then t.outcomes == s.outcomes
      else if result.Done? then t.conn == Some(id) && t.outcomes == s.outcomes + [Outcome(id, Ok)] && !Closing(t, id)
      else t.conn != Some(id) && t.outcomes == s.outcomes + [Outcome(id, Failed)] && Closing(t, id)
  {
  }

  /** Once cancelled, and so also after a timeout, an attempt has no further outcome. */
  lemma {:induction false} SilentAfterCancel(s: State, es: seq<Event>, t: State, a: nat)
    requires Inv(s) && a in s.cancelled && Runs(s, es, t)
    ensures s.outcomes <= t.outcomes
    ensures forall i :: |s.outcomes| <= i < |t.outcomes| ==> t.outcomes[i].attempt != a
    decreases |es|
  {
    if es != [] {
      var u := Step(s, es[0]);
      StepInv(s, es[0]);
      StepTells(s, es[0]);
      SilentAfterCancel(u, es[1..], t, a);
      assert forall i :: |s.outcomes| <= i < |u.outcomes| ==> t.outcomes[i] == u.outcomes[i];
    }
  }

  lemma NoOutcomeAfterCancel(before: seq<Event>, s: State, e: Event, after: seq<Event>, t: State)
    requires Runs(INIT, before, s) && (e.Cancel? || e.Timeout?) && Enabled(s, e) && Runs(Step(s, e), after, t)
    ensures var told := Step(s, e).outcomes;
      && told == s.outcomes + (if e.Timeout? then [Outcome(s.current, TimedOut)] else [])
      && told <= t.outcomes
      && forall i :: |told| <= i < |t.outcomes| ==> t.outcomes[i].attempt != s.current
  {
    RunInv(INIT, before, s);
    StepInv(s, e);
    CancelTells(if e.Timeout? then Tell(s, TimedOut) else s);
    SilentAfterCancel(Step(s, e), after, t, s.current);
  }

  // ---------- no connection is left open by mistake ----------

  /** Every opened handle is closing, or is the one the source is connecting or connected with. */
  ghost predicate Tracked(s: State) {
    forall h <- s.closes :: Closing(s, h) || s.connReq == Some(h) || s.conn == Some(h)
  }

  /** While an attempt is under way an earlier connection is on its way out. */
  ghost predicate NoLeak(s: State) {
    && Tracked(s)
    && (s.waiting && s.conn.Some? ==> Closing(s, s.conn.value))
  }

  /** The connection is dropped while it is open. */
  predicate ReleasesOpen(s: State, e: Event) {
    e.Release? && s.conn.Some? && !Closing(s, s.conn.value)
  }

  /** What a new attempt does about an earlier connection. */
  lemma OldIsDropped(s: State)
    requires Inv(s)
    ensures var t := DropOld(s);
      && (s.conn.Some? && Closing(s, s.conn.value) ==> t.conn.None? && t.closes == s.closes)
      && (s.conn.Some? && !Closing(s, s.conn.value) ==>
            t.conn == s.conn && t.closes == s.closes[s.conn.value := 1])
      && (s.conn.None? ==> t == s)
  {
  }

  lemma ConnectTracks(s: State, accepted: bool)
    requires Inv(s) && NoLeak(s) && Enabled(s, Connect(accepted))
    ensures NoLeak(StartConnect(s, accepted))
  {
    OldIsDropped(s);
  }

  lemma ResolvedTracks(s: State, id: nat, result: Resolution)
    requires Inv(s) && NoLeak(s) && id in s.resolves
    ensures NoLeak(OnResolved(s, id, result))
  {
  }

  lemma ConnectedTracks(s: State, id: nat, result: Connection)
    requires Inv(s) && NoLeak(s) && Enabled(s, Connected(id, result))
    ensures NoLeak(OnConnected(s, id, result))
  {
  }

  lemma CancelTracks(s: State)
    requires Sound(s) && Tracked(s)
    ensures NoLeak(OnCancel(s))
  {
    var t := CancelConnect(CancelResolve(s));
    assert Tracked(t);
    assert Tracked(CancelConn(t));
  }

  /** Exactly one event loses a handle: a release of a connection that is still open. */
  lemma LeaksIff(s: State, e: Event)
    requires Inv(s) && NoLeak(s) && Enabled(s, e)
    ensures NoLeak(Step(s, e)) <==> !ReleasesOpen(s, e)
  {
    match e
    case Connect(accepted) => ConnectTracks(s, accepted);
    case Resolved(id, result) => ResolvedTracks(s, id, result);
    case Connected(id, result) => ConnectedTracks(s, id, result);
    case Timeout =>
      TellSound(s, TimedOut);
      CancelTracks(Tell(s, TimedOut));
    case Cancel => CancelTracks(s);
    case _ =>
  }

  ghost predicate CarefulRuns(s: State, es: seq<Event>, t: State)
    decreases |es|
  {
    if es == [] then s == t
    else Enabled(s, es[0]) && !ReleasesOpen(s, es[0]) && CarefulRuns(Step(s, es[0]), es[1..], t)
  }

  lemma {:induction false} RunTracks(s: State, es: seq<Event>, t: State)
    requires Inv(s) && NoLeak(s) && CarefulRuns(s, es, t)
    ensures NoLeak(t)
    decreases |es|
  {
    if es != [] {
      StepInv(s, es[0]);
      LeaksIff(s, es[0]);
      RunTracks(Step(s, es[0]), es[1..], t);
    }
  }

  /** In every run in which no open connection is released, every handle that was
      opened is closing or still in use. */
  lemma HandlesAreTracked(es: seq<Event>, s: State, h: nat)
    requires CarefulRuns(INIT, es, s) && h in s.closes
    ensures Closing(s, h) || s.connReq == Some(h) || s.conn == Some(h)
  {
    RunTracks(INIT, es, s);
  }

  // ---------- the source itself ----------

  class Source {
    var current: nat
    var resolveReq: Option<nat>
    var connReq: Option<nat>
    var conn: Option<nat>
    var stream: Option<nat>
    var resolves: map<nat, bool>
    var connects: map<nat, bool>
    var closes: map<nat, nat>
    var waiting: bool
    var outcomes: seq<Outcome>
    var cancelled: set<nat>

    function View(): State
      reads this
    {
      State(current, resolveReq, connReq, conn, stream, resolves, connects, closes, waiting, outcomes, cancelled)
    }

    ghost predicate Valid()
      reads this
    {
      Inv(View())
    }

    constructor ()
      ensures Valid() && View() == INIT
      ensures resolveReq.None? && connReq.None? && conn.None? && !waiting && outcomes == [] && closes == map[]
    {
      current, resolveReq, connReq, conn, stream := 0, None, None, None, None;
      resolves, connects, closes := map[], map[], map[];
      waiting, outcomes, cancelled := false, [], {};
    }

    /** uv_is_closing */
    predicate IsClosing(h: nat)
      reads this
    {
      h in closes && closes[h] > 0
    }

    /** uv_close */
    method CloseHandle(h: nat)
      modifies this`closes
      ensures View() == Close(old(View()), h)
    {
      closes := closes[h := 1 + if h in closes then closes[h] else 0];
    }

    method CloseSourceLink()
      modifies this`closes
      ensures View() == CloseStream(old(View()))
    {
      if stream.Some? {
        if !IsClosing(stream.value) {
          CloseHandle(stream.value);
        }
      }
    }

    method TellClient(status: Status)
      modifies this`outcomes, this`waiting
      ensures View() == Tell(old(View()), status)
    {
      outcomes := outcomes + [Outcome(current, status)];
      waiting := false;
    }

    method DropConn()
      modifies this`conn, this`closes
      ensures View() == DropOld(old(View()))
    {
      if conn.Some? {
        if !IsClosing(conn.value) {
          CloseSourceLink();
        } else {
          conn := None;
        }
      }
    }

    /** tcp_src_connect; the number stands for the callback and its context. */
    method ConnectTo(accepted: bool) returns (rc: int)
      requires Valid() && Enabled(View(), Connect(accepted))
      modifies this
      ensures Valid() && View() == Step(old(View()), Connect(accepted)) && (rc == 0 <==> accepted)
      ensures waiting == accepted && outcomes == old(outcomes)
      ensures old(conn).Some? ==> IsClosing(old(conn).value)
      ensures old(conn.Some? && IsClosing(conn.value)) ==> conn.None? && closes == old(closes)
      ensures old(conn.Some? && !IsClosing(conn.value)) ==> closes == old(closes[conn.value := 1])
    {
      OldIsDropped(View());
      ghost var s := View();
      DropConn();
      rc := StartResolve(accepted);
      DropOldInv(s);
      BeginInv(DropOld(s), accepted);
    }

    method StartResolve(accepted: bool) returns (rc: int)
      modifies this
      ensures View() == Begin(old(View()), accepted) && (rc == 0 <==> accepted)
    {
      current := current + 1;
      resolveReq := Some(current);
      rc := 0;
      if accepted {
        resolves := resolves[current := true];
        waiting := true;
      } else {
        resolveReq := None;
        rc := -1;
      }
    }

    /** resolve_cb: a linked request goes on to connect, or ends its attempt
        with no handle left open. */
    method ResolveCb(id: nat, resolution: Resolution)
      requires Valid() && Enabled(View(), Resolved(id, resolution))
      modifies this
      ensures Valid() && View() == Step(old(View()), Resolved(id, resolution))
      ensures outcomes == old(outcomes) +
        if old(resolves)[id] && !resolution.Started? then [Outcome(id, Failed)] else []
      ensures id in closes ==> resolution.Started? || closes[id] == 1
    {
      ghost var s := View();
      var live := resolves[id];
      resolves := resolves - {id};
      if live {
        Resolve(id, resolution);
      }
      ResolvedEnds(s, id, resolution);
      StepInv(s, Resolved(id, resolution));
    }

    method Resolve(id: nat, resolution: Resolution)
      modifies this
      ensures View() == OnResolvedLive(old(View()), id, resolution)
    {
      if resolution.Refused? || resolution.Started? {
        closes := closes[id := 0];
        connReq := Some(id);
      }
      if resolution.Started? {
        connects := connects[id := true];
      } else {
        TellClient(Failed);
        if connReq.Some? {
          connReq := None;
          if resolution.Refused? {
            CloseHandle(id);
          }
        }
      }
      resolveReq := None;
    }

    /** tcp_connect_cb: a linked request ends its attempt, with an open connection
        or with the handle closed; one that was cut off leaves its handle closed. */
    method ConnectCb(id: nat, connection: Connection)
      requires Valid() && Enabled(View(), Connected(id, connection))
      modifies this
      ensures Valid() && View() == Step(old(View()), Connected(id, connection))
      ensures old(connects)[id] ==> outcomes == old(outcomes) + [Outcome(id, if connection.Done? then Ok else Failed)]
      ensures !old(connects)[id] ==> outcomes == old(outcomes)
      ensures id in closes && closes[id] == (if old(connects)[id] && connection.Done? then 0 else 1)
    {
      ghost var s := View();
      var live := connects[id];
      connects := connects - {id};
      if live {
        FinishConnect(id, connection);
      } else {
        if !IsClosing(id) {
          CloseHandle(id);
        }
      }
      ConnectedEnds(s, id, connection);
      StepInv(s, Connected(id, connection));
    }

    method FinishConnect(id: nat, connection: Connection)
      modifies this
      ensures View() == OnConnectedLive(old(View()), id, connection)
    {
      connReq := None;
      if connection.Canceled? {
        CloseHandle(id);
        return;
      }
      if connection.Done? {
        conn := Some(id);
        stream := Some(id);
        TellClient(Ok);
      } else {
        conn := None;
        CloseHandle(id);
        TellClient(Failed);
      }
    }

    method DetachResolve()
      modifies this`resolves, this`resolveReq
      ensures View() == CancelResolve(old(View()))
    {
      if resolveReq.Some? {
        resolves := resolves[resolveReq.value := false];
        resolveReq := None;
      }
    }

    method DetachConnect()
      modifies this`closes, this`connects, this`connReq
      ensures View() == CancelConnect(old(View()))
    {
      if connReq.Some? {
        CloseHandle(connReq.value);
        connects := connects[connReq.value := false];
        connReq := None;
      }
    }

    method CloseConn()
      modifies this`closes
      ensures View() == CancelConn(old(View()))
    {
      if conn.Some? && !IsClosing(conn.value) {
        CloseSourceLink();
      }
    }

    method CancelRequests()
      modifies this
      ensures View() == OnCancel(old(View()))
    {
      DetachResolve();
      DetachConnect();
      CloseConn();
      cancelled := cancelled + {current};
      waiting := false;
    }

    /** tcp_src_cancel: no request in flight can reach the client any more, and
        no handle of the source stays open. */
    method CancelAttempt()
      requires Valid()
      modifies this
      ensures Valid() && View() == Step(old(View()), Cancel)
      ensures !waiting && outcomes == old(outcomes)
      ensures (forall id <- resolves :: !resolves[id]) && (forall id <- connects :: !connects[id])
      ensures conn.Some? ==> IsClosing(conn.value)
    {
      ghost var s := View();
      CancelRequests();
      CancelTells(s);
      CancelCutsOff(s);
    }

    /** src_connect_timeout of the HTTP client: the outcome comes first, then the cancel. */
    method ConnectTimeout()
      requires Valid() && Enabled(View(), Timeout)
      modifies this
      ensures Valid() && View() == Step(old(View()), Timeout)
      ensures !waiting && outcomes == old(outcomes) + [Outcome(current, TimedOut)]
      ensures (forall id <- resolves :: !resolves[id]) && (forall id <- connects :: !connects[id])
    {
      ghost var s := View();
      TellClient(TimedOut);
      CancelRequests();
      TellSound(s, TimedOut);
      CancelTells(Tell(s, TimedOut));
      CancelCutsOff(Tell(s, TimedOut));
    }

    /** The chain above the source is closed. */
    method CloseLink()
      requires Valid() && Enabled(View(), Event.CloseLink)
      modifies this
      ensures Valid() && View() == Step(old(View()), Event.CloseLink)
      ensures stream.Some? && closes[stream.value] == 1
    {
      ghost var s := View();
      CloseSourceLink();
      StepInv(s, Event.CloseLink);
    }

    /** uv_link_source_close_cb and link_close_cb: the link has no stream any more. */
    method OnStreamClosed()
      requires Valid() && Enabled(View(), LinkClosed)
      modifies this
      ensures Valid() && View() == Step(old(View()), LinkClosed)
      ensures conn.None? && stream.None? && closes == old(closes) && outcomes == old(outcomes)
    {
      ghost var s := View();
      conn, stream := None, None;
      StepInv(s, LinkClosed);
    }

    /** tcp_src_release: the connection is dropped, never closed a second time. */
    method Forget()
      requires Valid()
      modifies this
      ensures Valid() && View() == Step(old(View()), Release)
      ensures conn.None? && closes == old(closes) && outcomes == old(outcomes)
    {
      ghost var s := View();
      conn := None;
      StepInv(s, Release);
    }
  }
}
