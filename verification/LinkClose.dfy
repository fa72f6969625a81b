/**
 Closing a chain of links while calls through its links are still in progress.

 Links are numbered from the root (0) to the leaf (n - 1). The C call stack is
 an explicit sequence of frames, so that calls can nest in any order. A link's
 close method is code of the link's owner: while it runs the environment may
 enter further calls, and it may report completion before returning, later, or
 from inside any other call.
 */
module LinkClose {

  datatype Frame =
    | Call(link: nat)         // a wrapped method or a read/alloc callback of `link` is running
    | Propagate               // uv_link_propagate_close is between two turns of its loop
    | CloseMethod(link: nat)  // the close method of `link` is running

  /** The fields of the links of one chain, the stack, and what an observer counts. */
  datatype Chain = Chain(
    depth: seq<int>,        // close_depth of each link
    pending: seq<bool>,     // pending_close_source != NULL, for each link
    waiting: int,           // close_waiting of the leaf
    closing: bool,          // uv_link_close was called on the leaf
    visited: nat,           // links already disconnected by the propagation loop
    stack: seq<Frame>,      // innermost frame last
    started: seq<nat>,      // runs of each link's close method
    joined: seq<nat>,       // completions reported by each link's close method
    callbacks: nat          // runs of the user's close callback
  )

  datatype Event =
    | Method(link: nat)  // uv_link_read_start and the other wrapped entry points
    | Read(link: nat)    // uv_link_propagate_read_cb or _alloc_cb
    | Return             // the innermost environment frame returns
    | Close              // uv_link_close on the leaf
    | Advance            // one turn of the propagation loop
    | Join(link: nat)    // the close method of `link` reports completion

  function Fresh(n: nat): Chain
  {
    Chain(seq(n, _ => 0), seq(n, _ => false), 0, false, 0, [], seq(n, _ => 0), seq(n, _ => 0), 0)
  }

  function Size(s: Chain): nat {
    |s.depth|
  }

  predicate WellSized(s: Chain) {
    |s.pending| == |s.depth| && |s.started| == |s.depth| && |s.joined| == |s.depth|
  }

  predicate Propagating(s: Chain) {
    s.stack != [] && s.stack[|s.stack| - 1].Propagate?
  }

  /** The callbacks of a link run on its child while the two are still chained. */
  function ReadTarget(s: Chain, l: nat): nat {
    if s.visited <= l && l + 1 < Size(s) then l + 1 else l
  }

  predicate Enabled(s: Chain, e: Event)
    requires WellSized(s)
  {
    match e
    case Method(l) => l < Size(s) && !Propagating(s)
    case Read(l) => l < Size(s) && !Propagating(s)
    case Return => s.stack != [] && !Propagating(s) && s.stack[|s.stack| - 1].link < Size(s)
    case Close => Size(s) > 0 && !s.closing && !Propagating(s)
    case Advance => Propagating(s) && s.visited <= Size(s)
    // every close method calls its callback once
    case Join(l) => l < Size(s) && !Propagating(s) && s.joined[l] < s.started[l]
  }

  function Enter(s: Chain, l: nat): Chain
    requires WellSized(s) && l < Size(s)
  {
    s.(depth := s.depth[l := s.depth[l] + 1], stack := s.stack + [Call(l)])
  }

  function RunClose(s: Chain, l: nat): Chain
    requires WellSized(s) && l < Size(s)
  {
    s.(started := s.started[l := s.started[l] + 1], stack := s.stack + [CloseMethod(l)])
  }

  function MaybeClose(s: Chain, l: nat): Chain
    requires WellSized(s) && l < Size(s)
  {
    if s.pending[l] then RunClose(s.(pending := s.pending[l := false]), l) else s
  }

  function Leave(s: Chain): Chain
    requires WellSized(s) && Enabled(s, Return)
  {
    var top := s.stack[|s.stack| - 1];
    var s' := s.(stack := s.stack[..|s.stack| - 1]);
    if top.Call? then
      var s'' := s'.(depth := s'.depth[top.link := s'.depth[top.link] - 1]);
      if s''.depth[top.link] == 0 then MaybeClose(s'', top.link) else s''
    else s'
  }

  function Visit(s: Chain): Chain
    requires WellSized(s) && Enabled(s, Advance)
  {
    var l := s.visited;
    if l == Size(s) then s.(stack := s.stack[..|s.stack| - 1])
    else if s.depth[l] == 0 then RunClose(s.(visited := l + 1), l)
    else s.(visited := l + 1, pending := s.pending[l := true])
  }

  function CloseJoin(s: Chain, l: nat): Chain
    requires WellSized(s) && l < Size(s)
  {
    var s' := s.(waiting := s.waiting - 1, joined := s.joined[l := s.joined[l] + 1]);
    if s'.waiting == 0 then s'.(callbacks := s'.callbacks + 1) else s'
  }

  function Step(s: Chain, e: Event): Chain
    requires WellSized(s) && Enabled(s, e)
  {
    match e
    case Method(l) => Enter(s, l)
    case Read(l) => Enter(s, ReadTarget(s, l))
    case Return => Leave(s)
    case Close => s.(closing := true, waiting := s.waiting + Size(s), stack := s.stack + [Propagate])
    case Advance => Visit(s)
    case Join(l) => CloseJoin(s, l)
  }

  /** `t` is the state after the events `es`, each enabled when it happens. */
  ghost predicate Runs(s: Chain, es: seq<Event>, t: Chain)
    decreases |es|
  {
    if es == [] then s == t
    else WellSized(s) && Enabled(s, es[0]) && Runs(Step(s, es[0]), es[1..], t)
  }

  // ---------- the invariant ----------

  function Calls(stack: seq<Frame>, l: nat): nat {
    if stack == [] then 0
    else Calls(stack[..|stack| - 1], l) + if stack[|stack| - 1] == Call(l) then 1 else 0
  }

  /** A link the user's callback still has to wait for. */
  predicate Owes(s: Chain, l: nat)
    requires WellSized(s) && l < Size(s)
  {
    l >= s.visited || s.pending[l] || s.joined[l] < s.started[l]
  }

  function Owed(s: Chain): set<nat>
    requires WellSized(s)
  {
    set l | 0 <= l < Size(s) && Owes(s, l)
  }

  ghost predicate LinkInv(s: Chain, l: nat)
    requires WellSized(s) && l < Size(s)
  {
    && s.depth[l] == Calls(s.stack, l)
    && s.joined[l] <= s.started[l]
    && s.started[l] == (if l < s.visited && !s.pending[l] then 1 else 0)
    && (s.pending[l] ==> l < s.visited && s.depth[l] > 0)
  }

  /** No close method runs inside a call through its own link. */
  ghost predicate NeverUnderCall(stack: seq<Frame>) {
    forall i, j :: 0 <= i < j < |stack| && stack[j].CloseMethod? ==> stack[i] != Call(stack[j].link)
  }

  ghost predicate StackInv(s: Chain) {
    && NeverUnderCall(s.stack)
    && (forall i :: 0 <= i < |s.stack| && !s.stack[i].Propagate? ==> s.stack[i].link < Size(s))
    && (forall i, j :: 0 <= i < j < |s.stack| ==> !(s.stack[i].Propagate? && s.stack[j].Propagate?))
    && (s.visited < Size(s) && s.closing ==> Propagate in s.stack)
    && (Propagate in s.stack ==> s.closing)
  }

  ghost predicate Inv(s: Chain) {
    && WellSized(s) && Size(s) > 0
    && s.visited <= Size(s)
    && (!s.closing ==> s.visited == 0)
    && (forall l :: 0 <= l < Size(s) ==> LinkInv(s, l))
    && StackInv(s)
    && s.waiting == (if s.closing then |Owed(s)| else 0)
    && s.callbacks == (if s.closing && s.waiting == 0 then 1 else 0)
  }

  lemma CallsPush(stack: seq<Frame>, f: Frame, l: nat)
    ensures Calls(stack + [f], l) == Calls(stack, l) + if f == Call(l) then 1 else 0
  {
    assert (stack + [f])[..|stack|] == stack;
  }

  lemma {:induction false} CallsZero(stack: seq<Frame>, l: nat)
    ensures Calls(stack, l) == 0 <==> Call(l) !in stack
  {
    if stack != [] {
      CallsZero(stack[..|stack| - 1], l);
      assert stack == stack[..|stack| - 1] + [stack[|stack| - 1]];
    }
  }

  lemma FreshInv(n: nat)
    requires n > 0
    ensures Inv(Fresh(n))
  {
  }

  lemma EnterInv(s: Chain, l: nat)
    requires Inv(s) && l < Size(s) && !Propagating(s)
    ensures Inv(Enter(s, l))
  {
    var t := Enter(s, l);
    forall k | 0 <= k < Size(t) ensures LinkInv(t, k) {
      assert LinkInv(s, k);
      CallsPush(s.stack, Call(l), k);
    }
    assert Owed(t) == Owed(s);
    PushStack(s, Call(l));
  }

  /** What pushing a frame other than the loop's keeps. */
  lemma PushStack(s: Chain, f: Frame)
    requires StackInv(s) && !f.Propagate? && f.link < Size(s)
    requires f.CloseMethod? ==> Call(f.link) !in s.stack
    ensures StackInv(s.(stack := s.stack + [f]))
  {
    assert Propagate in s.stack ==> Propagate in s.stack + [f];
  }

  lemma PopStack(s: Chain)
    requires StackInv(s) && s.stack != []
    requires Propagating(s) ==> s.visited == Size(s)
    ensures StackInv(s.(stack := s.stack[..|s.stack| - 1]))
  {
    var n := |s.stack| - 1;
    assert s.stack == s.stack[..n] + [s.stack[n]];
  }

  /** The joint effect of MaybeClose and of the direct call in the loop: `l`
      is no longer deferred or unvisited, but its close method has to report. */
  lemma RunCloseInv(s: Chain, t: Chain, l: nat)
    requires WellSized(s) && WellSized(t) && Size(t) == Size(s) > 0 && l < Size(s)
    requires s.closing && s.visited <= Size(s) && StackInv(s) && Calls(s.stack, l) == 0
    requires forall k :: 0 <= k < Size(s) && k != l ==> LinkInv(s, k)
    requires s.depth[l] == 0 && s.joined[l] == s.started[l] == 0 && !s.pending[l] && l < s.visited
    requires t == RunClose(s, l)
    ensures forall k :: 0 <= k < Size(t) ==> LinkInv(t, k)
    ensures StackInv(t)
    ensures Owed(t) == Owed(s) + {l}
  {
    forall k | 0 <= k < Size(t) ensures LinkInv(t, k) {
      assert k != l ==> LinkInv(s, k);
      CallsPush(s.stack, CloseMethod(l), k);
    }
    CallsZero(s.stack, l);
    PushStack(s, CloseMethod(l));
    assert forall k :: 0 <= k < Size(s) && k != l ==> Owes(t, k) == Owes(s, k);
    assert Owes(t, l);
  }

  lemma ReturnInv(s: Chain)
    requires Inv(s) && Enabled(s, Return)
    ensures Inv(Leave(s))
  {
    PopStack(s);
    if s.stack[|s.stack| - 1].CloseMethod? {
      var p := s.(stack := s.stack[..|s.stack| - 1]);
      forall k | 0 <= k < Size(s) ensures LinkInv(p, k) {
        assert LinkInv(s, k);
      }
      assert Owed(p) == Owed(s);
    } else {
      CallReturnInv(s);
    }
  }

  lemma CallReturnInv(s: Chain)
    requires Inv(s) && Enabled(s, Return) && !s.stack[|s.stack| - 1].CloseMethod?
    ensures Inv(Leave(s))
  {
    PopStack(s);
    var l := s.stack[|s.stack| - 1].link;
    var q := s.(stack := s.stack[..|s.stack| - 1], depth := s.depth[l := s.depth[l] - 1]);
    forall k | 0 <= k < Size(s) && k != l ensures LinkInv(q, k) {
      assert LinkInv(s, k);
    }
    assert LinkInv(s, l);
    if q.depth[l] == 0 && s.pending[l] {
      DeferredCloseInv(s, q, l);
    } else {
      assert LinkInv(q, l);
      assert Owed(q) == Owed(s);
    }
  }

  /** The last call through a deferred link has returned. */
  lemma DeferredCloseInv(s: Chain, q: Chain, l: nat)
    requires Inv(s) && l < Size(s) && s.pending[l]
    requires q == s.(stack := q.stack, depth := q.depth)
    requires |q.depth| == |s.depth| && StackInv(q) && q.depth[l] == 0 == Calls(q.stack, l)
    requires forall k :: 0 <= k < Size(s) && k != l ==> LinkInv(q, k)
    ensures Inv(MaybeClose(q, l))
  {
    var r := q.(pending := q.pending[l := false]);
    var t := MaybeClose(q, l);
    forall k | 0 <= k < Size(s) && k != l ensures LinkInv(r, k) {
      assert LinkInv(q, k);
    }
    assert LinkInv(s, l);
    RunCloseInv(r, t, l);
    assert forall k :: 0 <= k < Size(s) && k != l ==> Owes(r, k) == Owes(s, k);
    assert Owes(s, l);
    assert Owed(t) == Owed(s);
  }

  lemma CloseInv(s: Chain)
    requires Inv(s) && Enabled(s, Close)
    ensures Inv(Step(s, Close))
  {
    var t := Step(s, Close);
    forall k | 0 <= k < Size(t) ensures LinkInv(t, k) {
      assert LinkInv(s, k);
      CallsPush(s.stack, Propagate, k);
    }
    assert t.stack[|s.stack|] == Propagate;
    assert forall k :: 0 <= k < Size(t) ==> Owes(t, k);
    assert Owed(t) == Below(Size(t));
  }

  function Below(n: nat): (r: set<nat>)
    ensures |r| == n && forall k: nat :: k in r <==> k < n
  {
    if n == 0 then {} else Below(n - 1) + {n - 1}
  }

  lemma AdvanceInv(s: Chain)
    requires Inv(s) && Enabled(s, Advance)
    ensures Inv(Visit(s))
  {
    var l := s.visited;
    var t := Visit(s);
    if l == Size(s) {
      PopStack(s);
      assert forall k :: 0 <= k < Size(s) && LinkInv(s, k) ==> LinkInv(t, k);
      assert Owed(t) == Owed(s);
    } else {
      assert LinkInv(s, l) && Owes(s, l);
      var r := s.(visited := l + 1);
      assert forall k :: 0 <= k < Size(s) && k != l && LinkInv(s, k) ==> LinkInv(r, k);
      assert forall k :: 0 <= k < Size(s) && k != l ==> Owes(r, k) == Owes(s, k);
      assert s.stack[|s.stack| - 1] == Propagate;
      if s.depth[l] == 0 {
        RunCloseInv(r, t, l);
        assert Owed(t) == Owed(s);
      } else {
        assert forall k :: 0 <= k < Size(s) && k != l && LinkInv(r, k) ==> LinkInv(t, k);
        assert LinkInv(t, l) && Owes(t, l);
        assert Owed(t) == Owed(s);
      }
    }
  }

  lemma JoinInv(s: Chain, l: nat)
    requires Inv(s) && Enabled(s, Join(l))
    ensures Inv(CloseJoin(s, l))
  {
    var t := CloseJoin(s, l);
    assert LinkInv(s, l) && Owes(s, l);
    assert forall k :: 0 <= k < Size(s) && LinkInv(s, k) ==> LinkInv(t, k);
    assert Owed(t) == Owed(s) - {l};
  }

  lemma StepInv(s: Chain, e: Event)
    requires Inv(s) && Enabled(s, e)
    ensures Inv(Step(s, e))
  {
    match e
    case Method(l) => EnterInv(s, l);
    case Read(l) => EnterInv(s, ReadTarget(s, l));
    case Return => ReturnInv(s);
    case Close => CloseInv(s);
    case Advance => AdvanceInv(s);
    case Join(l) => JoinInv(s, l);
  }

  lemma {:induction false} RunInv(s: Chain, es: seq<Event>, t: Chain)
    requires Inv(s) && Runs(s, es, t)
    ensures Inv(t)
    decreases |es|
  {
    if es != [] {
      StepInv(s, es[0]);
      RunInv(Step(s, es[0]), es[1..], t);
    }
  }

  // ---------- what the protocol promises, for every run ----------

  /** The user's callback runs at most once, and only after every close method
      has run exactly once and has reported. */
  lemma CallbackOnceAfterAll(n: nat, es: seq<Event>, t: Chain)
    requires n > 0 && Runs(Fresh(n), es, t)
    ensures WellSized(t) && t.callbacks <= 1
    ensures forall l :: 0 <= l < Size(t) ==> t.joined[l] <= t.started[l] <= 1
    ensures t.callbacks == 1 ==> forall l :: 0 <= l < Size(t) ==> t.started[l] == t.joined[l] == 1
  {
    FreshInv(n);
    RunInv(Fresh(n), es, t);
    forall l | 0 <= l < Size(t)
      ensures t.joined[l] <= t.started[l] <= 1
      ensures t.callbacks == 1 ==> t.started[l] == t.joined[l] == 1
    {
      assert LinkInv(t, l);
      assert t.waiting == 0 && t.closing ==> l !in Owed(t);
    }
  }

  /** At no point of any run is a close method on the stack above a call through
      the same link: deferral works for every nesting of calls. */
  lemma CloseNeverUnderCall(n: nat, es: seq<Event>, t: Chain)
    requires n > 0 && Runs(Fresh(n), es, t)
    ensures NeverUnderCall(t.stack)
  {
    FreshInv(n);
    RunInv(Fresh(n), es, t);
  }

  /** close_waiting counts the links not yet visited, those deferred, and those
      whose close method has started and not reported. */
  lemma WaitingIsOwed(n: nat, es: seq<Event>, t: Chain)
    requires n > 0 && Runs(Fresh(n), es, t)
    ensures WellSized(t) && (t.closing ==> t.waiting == |Owed(t)|)
  {
    FreshInv(n);
    RunInv(Fresh(n), es, t);
  }

  /** Once the stack has unwound and every started close method has reported,
      the callback has run. */
  lemma QuiescentMeansClosed(n: nat, es: seq<Event>, t: Chain)
    requires n > 0 && Runs(Fresh(n), es, t)
    requires t.closing && t.stack == []
    requires WellSized(t) && forall l :: 0 <= l < Size(t) ==> t.joined[l] == t.started[l]
    ensures t.callbacks == 1
  {
    FreshInv(n);
    RunInv(Fresh(n), es, t);
    forall l | 0 <= l < Size(t) ensures !Owes(t, l) {
      assert LinkInv(t, l);
    }
    assert Owed(t) == {};
  }

  // ---------- which link a call is counted on ----------

  /** A call of one link begins: its depth, and no other, is raised. */
  ghost predicate Entered(s: Chain, t: Chain, k: nat) {
    && WellSized(s) && k < Size(s)
    && t == s.(depth := t.depth, stack := s.stack + [Call(k)])
    && |t.depth| == |s.depth|
    && forall i :: 0 <= i < |s.depth| ==> t.depth[i] == if i == k then s.depth[i] + 1 else s.depth[i]
  }

  /** A method is a call of its own link. A read or alloc callback runs on the
      child while the two are chained, that is until the close loop has come past
      the link, and on the link itself otherwise. */
  lemma CallsAreCountedOn(s: Chain, l: nat)
    requires Inv(s) && l < Size(s) && !Propagating(s)
    ensures Entered(s, Step(s, Method(l)), l)
    ensures s.visited <= l && l + 1 < Size(s) ==> Entered(s, Step(s, Read(l)), l + 1)
    ensures s.visited > l || l + 1 == Size(s) ==> Entered(s, Step(s, Read(l)), l)
  {
  }

  /** A run during which the frame at position `n` of the stack does not return. */
  ghost predicate RunsInside(s: Chain, es: seq<Event>, t: Chain, n: nat)
    decreases |es|
  {
    |s.stack| > n &&
    if es == [] then s == t
    else
      && WellSized(s) && Enabled(s, es[0]) && !(es[0].Return? && |s.stack| == n + 1)
      && RunsInside(Step(s, es[0]), es[1..], t, n)
  }

  /** Only the last return from a call can start the close of its link. */
  lemma StepInside(s: Chain, e: Event, n: nat, k: nat)
    requires Inv(s) && Enabled(s, e) && n < |s.stack| && s.stack[n] == Call(k) && k < Size(s) && s.started[k] == 0
    requires !(e.Return? && |s.stack| == n + 1)
    ensures var t := Step(s, e);
      WellSized(t) && Size(t) == Size(s) && n < |t.stack| && t.stack[n] == Call(k) && t.started[k] == 0
  {
    StillBusy(s, n, k);
    if e.Return? {
      ReturnInside(s, n, k);
    }
  }

  lemma StillBusy(s: Chain, n: nat, k: nat)
    requires Inv(s) && n < |s.stack| && s.stack[n] == Call(k) && k < Size(s)
    ensures s.depth[k] > 0
  {
    assert Call(k) in s.stack;
    CallsZero(s.stack, k);
    assert LinkInv(s, k);
  }

  lemma ReturnInside(s: Chain, n: nat, k: nat)
    requires Inv(s) && Enabled(s, Return) && n < |s.stack| - 1 && s.stack[n] == Call(k) && k < Size(s)
    ensures Leave(s).started[k] == s.started[k] && n < |Leave(s).stack| && Leave(s).stack[n] == Call(k)
  {
    var p, top := s.stack[..|s.stack| - 1], s.stack[|s.stack| - 1];
    assert p[n] == Call(k);
    CallsZero(p, k);
    assert s.stack == p + [top];
    CallsPush(p, top, k);
    assert LinkInv(s, k);
  }

  lemma {:induction false} OpenInside(s: Chain, es: seq<Event>, t: Chain, n: nat, k: nat)
    requires Inv(s) && RunsInside(s, es, t, n) && s.stack[n] == Call(k) && k < Size(s) && s.started[k] == 0
    ensures Inv(t) && n < |t.stack| && t.stack[n] == Call(k) && k < Size(t) && t.started[k] == 0
    decreases |es|
  {
    if es != [] {
      StepInv(s, es[0]);
      StepInside(s, es[0], n, k);
      OpenInside(Step(s, es[0]), es[1..], t, n, k);
    }
  }

  /** A read or alloc callback that entered a link through its parent: whatever
      happens inside it, the close of the whole chain included, the close method of the
      link whose callback is running does not start before it returns. */
  lemma ReadHoldsOffClose(n: nat, before: seq<Event>, s: Chain, l: nat, during: seq<Event>, t: Chain)
    requires n > 0 && Runs(Fresh(n), before, s) && WellSized(s) && Enabled(s, Read(l))
    requires s.visited <= l && l + 1 < Size(s) && RunsInside(Step(s, Read(l)), during, t, |s.stack|)
    ensures WellSized(t) && l + 1 < Size(t) && t.started[l + 1] == 0
    ensures |s.stack| < |t.stack| && t.stack[|s.stack|] == Call(l + 1)
  {
    FreshInv(n);
    RunInv(Fresh(n), before, s);
    assert LinkInv(s, l + 1);
    StepInv(s, Read(l));
    CallsAreCountedOn(s, l);
    OpenInside(Step(s, Read(l)), during, t, |s.stack|, l + 1);
  }

  // ---------- a close that was started can always be finished ----------

  function Deferred(s: Chain): set<nat>
    requires WellSized(s)
  {
    set l | 0 <= l < Size(s) && s.pending[l]
  }

  /** The environment's part of finishing: let the loop turn, return from
      whatever is running, and report one outstanding completion. */
  ghost function NextToFinish(s: Chain): (e: Event)
    requires Inv(s) && s.closing && s.waiting > 0
    ensures Enabled(s, e)
  {
    if Propagating(s) then Advance
    else if s.stack != [] then Return
    else
      assert Owed(s) != {};
      var l :| l in Owed(s);
      assert LinkInv(s, l);
      Join(l)
  }

  lemma FinishingProgress(s: Chain)
    requires Inv(s) && s.closing && s.waiting > 0
    ensures var t := Step(s, NextToFinish(s));
      WellSized(t) && Size(t) == Size(s) &&
      (Size(s) - s.visited, |Deferred(s)|, |s.stack|, s.waiting decreases to
       Size(t) - t.visited, |Deferred(t)|, |t.stack|, t.waiting)
  {
    var t := Step(s, NextToFinish(s));
    if Propagating(s) {
      assert s.visited == Size(s) ==> Deferred(t) == Deferred(s);
    } else if s.stack != [] && s.stack[|s.stack| - 1].Call? {
      var l := s.stack[|s.stack| - 1].link;
      assert Deferred(t) == Deferred(s) - if s.depth[l] == 1 then {l} else {};
      assert s.depth[l] == 1 && s.pending[l] ==> l in Deferred(s);
    } else {
      assert Deferred(t) == Deferred(s);
    }
  }

  lemma FinishingRun(s: Chain) returns (es: seq<Event>, t: Chain)
    requires Inv(s) && s.closing
    ensures Runs(s, es, t) && t.callbacks == 1
    decreases Size(s) - s.visited, |Deferred(s)|, |s.stack|, s.waiting
  {
    if s.waiting == 0 {
      return [], s;
    }
    var e := NextToFinish(s);
    StepInv(s, e);
    FinishingProgress(s);
    var rest;
    rest, t := FinishingRun(Step(s, e));
    es := [e] + rest;
    assert es[1..] == rest;
  }

  /** From every reachable state with a close in progress there is a way on to
      the callback: no deferral is ever forgotten. */
  lemma CloseCanFinish(n: nat, es: seq<Event>, s: Chain)
    requires n > 0 && Runs(Fresh(n), es, s) && s.closing
    ensures exists more: seq<Event>, t: Chain :: Runs(s, more, t) && t.callbacks == 1
  {
    FreshInv(n);
    RunInv(Fresh(n), es, s);
    var more, t := FinishingRun(s);
  }
}
