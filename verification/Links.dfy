/**
 Links as heap objects: chaining, unchaining, error prefixes and the
 disconnecting half of a close.

 Which links form which chain is a ghost value, a World. The objects fit a
 world when every parent and child pointer, every error prefix and every
 overridden callback is what the world says.
 */
module Links {
  import opened CText
  import opened LinkErrors
  import opened Options

  type Callback = nat  // the identity of a C function; 0 is NULL

  datatype Methods = Methods(allocOverride: Callback, readOverride: Callback)

  class Link {
    const methods: Methods
    var parent: Link?
    var child: Link?
    var allocCb: Callback
    var readCb: Callback
    var savedAllocCb: Callback
    var savedReadCb: Callback
    var errPrefix: nat
    var closeDepth: int
    var closeWaiting: int
    var savedCloseCb: Callback
    var pendingCloseSource: Link?
    ghost var closeRuns: nat  // runs of methods->close

    /** uv_link_init; the two callbacks are the library's defaults or the caller's. */
    constructor (methods: Methods, allocCb: Callback, readCb: Callback)
      ensures WellFormed(Single(this, (allocCb, readCb)))
      ensures errPrefix == PREFIX_UNIT && this.methods == methods
      ensures closeDepth == 0 && closeWaiting == 0 && pendingCloseSource == null && closeRuns == 0
    {
      this.methods := methods;
      parent, child := null, null;
      this.allocCb, this.readCb := allocCb, readCb;
      savedAllocCb, savedReadCb := 0, 0;
      errPrefix := PREFIX_UNIT;
      closeDepth, closeWaiting, savedCloseCb, pendingCloseSource := 0, 0, 0, null;
      closeRuns := 0;
    }
  }

  // ---------- worlds: disjoint chains of links ----------

  /** For each link its chain from root to leaf, its position there, and the
      alloc and read callbacks it has while no child overrides them. */
  datatype World = World(chain: map<Link, seq<Link>>, pos: map<Link, nat>, own: map<Link, (Callback, Callback)>)

  ghost predicate InChain(w: World, l: Link)
    requires l in w.chain && l in w.pos
  {
    && w.pos[l] < |w.chain[l]| && w.chain[l][w.pos[l]] == l
    && forall i :: 0 <= i < |w.chain[l]| ==>
         var m := w.chain[l][i]; m in w.chain && m in w.pos && w.chain[m] == w.chain[l] && w.pos[m] == i
  }

  /** Every link lies in exactly one chain, once. */
  ghost predicate Coherent(w: World) {
    && w.pos.Keys == w.chain.Keys == w.own.Keys
    && forall l {:trigger InChain(w, l)} :: l in w.chain ==> InChain(w, l)
  }

  ghost function Up(w: World, l: Link): Link?
    requires l in w.chain && l in w.pos && w.pos[l] < |w.chain[l]|
  {
    if w.pos[l] == 0 then null else w.chain[l][w.pos[l] - 1]
  }

  ghost function Down(w: World, l: Link): Link?
    requires l in w.chain && l in w.pos && w.pos[l] < |w.chain[l]|
  {
    if w.pos[l] + 1 == |w.chain[l]| then null else w.chain[l][w.pos[l] + 1]
  }

  ghost function Single(l: Link, own: (Callback, Callback)): World {
    World(map[l := [l]], map[l := 0], map[l := own])
  }

  ghost function Added(w: World, l: Link, own: (Callback, Callback)): World {
    World(w.chain[l := [l]], w.pos[l := 0], w.own[l := own])
  }

  ghost function Joined(w: World, from: Link, to: Link): World
    requires Coherent(w) && from in w.chain && to in w.chain
  {
    var a, b := w.chain[from], w.chain[to];
    World(map l | l in w.chain :: if w.chain[l] == a || w.chain[l] == b then a + b else w.chain[l],
          map l | l in w.chain :: if w.chain[l] == b then |a| + w.pos[l] else w.pos[l],
          w.own)
  }

  ghost function Split(w: World, from: Link): World
    requires Coherent(w) && from in w.chain
  {
    assert InChain(w, from);
    var whole, k := w.chain[from], w.pos[from] + 1;
    World(map l | l in w.chain ::
            if w.chain[l] != whole then w.chain[l] else if w.pos[l] < k then whole[..k] else whole[k..],
          map l | l in w.chain :: if w.chain[l] == whole && w.pos[l] >= k then w.pos[l] - k else w.pos[l],
          w.own)
  }

  lemma JoinedCoherent(w: World, from: Link, to: Link)
    requires Coherent(w) && from in w.chain && to in w.chain
    requires w.chain[to] != w.chain[from]
    ensures Coherent(Joined(w, from, to))
  {
    var w' := Joined(w, from, to);
    assert InChain(w, from) && InChain(w, to);
    forall l | l in w'.chain ensures InChain(w', l) {
      assert InChain(w, l);
    }
  }

  lemma SplitCoherent(w: World, from: Link)
    requires Coherent(w) && from in w.chain
    ensures Coherent(Split(w, from))
  {
    assert InChain(w, from);
    var w' := Split(w, from);
    forall l | l in w'.chain ensures InChain(w', l) {
      assert InChain(w, l);
    }
  }

  /** Joining and splitting change the neighbours of the two links concerned only. */
  lemma JoinedNeighbours(w: World, from: Link, to: Link, l: Link)
    requires Coherent(w) && from in w.chain && to in w.chain && l in w.chain
    requires InChain(w, from) && InChain(w, to) && InChain(w, l) && w.chain[to] != w.chain[from]
    requires Down(w, from) == null && Up(w, to) == null
    ensures var w' := Joined(w, from, to);
      && w'.pos[l] < |w'.chain[l]|
      && Up(w', l) == (if l == to then from else Up(w, l))
      && Down(w', l) == (if l == from then to else Down(w, l))
  {
  }

  lemma SplitUp(w: World, from: Link, l: Link)
    requires Coherent(w) && from in w.chain && l in w.chain
    requires InChain(w, from) && InChain(w, l) && Down(w, from) != null
    ensures var w' := Split(w, from);
      w'.pos[l] < |w'.chain[l]| && Up(w', l) == (if l == Down(w, from) then null else Up(w, l))
  {
  }

  lemma SplitDown(w: World, from: Link, l: Link)
    requires Coherent(w) && from in w.chain && l in w.chain
    requires InChain(w, from) && InChain(w, l) && Down(w, from) != null
    ensures var w' := Split(w, from);
      w'.pos[l] < |w'.chain[l]| && Down(w', l) == (if l == from then null else Down(w, l))
  {
  }

  // ---------- objects that fit a world ----------

  datatype Fields = Fields(parent: Link?, child: Link?, allocCb: Callback, readCb: Callback,
                           savedAllocCb: Callback, savedReadCb: Callback, errPrefix: nat)

  type Heap = map<Link, Fields>

  ghost function Look(l: Link): Fields
    reads l
  {
    Fields(l.parent, l.child, l.allocCb, l.readCb, l.savedAllocCb, l.savedReadCb, l.errPrefix)
  }

  /** The fields that only closing touches, and the close method's runs. */
  datatype CloseFields = CloseFields(depth: int, waiting: int, callback: Callback, pending: Link?, runs: nat)

  ghost function Closing(l: Link): CloseFields
    reads l
  {
    CloseFields(l.closeDepth, l.closeWaiting, l.savedCloseCb, l.pendingCloseSource, l.closeRuns)
  }

  ghost function View(links: set<Link>): Heap
    reads links
  {
    map l | l in links :: Look(l)
  }

  ghost predicate Fits(w: World, h: Heap, l: Link)
    requires Coherent(w) && h.Keys == w.chain.Keys && l in h
  {
    assert InChain(w, l);
    var f := h[l];
    && f.parent == Up(w, l)
    && f.child == Down(w, l)
    && Shifted(f.errPrefix)
    && (f.child == null ==> (f.allocCb, f.readCb) == w.own[l])
    && (f.child != null ==>
          var c: Link := f.child;
          && (f.savedAllocCb, f.savedReadCb) == w.own[l]
          && (f.allocCb, f.readCb) == (c.methods.allocOverride, c.methods.readOverride)
          && c in h && h[c].errPrefix == NextPrefix(f.errPrefix))
  }

  ghost predicate AllFit(w: World, h: Heap) {
    && Coherent(w) && h.Keys == w.chain.Keys
    && forall l {:trigger Fits(w, h, l)} :: l in h ==> Fits(w, h, l)
  }

  ghost predicate WellFormed(w: World)
    reads w.chain.Keys
  {
    AllFit(w, View(w.chain.Keys))
  }

  /** Each link's prefix is the one after its parent's. */
  ghost predicate Numbered(h: Heap, b: seq<Link>) {
    && (forall l :: l in b ==> l in h)
    && forall i, j :: 0 <= i < j < |b| && j == i + 1 ==> h[b[j]].errPrefix == NextPrefix(h[b[i]].errPrefix)
  }

  /** The field updates of uv_link_chain, prefixes aside. */
  ghost function Tied(h: Heap, from: Link, to: Link): Heap
    requires from in h && to in h
  {
    var f := h[from];
    h[from := f.(child := to, savedAllocCb := f.allocCb, savedReadCb := f.readCb,
                 allocCb := to.methods.allocOverride, readCb := to.methods.readOverride)]
     [to := h[to].(parent := from)]
  }

  /** The field updates of uv_link_unchain. */
  ghost function Untied(h: Heap, from: Link, to: Link): Heap
    requires from in h && to in h
  {
    h[from := Unhooked(h[from])][to := h[to].(parent := null)]
  }

  ghost function Unhooked(f: Fields): Fields {
    f.(child := null, allocCb := f.savedAllocCb, readCb := f.savedReadCb, savedAllocCb := 0, savedReadCb := 0)
  }

  /** Everything chaining promises about one link, from its neighbours and its child's prefix. */
  lemma ChainFitsAt(w: World, w': World, h: Heap, h': Heap, from: Link, to: Link, b: seq<Link>, l: Link)
    requires Coherent(w) && Coherent(w') && h.Keys == h'.Keys == w.chain.Keys == w'.chain.Keys && w'.own == w.own
    requires from in h && to in h && l in h && Fits(w, h, l) && InChain(w, l) && InChain(w', l)
    requires h[from].child == null && TiedTo(h, h', from, to, b)
    requires Up(w', l) == if l == to then from else Up(w, l)
    requires Down(w', l) == if l == from then to else Down(w, l)
    requires Down(w', l) != null ==> Down(w', l) in h' && h'[Down(w', l)].errPrefix == NextPrefix(h'[l].errPrefix)
    requires Shifted(h'[l].errPrefix)
    ensures Fits(w', h', l)
  {
  }

  lemma StillShifted(w: World, h: Heap, h': Heap, from: Link, to: Link, l: Link)
    requires Coherent(w) && h.Keys == w.chain.Keys && from in h && to in h && l in h && InChain(w, to) && InChain(w, l)
    requires w.pos[to] == 0 && Shifted(h[l].errPrefix) && TiedTo(h, h', from, to, w.chain[to])
    ensures Shifted(h'[l].errPrefix)
  {
    if l in w.chain[to] && w.pos[l] > 0 {
      var b := w.chain[to];
      assert b[w.pos[l]] == l;
      assert h'[b[w.pos[l]]].errPrefix == NextPrefix(h'[b[w.pos[l] - 1]].errPrefix);
    }
  }

  lemma ChainPrefixAt(w: World, h: Heap, h': Heap, to: Link, l: Link)
    requires AllFit(w, h) && to in h && l in h && h'.Keys == h.Keys
    requires forall m :: m in h && m !in w.chain[to] ==> h'[m].errPrefix == h[m].errPrefix
    requires Numbered(h', w.chain[to])
    requires InChain(w, l)
    ensures Down(w, l) != null ==> Down(w, l) in h' && h'[Down(w, l)].errPrefix == NextPrefix(h'[l].errPrefix)
  {
    assert Fits(w, h, l) && InChain(w, to);
  }

  /** `h'` is `h` with `from` tied to `to`, the root of `b`, and `b` renumbered. */
  ghost predicate TiedTo(h: Heap, h': Heap, from: Link, to: Link, b: seq<Link>)
    requires from in h && to in h
  {
    && h'.Keys == h.Keys
    && h'[from] == Tied(h, from, to)[from]
    && h'[to] == Tied(h, from, to)[to].(errPrefix := NextPrefix(h[from].errPrefix))
    && (forall l :: l in h && l != from && l !in b ==> h'[l] == h[l])
    && (forall l :: l in b && l != to && l in h ==> h'[l] == h[l].(errPrefix := h'[l].errPrefix))
    && Numbered(h', b)
  }

  lemma ChainFits(w: World, h: Heap, h': Heap, from: Link, to: Link)
    requires AllFit(w, h) && from in h && to in h && w.chain[to] != w.chain[from]
    requires h[from].child == null && h[to].parent == null
    requires TiedTo(h, h', from, to, w.chain[to])
    ensures AllFit(Joined(w, from, to), h')
  {
    var w' := Joined(w, from, to);
    JoinedCoherent(w, from, to);
    assert InChain(w, from) && InChain(w, to) && Fits(w, h, from) && Fits(w, h, to);
    assert forall m :: m in h && m !in w.chain[to] ==> h'[m].errPrefix == h[m].errPrefix;
    forall l | l in h' ensures Fits(w', h', l) {
      assert InChain(w, l) && InChain(w', l) && Fits(w, h, l);
      JoinedNeighbours(w, from, to, l);
      ChainPrefixAt(w, h, h', to, l);
      StillShifted(w, h, h', from, to, l);
      ChainFitsAt(w, w', h, h', from, to, w.chain[to], l);
    }
  }

  lemma UnchainFitsAt(w: World, w': World, h: Heap, from: Link, to: Link, l: Link)
    requires Coherent(w) && Coherent(w') && h.Keys == w.chain.Keys == w'.chain.Keys && w'.own == w.own
    requires from in h && to in h && l in h && Fits(w, h, l) && InChain(w, l) && InChain(w', l)
    requires from != to && h[from].child == to
    requires Up(w', l) == if l == to then null else Up(w, l)
    requires Down(w', l) == if l == from then null else Down(w, l)
    ensures Fits(w', Untied(h, from, to), l)
  {
  }

  lemma UnchainFits(w: World, h: Heap, from: Link, to: Link)
    requires AllFit(w, h) && from in h && to in h && h[from].child == to
    ensures from != to && AllFit(Split(w, from), Untied(h, from, to))
  {
    var w', h' := Split(w, from), Untied(h, from, to);
    SplitCoherent(w, from);
    assert InChain(w, from) && Fits(w, h, from);
    forall l | l in h' ensures Fits(w', h', l) {
      assert InChain(w, l) && InChain(w', l) && Fits(w, h, l);
      SplitUp(w, from, l);
      SplitDown(w, from, l);
      UnchainFitsAt(w, w', h, from, to, l);
    }
  }

  // ---------- the operations ----------

  lemma AddedCoherent(w: World, l: Link, own: (Callback, Callback))
    requires Coherent(w) && l !in w.chain
    ensures Coherent(Added(w, l, own))
  {
    var w' := Added(w, l, own);
    forall m | m in w'.chain ensures InChain(w', m) {
      assert m != l ==> InChain(w, m);
    }
  }

  /** A freshly initialised link joins the world as a chain of its own. */
  lemma InitFits(w: World, l: Link, own: (Callback, Callback))
    requires WellFormed(w) && l !in w.chain && WellFormed(Single(l, own))
    ensures WellFormed(Added(w, l, own))
  {
    var one, w' := Single(l, own), Added(w, l, own);
    var h, h' := View(w.chain.Keys), View(w'.chain.Keys);
    AddedCoherent(w, l, own);
    forall m | m in h' ensures Fits(w', h', m) {
      assert InChain(w', m);
      if m == l {
        assert InChain(one, l) && Fits(one, View(one.chain.Keys), l);
      } else {
        assert InChain(w, m) && Fits(w, h, m);
        AddedFits(w, w', h, h', m);
      }
    }
  }

  lemma AddedFits(w: World, w': World, h: Heap, h': Heap, m: Link)
    requires Coherent(w) && Coherent(w') && h.Keys == w.chain.Keys && h'.Keys == w'.chain.Keys
    requires m in h && m in h' && InChain(w, m) && InChain(w', m) && Fits(w, h, m)
    requires forall x :: x in h ==> x in h' && h'[x] == h[x]
    requires w'.chain[m] == w.chain[m] && w'.pos[m] == w.pos[m] && w'.own[m] == w.own[m]
    ensures Fits(w', h', m)
  {
  }

  /** uv_link_chain, with the prefix renumbering it ends with. */
  method Chain(from: Link, to: Link, ghost w: World) returns (rc: int, ghost w': World)
    requires WellFormed(w) && from in w.chain && to in w.chain
    // the library aborts on a link without overrides
    requires from.child == null && to.parent == null ==> to.methods.allocOverride != 0 && to.methods.readOverride != 0
    // a chain's leaf is never chained to its own root
    requires from.child == null && to.parent == null ==> w.chain[to] != w.chain[from]
    modifies from, to, (set l | l in w.chain[to])`errPrefix
    ensures WellFormed(w')
    ensures rc == if old(from.child == null && to.parent == null) then 0 else UV_EINVAL
    ensures w' == if rc == 0 then Joined(w, from, to) else w
    ensures from.errPrefix == old(from.errPrefix)
    ensures Closing(from) == old(Closing(from)) && Closing(to) == old(Closing(to))
    ensures rc != 0 ==> Look(from) == old(Look(from)) && Look(to) == old(Look(to))
  {
    if from.child != null || to.parent != null {
      return UV_EINVAL, w;
    }
    ghost var h := View(w.chain.Keys);
    Below(w, h, from, to);
    Rewire(from, to, w.chain[to], w.chain.Keys);
    rc, w' := 0, Joined(w, from, to);
    ChainFits(w, h, View(w.chain.Keys), from, to);
  }

  /** The child pointers lead through `b` and end there. */
  ghost predicate Descends(b: seq<Link>)
    reads b
  {
    && (|b| > 0 ==> b[|b| - 1].child == null)
    && forall i, j :: 0 <= i < j < |b| && j == i + 1 ==> b[i].child == b[j]
  }

  lemma Below(w: World, h: Heap, from: Link, to: Link)
    requires AllFit(w, h) && from in h && to in h && h[to].parent == null && w.chain[to] != w.chain[from]
    ensures var b := w.chain[to];
      && |b| > 0 && b[0] == to && from !in b
      && (forall i, j :: 0 <= i < j < |b| ==> b[i] != b[j])
      && (forall l :: l in b ==> l in h && w.chain[l] == b)
      && h[b[|b| - 1]].child == null
      && (forall i, j :: 0 <= i < j < |b| && j == i + 1 ==> h[b[i]].child == b[j])
  {
    var b := w.chain[to];
    assert InChain(w, to) && Fits(w, h, to);
    forall i | 0 <= i < |b| ensures h[b[i]].child == Down(w, b[i]) && w.pos[b[i]] == i && w.chain[b[i]] == b {
      assert InChain(w, b[i]) && Fits(w, h, b[i]);
    }
    assert Down(w, b[|b| - 1]) == null;
  }

  /** Renumber the links from the root `link` of `below` on, after its new parent. */
  method RecalculatePrefixes(link: Link, ghost below: seq<Link>)
    requires link.parent != null && link.parent !in below
    requires |below| > 0 && below[0] == link
    requires forall i, j :: 0 <= i < j < |below| ==> below[i] != below[j]
    requires Descends(below)
    modifies (set l | l in below)`errPrefix
    ensures link.errPrefix == NextPrefix(link.parent.errPrefix)
    ensures forall i, j :: 0 <= i < j < |below| && j == i + 1 ==> below[j].errPrefix == NextPrefix(below[i].errPrefix)
  {
    var prev := link.parent.errPrefix / PREFIX_UNIT % PREFIX_UNIT;
    var cur: Link? := link;
    ghost var k := 0;
    while cur != null
      invariant 0 <= k <= |below| && Descends(below)
      invariant cur == if k == |below| then null else below[k]
      invariant k > 0 ==> link.errPrefix == NextPrefix(link.parent.errPrefix)
      invariant forall i, j :: 0 <= i < j < k && j == i + 1 ==> below[j].errPrefix == NextPrefix(below[i].errPrefix)
      invariant prev == (if k == 0 then link.parent else below[k - 1]).errPrefix / PREFIX_UNIT % PREFIX_UNIT
      decreases |below| - k
    {
      prev := (prev + 1) % PREFIX_UNIT;
      cur.errPrefix := prev * PREFIX_UNIT;
      cur := cur.child;
      k := k + 1;
    }
  }

  /** uv_link_unchain. */
  method Unchain(from: Link, to: Link, ghost w: World) returns (rc: int, ghost w': World)
    requires WellFormed(w) && from in w.chain && to in w.chain
    modifies from, to
    ensures WellFormed(w')
    ensures rc == if old(from.child == to && to.parent == from) then 0 else UV_EINVAL
    ensures w' == if rc == 0 then Split(w, from) else w
    ensures from.errPrefix == old(from.errPrefix) && to.errPrefix == old(to.errPrefix)
    ensures Closing(from) == old(Closing(from)) && Closing(to) == old(Closing(to))
    ensures rc == 0 ==> from.savedAllocCb == 0 && from.savedReadCb == 0
    ensures rc != 0 ==> Look(from) == old(Look(from)) && Look(to) == old(Look(to))
  {
    ghost var h := View(w.chain.Keys);
    if from.child == to {
      UnchainFits(w, h, from, to);
    }
    rc := Untie(from, to, w.chain.Keys);
    w' := if rc == 0 then Split(w, from) else w;
  }

  /** The assignments of uv_link_chain, as seen on all links. */
  method Rewire(from: Link, to: Link, ghost below: seq<Link>, ghost links: set<Link>)
    requires |below| > 0 && below[0] == to && from !in below && Descends(below)
    requires forall i, j :: 0 <= i < j < |below| ==> below[i] != below[j]
    requires from in links && forall l :: l in below ==> l in links
    modifies from, to, (set l | l in below)`errPrefix
    ensures Closing(from) == old(Closing(from)) && Closing(to) == old(Closing(to))
    ensures TiedTo(old(View(links)), View(links), from, to, below)
  {
    ghost var h := View(links);
    Tie(from, to, below);
    assert forall l :: l in links ==> h[l] == old(Look(l)) && View(links)[l] == Look(l);
  }

  method Tie(from: Link, to: Link, ghost below: seq<Link>)
    requires |below| > 0 && below[0] == to && from !in below && Descends(below)
    requires forall i, j :: 0 <= i < j < |below| ==> below[i] != below[j]
    modifies from, to, (set l | l in below)`errPrefix
    ensures Closing(from) == old(Closing(from)) && Closing(to) == old(Closing(to))
    ensures Look(from) == old(Look(from)).(
      child := to, savedAllocCb := old(from.allocCb), savedReadCb := old(from.readCb),
      allocCb := to.methods.allocOverride, readCb := to.methods.readOverride)
    ensures forall l :: l in below && l != to ==> Look(l) == old(Look(l)).(errPrefix := l.errPrefix)
    ensures Look(to) == old(Look(to)).(parent := from, errPrefix := NextPrefix(from.errPrefix))
    ensures forall i, j :: 0 <= i < j < |below| && j == i + 1 ==> below[j].errPrefix == NextPrefix(below[i].errPrefix)
  {
    from.child := to;
    to.parent := from;
    from.savedAllocCb := from.allocCb;
    from.savedReadCb := from.readCb;
    from.allocCb := to.methods.allocOverride;
    from.readCb := to.methods.readOverride;
    RecalculatePrefixes(to, below);
  }

  /** uv_link_unchain, as seen on all links. */
  method Untie(from: Link, to: Link, ghost links: set<Link>) returns (rc: int)
    requires from in links && to in links
    requires from.child == to ==> from != to
    modifies from, to
    ensures rc == if old(from.child == to && to.parent == from) then 0 else UV_EINVAL
    ensures Closing(from) == old(Closing(from)) && Closing(to) == old(Closing(to))
    ensures rc == 0 ==> from.savedAllocCb == 0 && from.savedReadCb == 0
    ensures Look(from).errPrefix == old(Look(from)).errPrefix && Look(to).errPrefix == old(Look(to)).errPrefix
    ensures rc != 0 ==> Look(from) == old(Look(from)) && Look(to) == old(Look(to))
    ensures View(links) == if rc == 0 then Untied(old(View(links)), from, to) else old(View(links))
  {
    ghost var h := View(links);
    rc := Unhook(from, to);
    assert forall l :: l in links ==> Look(l) == (if rc == 0 then Untied(h, from, to) else h)[l];
  }

  /** The body of uv_link_unchain. */
  method Unhook(from: Link, to: Link) returns (rc: int)
    requires from.child == to ==> from != to
    modifies from`child, from`allocCb, from`readCb, from`savedAllocCb, from`savedReadCb, to`parent
    ensures rc == if old(from.child == to && to.parent == from) then 0 else UV_EINVAL
    ensures rc == 0 ==> Look(from) == Unhooked(old(Look(from))) && Look(to) == old(Look(to)).(parent := null)
    ensures rc != 0 ==> Look(from) == old(Look(from)) && Look(to) == old(Look(to))
  {
    if from.child != to || to.parent != from {
      return UV_EINVAL;
    }
    from.child := null;
    to.parent := null;
    from.allocCb := from.savedAllocCb;
    from.readCb := from.savedReadCb;
    from.savedAllocCb := 0;
    from.savedReadCb := 0;
    rc := 0;
  }

  // ---------- closing ----------

  /** All links of the chain `c` on their own. */
  ghost function Scattered(w: World, c: seq<Link>): World {
    World(map l | l in w.chain :: if l in c then [l] else w.chain[l],
          map l | l in w.pos :: if l in c then 0 else w.pos[l],
          w.own)
  }

  /** A link's fields once it is disconnected from both sides. */
  ghost function Freed(f: Fields): Fields {
    if f.child == null then f.(parent := null) else Unhooked(f).(parent := null)
  }

  lemma ScatteredAt(w: World, leaf: Link, l: Link)
    requires Coherent(w) && leaf in w.chain && l in w.chain
    ensures var v := Scattered(w, w.chain[leaf]);
      && InChain(v, l) && InChain(w, l)
      && Up(v, l) == (if l in w.chain[leaf] then null else Up(w, l))
      && Down(v, l) == (if l in w.chain[leaf] then null else Down(w, l))
  {
    var c := w.chain[leaf];
    assert InChain(w, leaf) && InChain(w, l);
    assert l !in c ==> forall i :: 0 <= i < |w.chain[l]| ==> w.chain[l][i] !in c;
  }

  lemma FreedFits(w: World, v: World, h: Heap, h': Heap, c: seq<Link>, l: Link)
    requires Coherent(w) && Coherent(v) && h.Keys == h'.Keys == w.chain.Keys == v.chain.Keys && v.own == w.own
    requires l in h && Fits(w, h, l) && InChain(v, l) && InChain(w, l)
    requires Up(v, l) == if l in c then null else Up(w, l)
    requires Down(v, l) == if l in c then null else Down(w, l)
    requires forall m :: m in h ==> h'[m] == if m in c then Freed(h[m]) else h[m]
    ensures Fits(v, h', l)
  {
  }

  lemma CloseFits(w: World, h: Heap, h': Heap, leaf: Link)
    requires AllFit(w, h) && leaf in h && h'.Keys == h.Keys
    requires forall l :: l in h ==> h'[l] == if l in w.chain[leaf] then Freed(h[l]) else h[l]
    ensures AllFit(Scattered(w, w.chain[leaf]), h')
  {
    var v := Scattered(w, w.chain[leaf]);
    forall l | l in v.chain ensures InChain(v, l) {
      ScatteredAt(w, leaf, l);
    }
    forall l | l in h' ensures Fits(v, h', l) {
      ScatteredAt(w, leaf, l);
      assert Fits(w, h, l);
      FreedFits(w, v, h, h', w.chain[leaf], l);
    }
  }

  // ---------- what a well-formed world means for the pointers ----------

  /** Parent and child pointers are inverse to each other, and prefixes count up. */
  lemma PointersAreInverse(w: World, l: Link)
    requires WellFormed(w) && l in w.chain
    ensures l.child != null ==> l.child.parent == l && l.child.errPrefix == NextPrefix(l.errPrefix)
    ensures l.parent != null ==> l.parent.child == l
  {
    var h := View(w.chain.Keys);
    assert InChain(w, l) && Fits(w, h, l);
    if l.child != null {
      assert InChain(w, l.child) && Fits(w, h, l.child);
    }
    if l.parent != null {
      assert w.pos[l.parent] == w.pos[l] - 1;
      assert InChain(w, l.parent) && Fits(w, h, l.parent);
    }
  }

  /** The pointers run through each chain in both directions and end at its ends. */
  lemma PointersFollowChain(w: World, l: Link)
    requires WellFormed(w) && l in w.chain
    ensures var c := w.chain[l];
      Ascends(c) && Descends(c) && Consecutive(Prefixes(c)) && (forall x :: x in c ==> x in w.chain) &&
      l in c && (l.child == null ==> c[|c| - 1] == l)
  {
    var h, c := View(w.chain.Keys), w.chain[l];
    assert InChain(w, l);
    forall i, j | 0 <= i < j < |c| && j == i + 1
      ensures c[j].parent == c[i] && c[i].child == c[j] && c[j].errPrefix == NextPrefix(c[i].errPrefix)
    {
      assert InChain(w, c[i]) && Fits(w, h, c[i]);
      PointersAreInverse(w, c[i]);
    }
    assert InChain(w, c[0]) && Fits(w, h, c[0]);
    assert InChain(w, c[|c| - 1]) && Fits(w, h, c[|c| - 1]) && Fits(w, h, l);
  }

  /** No link occurs twice in a chain or in two chains. */
  lemma ChainsAreDisjoint(w: World, l: Link, m: Link)
    requires Coherent(w) && l in w.chain && m in w.chain
    ensures forall i, j :: 0 <= i < j < |w.chain[l]| ==> w.chain[l][i] != w.chain[l][j]
    ensures w.chain[m] != w.chain[l] ==> forall x :: x in w.chain[m] ==> x !in w.chain[l]
  {
    assert InChain(w, l) && InChain(w, m);
  }

  ghost function Prefixes(c: seq<Link>): seq<nat>
    reads c
  {
    seq(|c|, i requires 0 <= i < |c| reads c => c[i].errPrefix)
  }

  /** The parent pointers lead back through `c` to its first link and end there. */
  ghost predicate Ascends(c: seq<Link>)
    reads c
  {
    && (|c| > 0 ==> c[0].parent == null)
    && forall i, j :: 0 <= i < j < |c| && j == i + 1 ==> c[j].parent == c[i]
  }

  /** uv_link_errno; `line` is the chain from its root down to `link`. */
  method Errno(link: Link, err: int, ghost line: seq<Link>) returns (owner: Link?, code: int)
    requires |line| > 0 && line[|line| - 1] == link && Ascends(line)
    ensures var (i, e) := Resolve(Prefixes(line), err);
      code == e && owner == if i.Some? then line[i.value] else null
  {
    if err >= UV_ERRNO_MAX {
      return null, err;
    }
    var prefix := PrefixBits(-err);
    owner := link;
    ghost var p, n := Prefixes(line), |line|;
    assert p[..n] == p;
    while owner != null
      invariant 0 <= n <= |line| && owner == if n == 0 then null else line[n - 1]
      invariant FindPrefix(p, prefix) == FindPrefix(p[..n], prefix)
      decreases n
    {
      FindStep(p, n, prefix);
      if prefix == owner.errPrefix {
        return owner, -(-err % PREFIX_UNIT);
      }
      owner := owner.parent;
      n := n - 1;
    }
    code := err;
  }

  /** The prefixes of a chain stay below 2^15. */
  ghost predicate PrefixesFit(c: seq<Link>)
    reads c
  {
    |c| > 0 && c[0].errPrefix > 0 && c[0].errPrefix / PREFIX_UNIT + |c| <= 0x8000
  }

  /** What uv_link_errno makes of a code that `raiser` raised and that came back
      through any links, asked at any descendant of `raiser`. */
  lemma RaisedResolves(w: World, raiser: Link, from: Link, via: seq<nat>, err: int)
    requires WellFormed(w) && raiser in w.chain && from in w.chain && w.chain[from] == w.chain[raiser]
    requires w.pos[raiser] <= w.pos[from] && PrefixesFit(w.chain[from])
    requires -PREFIX_UNIT < err < UV_ERRNO_MAX
    ensures InChain(w, from) && InChain(w, raiser)
    ensures Resolve(Prefixes(w.chain[from][..w.pos[from] + 1]), Through(via, LinkError(raiser.errPrefix, err))) ==
      (Some(w.pos[raiser]), err)
  {
    var c, i, j := w.chain[from], w.pos[raiser], w.pos[from];
    assert InChain(w, from) && InChain(w, raiser);
    PointersFollowChain(w, from);
    assert Fits(w, View(w.chain.Keys), c[0]);
    ResolvesToRaiser(Prefixes(c), i, j, via, err);
    assert Prefixes(c[..j + 1]) == Prefixes(c)[..j + 1];
  }

  /** The walk from any descendant finds the link that raised the code, and the code. */
  method ErrnoOfRaised(from: Link, err: int, ghost w: World, ghost raiser: Link, ghost via: seq<nat>, ghost code: int)
    returns (owner: Link?, local: int)
    requires WellFormed(w) && raiser in w.chain && from in w.chain && w.chain[from] == w.chain[raiser]
    requires w.pos[raiser] <= w.pos[from] && PrefixesFit(w.chain[from])
    requires -PREFIX_UNIT < code < UV_ERRNO_MAX && err == Through(via, LinkError(raiser.errPrefix, code))
    ensures owner == raiser && local == code
  {
    RaisedResolves(w, raiser, from, via, code);
    PointersFollowChain(w, from);
    ghost var line := w.chain[from][..w.pos[from] + 1];
    owner, local := Errno(from, err, line);
  }

  // ---------- the close loop ----------

  /** A link the close loop has come past: its close method has run once more if
      no call through the link was in progress; otherwise that is left to the last such
      call that returns, and the link remembers for whom. */
  ghost predicate ClosedOrDeferred(was: CloseFields, now: CloseFields, source: Link) {
    && now.depth == was.depth && now.waiting == was.waiting && now.callback == was.callback
    && (was.depth == 0 ==> now.runs == was.runs + 1 && now.pending == was.pending)
    && (was.depth != 0 ==> now.runs == was.runs && now.pending == source)
  }

  method CloseOrDefer(l: Link, source: Link)
    modifies l`closeRuns, l`pendingCloseSource
    ensures ClosedOrDeferred(old(Closing(l)), Closing(l), source)
  {
    if l.closeDepth == 0 {
      l.closeRuns := l.closeRuns + 1;
    } else {
      l.pendingCloseSource := source;
    }
  }

  method FindRoot(leaf: Link, ghost c: seq<Link>) returns (root: Link, count: nat)
    requires |c| > 0 && c[|c| - 1] == leaf && Ascends(c)
    ensures count == |c| && root == c[0]
  {
    root, count := leaf, 1;
    while root.parent != null
      invariant 0 < count <= |c| && root == c[|c| - count]
      invariant root.parent == if count == |c| then null else c[|c| - count - 1]
      decreases |c| - count
    {
      root, count := root.parent, count + 1;
    }
  }

  /** The loop of uv_link_propagate_close: the chain `c` falls apart from the root down. */
  method CloseFromRoot(first: Link, leaf: Link, ghost c: seq<Link>)
    requires |c| > 0 && c[0] == first && first.parent == null && Descends(c)
    requires forall i, j :: 0 <= i < j < |c| && j == i + 1 ==> c[j].parent == c[i]
    requires forall i, j :: 0 <= i < j < |c| ==> c[i] != c[j]
    modifies c
    ensures forall i :: 0 <= i < |c| ==> Look(c[i]) == Freed(old(Look(c[i])))
    ensures forall i :: 0 <= i < |c| ==> ClosedOrDeferred(old(Closing(c[i])), Closing(c[i]), leaf)
  {
    var root: Link? := first;
    ghost var k := 0;
    while root != null
      invariant 0 <= k <= |c| && root == if k == |c| then null else c[k]
      invariant forall i :: 0 <= i < k ==>
                  Look(c[i]) == Freed(old(Look(c[i]))) && ClosedOrDeferred(old(Closing(c[i])), Closing(c[i]), leaf)
      invariant forall i :: k < i < |c| ==> Look(c[i]) == old(Look(c[i])) && Closing(c[i]) == old(Closing(c[i]))
      invariant k < |c| ==> Look(c[k]) == old(Look(c[k])).(parent := null) && Closing(c[k]) == old(Closing(c[k]))
      decreases |c| - k
    {
      assert k + 1 < |c| ==> old(c[k].child) == c[k + 1] && old(c[k + 1].parent) == c[k];
      root := CloseTurn(root, leaf);
      k := k + 1;
    }
  }

  /** uv_link_propagate_close from the leaf of the chain `c`. */
  method CloseChain(leaf: Link, cb: Callback, ghost c: seq<Link>)
    requires |c| > 0 && c[|c| - 1] == leaf && Ascends(c) && Descends(c)
    requires forall i, j :: 0 <= i < j < |c| ==> c[i] != c[j]
    modifies c
    ensures forall i :: 0 <= i < |c| ==> Look(c[i]) == Freed(old(Look(c[i])))
    ensures forall i :: 0 <= i < |c| - 1 ==> ClosedOrDeferred(old(Closing(c[i])), Closing(c[i]), leaf)
    ensures ClosedOrDeferred(
      old(Closing(leaf)).(waiting := old(leaf.closeWaiting) + |c|, callback := cb), Closing(leaf), leaf)
  {
    var root, count := FindRoot(leaf, c);
    leaf.closeWaiting := leaf.closeWaiting + count;
    leaf.savedCloseCb := cb;
    assert forall i :: 0 <= i < |c| ==> Look(c[i]) == old(Look(c[i]));
    CloseFromRoot(root, leaf, c);
  }

  /** Disconnect the root of what is left of the chain, and close or defer it. */
  method CloseTurn(root: Link, leaf: Link) returns (child: Link?)
    requires root.child != null ==> root.child != root && root.child.parent == root
    modifies root`child, root`allocCb, root`readCb, root`savedAllocCb, root`savedReadCb
    modifies root`closeRuns, root`pendingCloseSource
    modifies (if root.child != null then {root.child} else {})`parent
    ensures child == old(root.child)
    ensures Look(root) == if child == null then old(Look(root)) else Unhooked(old(Look(root)))
    ensures child != null ==> Look(child) == old(Look(child)).(parent := null)
    ensures ClosedOrDeferred(old(Closing(root)), Closing(root), leaf)
  {
    child := root.child;
    if child != null {
      var rc := Unhook(root, child);
    }
    CloseOrDefer(root, leaf);
  }

  /** uv_link_close, in a world of chains: the chain's links end up isolated,
      each with the callbacks it had before it was chained. */
  method Close(leaf: Link, cb: Callback, ghost w: World) returns (ghost v: World)
    requires WellFormed(w) && leaf in w.chain
    requires leaf.child == null  // the library aborts otherwise
    modifies w.chain[leaf]
    ensures v == Scattered(w, w.chain[leaf]) && WellFormed(v)
    ensures forall l :: l in w.chain[leaf] ==>
              l.parent == null && l.child == null && l in w.own && (l.allocCb, l.readCb) == w.own[l]
    ensures forall l :: l in w.chain[leaf] && old(l.closeDepth) == 0 ==>
              l.closeRuns == old(l.closeRuns) + 1 && l.pendingCloseSource == old(l.pendingCloseSource)
    ensures forall l :: l in w.chain[leaf] && old(l.closeDepth) != 0 ==>
              l.closeRuns == old(l.closeRuns) && l.pendingCloseSource == leaf
    ensures leaf.closeWaiting == old(leaf.closeWaiting) + |w.chain[leaf]| && leaf.savedCloseCb == cb
    ensures forall l :: l in w.chain[leaf] && l != leaf ==>
              l.closeWaiting == old(l.closeWaiting) && l.savedCloseCb == old(l.savedCloseCb)
    ensures forall l :: l in w.chain[leaf] ==> l.closeDepth == old(l.closeDepth)
  {
    ghost var c := w.chain[leaf];
    v := CloseAndScatter(leaf, cb, w);
    assert forall l :: l in c && l != leaf ==> ClosedOrDeferred(old(Closing(l)), Closing(l), leaf);
  }

  method CloseAndScatter(leaf: Link, cb: Callback, ghost w: World) returns (ghost v: World)
    requires WellFormed(w) && leaf in w.chain && leaf.child == null
    modifies w.chain[leaf]
    ensures v == Scattered(w, w.chain[leaf]) && WellFormed(v)
    ensures forall l :: l in w.chain[leaf] ==>
              l.parent == null && l.child == null && l in w.own && (l.allocCb, l.readCb) == w.own[l]
    ensures leaf in w.chain[leaf]
    ensures forall l :: l in w.chain[leaf] && l != leaf ==> ClosedOrDeferred(old(Closing(l)), Closing(l), leaf)
    ensures ClosedOrDeferred(
      old(Closing(leaf)).(waiting := old(leaf.closeWaiting) + |w.chain[leaf]|, callback := cb), Closing(leaf), leaf)
  {
    ghost var c, h := w.chain[leaf], View(w.chain.Keys);
    PointersFollowChain(w, leaf);
    ChainsAreDisjoint(w, leaf, leaf);
    CloseChain(leaf, cb, c);
    v := Scattered(w, c);
    CloseFits(w, h, View(w.chain.Keys), leaf);
    ScatteredPointers(w, v, leaf);
  }

  lemma ScatteredPointers(w: World, v: World, leaf: Link)
    requires Coherent(w) && leaf in w.chain && v == Scattered(w, w.chain[leaf]) && WellFormed(v)
    ensures forall l :: l in w.chain[leaf] ==>
              l.parent == null && l.child == null && l in w.own && (l.allocCb, l.readCb) == w.own[l]
  {
    assert InChain(w, leaf);
    forall l | l in w.chain[leaf]
      ensures l.parent == null && l.child == null && l in w.own && (l.allocCb, l.readCb) == w.own[l]
    {
      assert InChain(v, l) && Fits(v, View(v.chain.Keys), l);
    }
  }
}
