/**
 Sorting the certificates of a CA bundle into one store per root.

 Certificates are compared by identity and each has one issuer; a certificate
 verifies against a store exactly if its issuer is in it. The intermediates are
 tried in list order, for three rounds, and a certificate that finds its store
 leaves the list at once, so that it helps those after it in the same round.
 */
module CaBundle {
  type Cert = nat
  type Issuer = map<Cert, Cert>  // a certificate that is not listed is self-signed

  function Of(issuer: Issuer, c: Cert): Cert {
    if c in issuer then issuer[c] else c
  }

  const TRIES := 3

  ghost predicate Distinct(s: seq<Cert>) {
    forall i, j :: 0 <= i < j < |s| ==> s[i] != s[j]
  }

  ghost function All(objs: seq<Cert>): set<Cert> {
    set c | c in objs
  }

  ghost function Pos(objs: seq<Cert>, c: Cert): (i: nat)
    requires c in objs
    ensures i < |objs| && objs[i] == c
  {
    var i :| 0 <= i < |objs| && objs[i] == c;
    i
  }

  /** `c` has found its store by the end of round `t`: it is a root, or its
      issuer had found its own in an earlier round, or in round `t` before the
      turn of `c` came. */
  ghost predicate Placed(objs: seq<Cert>, issuer: Issuer, c: Cert, t: nat)
    requires c in objs
    decreases t, Pos(objs, c)
  {
    var d := Of(issuer, c);
    d == c ||
    (d in objs && t > 0 &&
     (Placed(objs, issuer, d, t - 1) || (Pos(objs, d) < Pos(objs, c) && Placed(objs, issuer, d, t))))
  }

  lemma {:induction false} PlacedStays(objs: seq<Cert>, issuer: Issuer, c: Cert, t: nat)
    requires c in objs && Placed(objs, issuer, c, t)
    ensures Placed(objs, issuer, c, t + 1)
    decreases t, Pos(objs, c)
  {
    var d := Of(issuer, c);
    if d != c && t > 0 {
      if Placed(objs, issuer, d, t - 1) {
        PlacedStays(objs, issuer, d, t - 1);
      } else {
        PlacedStays(objs, issuer, d, t);
      }
    }
  }

  // ---------- chains ----------

  /** Following issuers `k` times from `c` leads to the root `r`, inside `s`. */
  ghost predicate Chained(issuer: Issuer, s: set<Cert>, c: Cert, r: Cert, k: nat)
    decreases k
  {
    c in s && if k == 0 then c == r && Of(issuer, r) == r else Chained(issuer, s, Of(issuer, c), r, k - 1)
  }

  lemma {:induction false} ChainedInMore(issuer: Issuer, s: set<Cert>, s': set<Cert>, c: Cert, r: Cert, k: nat)
    requires Chained(issuer, s, c, r, k) && s <= s'
    ensures Chained(issuer, s', c, r, k)
    decreases k
  {
    if k > 0 {
      ChainedInMore(issuer, s, s', Of(issuer, c), r, k - 1);
    }
  }

  /** A certificate has one root. */
  lemma {:induction false} OneRoot(issuer: Issuer, s: set<Cert>, s': set<Cert>, c: Cert,
                                   r: Cert, k: nat, r': Cert, k': nat)
    requires Chained(issuer, s, c, r, k) && Chained(issuer, s', c, r', k')
    ensures r == r'
    decreases k + k'
  {
    if k > 0 && k' > 0 {
      OneRoot(issuer, s, s', Of(issuer, c), r, k - 1, r', k' - 1);
    } else if k > 0 {
      OneRoot(issuer, s, s', Of(issuer, c), r, k - 1, r', 0);
    } else if k' > 0 {
      OneRoot(issuer, s, s', Of(issuer, c), r, 0, r', k' - 1);
    }
  }

  /** `t` issuing steps to a root in the bundle are bridged in `t` rounds. */
  lemma {:induction false} ShortChainsArePlaced(objs: seq<Cert>, issuer: Issuer, c: Cert, r: Cert, k: nat, t: nat)
    requires c in objs && k <= t
    requires Chained(issuer, All(objs), c, r, k)
    ensures Placed(objs, issuer, c, t)
    decreases k
  {
    if k > 0 {
      ShortChainsArePlaced(objs, issuer, Of(issuer, c), r, k - 1, t - 1);
    }
  }

  /** How many of the first `k` steps from `c` lead to an issuer that is no root
      and is listed later. */
  ghost function Backward(objs: seq<Cert>, issuer: Issuer, c: Cert, r: Cert, k: nat): nat
    requires Chained(issuer, All(objs), c, r, k)
    decreases k
  {
    if k == 0 then 0
    else
      var d := Of(issuer, c);
      Backward(objs, issuer, d, r, k - 1) + if Of(issuer, d) != d && Pos(objs, c) < Pos(objs, d) then 1 else 0
  }

  /** `c` chains to a root of the bundle, and fewer than `t` steps on the way go
      to an intermediate that is listed later. */
  ghost predicate ChainsWithin(objs: seq<Cert>, issuer: Issuer, c: Cert, t: nat) {
    exists r, k: nat :: Chained(issuer, All(objs), c, r, k) && Backward(objs, issuer, c, r, k) < t
  }

  lemma {:induction false} PlacedChains(objs: seq<Cert>, issuer: Issuer, c: Cert, t: nat) returns (r: Cert, k: nat)
    requires c in objs && t > 0 && Placed(objs, issuer, c, t)
    ensures Chained(issuer, All(objs), c, r, k) && Backward(objs, issuer, c, r, k) < t
    decreases t, Pos(objs, c)
  {
    var d := Of(issuer, c);
    if d == c {
      return c, 0;
    }
    if Of(issuer, d) == d {
      assert Chained(issuer, All(objs), d, d, 0);
      return d, 1;
    }
    if Placed(objs, issuer, d, t - 1) {
      r, k := PlacedChains(objs, issuer, d, t - 1);
    } else {
      r, k := PlacedChains(objs, issuer, d, t);
    }
    k := k + 1;
  }

  lemma {:induction false} ChainsArePlaced(objs: seq<Cert>, issuer: Issuer, c: Cert, r: Cert, k: nat, t: nat)
    requires Chained(issuer, All(objs), c, r, k) && Backward(objs, issuer, c, r, k) < t
    ensures Placed(objs, issuer, c, t)
    decreases k
  {
    var d := Of(issuer, c);
    if k > 0 && d != c && Of(issuer, d) != d {
      ChainsArePlaced(objs, issuer, d, r, k - 1, if Pos(objs, c) < Pos(objs, d) then t - 1 else t);
    }
  }

  /** What the rounds come to, without mention of rounds. */
  lemma PlacedIff(objs: seq<Cert>, issuer: Issuer, c: Cert, t: nat)
    requires c in objs && t > 0
    ensures Placed(objs, issuer, c, t) <==> ChainsWithin(objs, issuer, c, t)
  {
    if Placed(objs, issuer, c, t) {
      var r, k := PlacedChains(objs, issuer, c, t);
    }
    if ChainsWithin(objs, issuer, c, t) {
      var r, k: nat :| Chained(issuer, All(objs), c, r, k) && Backward(objs, issuer, c, r, k) < t;
      ChainsArePlaced(objs, issuer, c, r, k, t);
    }
  }

  // ---------- the loops ----------

  /** What one store may hold. */
  ghost predicate GoodStore(issuer: Issuer, s: set<Cert>, r: Cert) {
    r in s && Of(issuer, r) == r && forall c :: c in s ==> exists k: nat :: Chained(issuer, s, c, r, k)
  }

  lemma GrowStore(issuer: Issuer, s: set<Cert>, r: Cert, c: Cert)
    requires GoodStore(issuer, s, r) && Of(issuer, c) in s
    ensures GoodStore(issuer, s + {c}, r)
  {
    var s' := s + {c};
    forall x | x in s' ensures exists k: nat :: Chained(issuer, s', x, r, k) {
      var y := if x in s then x else Of(issuer, x);
      var k: nat :| Chained(issuer, s, y, r, k);
      ChainedInMore(issuer, s, s', y, r, k);
      assert Chained(issuer, s', x, r, if x in s then k else k + 1);
    }
  }

  ghost predicate Disjoint(stores: seq<set<Cert>>) {
    forall i, j :: 0 <= i < j < |stores| ==> stores[i] !! stores[j]
  }

  ghost predicate Stored(stores: seq<set<Cert>>, c: Cert) {
    exists k :: 0 <= k < |stores| && c in stores[k]
  }

  /** The inner loop: the first store against which `c` verifies. */
  method FindStore(stores: seq<set<Cert>>, issuer: Issuer, c: Cert) returns (n: nat)
    ensures n <= |stores|
    ensures n < |stores| ==> Of(issuer, c) in stores[n]
    ensures n == |stores| <==> !Stored(stores, Of(issuer, c))
  {
    n := 0;
    while n < |stores|
      invariant 0 <= n <= |stores|
      invariant forall k :: 0 <= k < n ==> Of(issuer, c) !in stores[k]
    {
      if Of(issuer, c) in stores[n] {
        return;
      }
      n := n + 1;
    }
  }

  ghost predicate TriedAt(objs: seq<Cert>, issuer: Issuer, stores: seq<set<Cert>>, t: nat, turn: nat, c: Cert)
    requires t > 0 && c in objs
  {
    Stored(stores, c) <==> Placed(objs, issuer, c, if Pos(objs, c) < turn then t else t - 1)
  }

  /** How far the search is: positions below `turn` had their turn in round `t`. */
  ghost predicate Tried(objs: seq<Cert>, issuer: Issuer, stores: seq<set<Cert>>, t: nat, turn: nat)
    requires t > 0
  {
    forall c {:trigger TriedAt(objs, issuer, stores, t, turn, c)} ::
      c in objs ==> TriedAt(objs, issuer, stores, t, turn, c)
  }

  ghost predicate Precedes(objs: seq<Cert>, c: Cert, d: Cert) {
    c in objs && d in objs && Pos(objs, c) < Pos(objs, d)
  }

  /** `inter` lists, in bundle order, what is in no store. */
  ghost predicate Waiting(objs: seq<Cert>, stores: seq<set<Cert>>, inter: seq<Cert>) {
    && (forall c :: c in inter <==> c in objs && !Stored(stores, c))
    && (forall i, j :: 0 <= i < j < |inter| ==> Precedes(objs, inter[i], inter[j]))
  }

  ghost predicate GoodStores(issuer: Issuer, objs: seq<Cert>, stores: seq<set<Cert>>, roots: seq<Cert>) {
    && |stores| == |roots| && Disjoint(stores)
    && (forall k :: 0 <= k < |stores| ==> GoodStore(issuer, stores[k], roots[k]) && stores[k] <= All(objs))
  }

  /** The position whose turn it is when the cursor is at `i`. */
  ghost function Turn(objs: seq<Cert>, inter: seq<Cert>, i: nat): nat {
    if i < |inter| && inter[i] in objs then Pos(objs, inter[i]) else |objs|
  }

  /** When it is the turn of `c`, its issuer is in a store exactly if `c` is placed in this round. */
  lemma TurnOf(objs: seq<Cert>, issuer: Issuer, stores: seq<set<Cert>>, t: nat, c: Cert)
    requires t > 0 && c in objs && Tried(objs, issuer, stores, t, Pos(objs, c)) && !Stored(stores, c)
    requires forall k :: 0 <= k < |stores| ==> stores[k] <= All(objs)
    ensures Stored(stores, Of(issuer, c)) <==> Placed(objs, issuer, c, t)
  {
    var d := Of(issuer, c);
    assert TriedAt(objs, issuer, stores, t, Pos(objs, c), c);
    assert d in objs ==> TriedAt(objs, issuer, stores, t, Pos(objs, c), d);
    if d in objs && Placed(objs, issuer, d, t - 1) {
      PlacedStays(objs, issuer, d, t - 1);
    }
  }

  /** Passing from the turn of `c` to the next in the list: those in between were stored already. */
  lemma NextTurn(objs: seq<Cert>, issuer: Issuer, stores: seq<set<Cert>>, stores': seq<set<Cert>>,
                 t: nat, c: Cert, turn: nat)
    requires t > 0 && c in objs && Tried(objs, issuer, stores, t, Pos(objs, c)) && Pos(objs, c) < turn
    requires forall x :: x in objs && Pos(objs, c) < Pos(objs, x) < turn ==> Stored(stores, x)
    requires forall x :: x in objs ==>
      (Stored(stores', x) <==> Stored(stores, x) || (x == c && Placed(objs, issuer, c, t)))
    requires !Stored(stores, c)
    ensures Tried(objs, issuer, stores', t, turn)
  {
    forall x | x in objs ensures TriedAt(objs, issuer, stores', t, turn, x) {
      assert TriedAt(objs, issuer, stores, t, Pos(objs, c), x);
      if x != c && Pos(objs, c) < Pos(objs, x) < turn {
        PlacedStays(objs, issuer, x, t - 1);
      }
    }
  }

  /** One round of the search over the list of intermediates. */
  method Round(objs: seq<Cert>, issuer: Issuer, stores0: seq<set<Cert>>, inter0: seq<Cert>,
               ghost roots: seq<Cert>, ghost t: nat)
    returns (stores: seq<set<Cert>>, inter: seq<Cert>)
    requires Distinct(objs) && t > 0 && GoodStores(issuer, objs, stores0, roots)
    requires Tried(objs, issuer, stores0, t, 0) && Waiting(objs, stores0, inter0)
    ensures GoodStores(issuer, objs, stores, roots)
    ensures Tried(objs, issuer, stores, t, |objs|) && Waiting(objs, stores, inter)
  {
    stores, inter := stores0, inter0;
    var i := 0;
    FirstTurn(objs, issuer, stores, inter, t);
    while i < |inter|
      invariant 0 <= i <= |inter|
      invariant GoodStores(issuer, objs, stores, roots)
      invariant Tried(objs, issuer, stores, t, Turn(objs, inter, i)) && Waiting(objs, stores, inter)
      decreases |inter| - i
    {
      var c := inter[i];
      var n := FindStore(stores, issuer, c);
      if n < |stores| {
        Found(objs, issuer, stores, inter, roots, t, i, n);
        stores := stores[n := stores[n] + {c}];
        inter := inter[..i] + inter[i + 1..];
      } else {
        NotFound(objs, issuer, stores, inter, t, i);
        i := i + 1;
      }
    }
  }

  lemma Found(objs: seq<Cert>, issuer: Issuer, stores: seq<set<Cert>>, inter: seq<Cert>,
              roots: seq<Cert>, t: nat, i: nat, n: nat)
    requires Distinct(objs) && t > 0 && GoodStores(issuer, objs, stores, roots) && Waiting(objs, stores, inter)
    requires i < |inter| && Tried(objs, issuer, stores, t, Turn(objs, inter, i))
    requires n < |stores| && Of(issuer, inter[i]) in stores[n]
    ensures var grown, rest := stores[n := stores[n] + {inter[i]}], inter[..i] + inter[i + 1..];
      && GoodStores(issuer, objs, grown, roots)
      && Waiting(objs, grown, rest) && Tried(objs, issuer, grown, t, Turn(objs, rest, i))
  {
    var c := inter[i];
    var grown, rest := stores[n := stores[n] + {c}], inter[..i] + inter[i + 1..];
    assert c in inter;
    TurnOf(objs, issuer, stores, t, c);
    GrowStore(issuer, stores[n], roots[n], c);
    assert forall k :: 0 <= k < |stores| ==> c !in stores[k];
    StoredAfter(stores, n, c);
    WaitingLess(objs, stores, grown, inter, i);
    Between(objs, stores, inter, i);
    assert Turn(objs, rest, i) == Turn(objs, inter, i + 1);
    NextTurn(objs, issuer, stores, grown, t, c, Turn(objs, inter, i + 1));
  }

  lemma WaitingLess(objs: seq<Cert>, stores: seq<set<Cert>>, stores': seq<set<Cert>>, inter: seq<Cert>, i: nat)
    requires Waiting(objs, stores, inter) && i < |inter|
    requires forall x :: Stored(stores', x) <==> Stored(stores, x) || x == inter[i]
    ensures Waiting(objs, stores', inter[..i] + inter[i + 1..])
  {
    var rest := inter[..i] + inter[i + 1..];
    assert Distinct(inter) by {
      forall j, k | 0 <= j < k < |inter| ensures inter[j] != inter[k] {
        assert Pos(objs, inter[j]) < Pos(objs, inter[k]);
      }
    }
    forall x ensures x in rest <==> x in inter && x != inter[i] {
      InRest(inter, i, x);
    }
    OrderedRest(objs, inter, i, rest);
  }

  lemma InRest(inter: seq<Cert>, i: nat, x: Cert)
    requires Distinct(inter) && i < |inter|
    ensures x in inter[..i] + inter[i + 1..] <==> x in inter && x != inter[i]
  {
    assert inter == inter[..i] + [inter[i]] + inter[i + 1..];
  }

  lemma OrderedRest(objs: seq<Cert>, inter: seq<Cert>, i: nat, rest: seq<Cert>)
    requires i < |inter| && rest == inter[..i] + inter[i + 1..]
    requires forall j, k :: 0 <= j < k < |inter| ==> Precedes(objs, inter[j], inter[k])
    ensures forall j, k :: 0 <= j < k < |rest| ==> Precedes(objs, rest[j], rest[k])
  {
    forall a, b | 0 <= a < b < |rest|
      ensures Precedes(objs, rest[a], rest[b])
    {
      assert rest[a] == inter[if a < i then a else a + 1] && rest[b] == inter[if b < i then b else b + 1];
    }
  }

  lemma NotFound(objs: seq<Cert>, issuer: Issuer, stores: seq<set<Cert>>, inter: seq<Cert>, t: nat, i: nat)
    requires t > 0 && Waiting(objs, stores, inter) && i < |inter|
    requires forall k :: 0 <= k < |stores| ==> stores[k] <= All(objs)
    requires Tried(objs, issuer, stores, t, Turn(objs, inter, i)) && !Stored(stores, Of(issuer, inter[i]))
    ensures Tried(objs, issuer, stores, t, Turn(objs, inter, i + 1))
  {
    var c := inter[i];
    assert c in inter;
    TurnOf(objs, issuer, stores, t, c);
    Between(objs, stores, inter, i);
    NextTurn(objs, issuer, stores, stores, t, c, Turn(objs, inter, i + 1));
  }

  lemma FirstTurn(objs: seq<Cert>, issuer: Issuer, stores: seq<set<Cert>>, inter: seq<Cert>, t: nat)
    requires t > 0 && Tried(objs, issuer, stores, t, 0) && Waiting(objs, stores, inter)
    ensures Tried(objs, issuer, stores, t, Turn(objs, inter, 0))
  {
    forall x | x in objs ensures TriedAt(objs, issuer, stores, t, Turn(objs, inter, 0), x) {
      assert TriedAt(objs, issuer, stores, t, 0, x);
      if Pos(objs, x) < Turn(objs, inter, 0) {
        assert x !in inter;
        PlacedStays(objs, issuer, x, t - 1);
      }
    }
  }

  lemma StoredAfter(stores: seq<set<Cert>>, n: nat, c: Cert)
    requires n < |stores|
    ensures forall x :: Stored(stores[n := stores[n] + {c}], x) <==> Stored(stores, x) || x == c
  {
    var grown := stores[n := stores[n] + {c}];
    forall x ensures Stored(grown, x) <==> Stored(stores, x) || x == c {
      if Stored(stores, x) {
        var k :| 0 <= k < |stores| && x in stores[k];
        assert x in grown[k];
      } else if x == c {
        assert x in grown[n];
      }
    }
  }

  /** Between two neighbours of the list everything is stored. */
  lemma Between(objs: seq<Cert>, stores: seq<set<Cert>>, inter: seq<Cert>, i: nat)
    requires Waiting(objs, stores, inter) && i < |inter|
    ensures Pos(objs, inter[i]) < Turn(objs, inter, i + 1)
    ensures forall x :: x in objs && Pos(objs, inter[i]) < Pos(objs, x) < Turn(objs, inter, i + 1) ==> Stored(stores, x)
  {
    forall x | x in objs && Pos(objs, inter[i]) < Pos(objs, x) < Turn(objs, inter, i + 1) ensures Stored(stores, x) {
      forall j | 0 <= j < |inter| ensures inter[j] != x {
        if j < i {
          assert Pos(objs, inter[j]) < Pos(objs, inter[i]);
        } else if j > i + 1 {
          assert Pos(objs, inter[i + 1]) < Pos(objs, inter[j]);
        }
      }
      assert x !in inter;
    }
  }

  // ---------- the whole function ----------

  /** Self-signed certificates and the others, both in bundle order. */
  method Partition(objs: seq<Cert>, issuer: Issuer) returns (roots: seq<Cert>, inter: seq<Cert>)
    requires Distinct(objs)
    ensures Distinct(roots) && forall c :: c in roots <==> c in objs && Of(issuer, c) == c
    ensures forall c :: c in inter <==> c in objs && Of(issuer, c) != c
    ensures forall i, j :: 0 <= i < j < |inter| ==> Precedes(objs, inter[i], inter[j])
  {
    roots, inter := [], [];
    for idx := 0 to |objs|
      invariant Distinct(roots) && forall c :: c in roots <==> c in objs[..idx] && Of(issuer, c) == c
      invariant forall c :: c in inter <==> c in objs[..idx] && Of(issuer, c) != c
      invariant forall i :: 0 <= i < |inter| ==> inter[i] in objs && Pos(objs, inter[i]) < idx
      invariant forall i, j :: 0 <= i < j < |inter| ==> Pos(objs, inter[i]) < Pos(objs, inter[j])
    {
      var c := objs[idx];
      assert Pos(objs, c) == idx && c !in objs[..idx];
      assert objs[..idx + 1] == objs[..idx] + [c];
      if Of(issuer, c) == c {
        roots := roots + [c];
      } else {
        inter := inter + [c];
      }
    }
    assert objs[..|objs|] == objs;
  }

  /** One store per root, the last root first. */
  method NewStores(roots: seq<Cert>, ghost issuer: Issuer, ghost objs: seq<Cert>)
    returns (stores: seq<set<Cert>>, ghost order: seq<Cert>)
    requires Distinct(roots) && forall c :: c in roots ==> c in objs && Of(issuer, c) == c
    ensures GoodStores(issuer, objs, stores, order)
    ensures |order| == |roots|
    ensures forall k :: 0 <= k < |order| ==> order[k] == roots[|roots| - 1 - k] && stores[k] == {order[k]}
    ensures forall c :: c in roots ==> c in order
  {
    var rest := roots;
    stores, order := [], [];
    while |rest| > 0
      invariant rest == roots[..|rest|] && |rest| + |stores| == |roots| && |order| == |stores|
      invariant forall k :: 0 <= k < |order| ==> order[k] == roots[|roots| - 1 - k] && stores[k] == {order[k]}
    {
      var r := rest[|rest| - 1];
      rest := rest[..|rest| - 1];
      stores := stores + [{r}];
      order := order + [r];
    }
    forall k | 0 <= k < |stores| ensures GoodStore(issuer, stores[k], order[k]) && stores[k] <= All(objs) {
      assert order[k] in roots;
      assert Chained(issuer, stores[k], order[k], order[k], 0);
    }
    forall c | c in roots ensures c in order {
      var i :| 0 <= i < |roots| && roots[i] == c;
      assert order[|roots| - 1 - i] == c;
    }
  }

  lemma BeforeRounds(objs: seq<Cert>, issuer: Issuer, stores: seq<set<Cert>>, order: seq<Cert>, roots: seq<Cert>)
    requires forall c :: c in roots <==> c in objs && Of(issuer, c) == c
    requires |order| == |stores| == |roots|
    requires forall k :: 0 <= k < |order| ==> order[k] == roots[|roots| - 1 - k] && stores[k] == {order[k]}
    ensures Tried(objs, issuer, stores, 1, 0)
    ensures forall c :: Stored(stores, c) <==> c in roots
  {
    forall c ensures Stored(stores, c) <==> c in roots {
      if c in roots {
        var i :| 0 <= i < |roots| && roots[i] == c;
        assert c in stores[|roots| - 1 - i];
      }
      if Stored(stores, c) {
        var k :| 0 <= k < |stores| && c in stores[k];
        assert c == roots[|roots| - 1 - k];
      }
    }
    forall c | c in objs ensures TriedAt(objs, issuer, stores, 1, 0, c) {
    }
  }

  lemma NextRound(objs: seq<Cert>, issuer: Issuer, stores: seq<set<Cert>>, t: nat)
    requires t > 0 && Tried(objs, issuer, stores, t, |objs|)
    ensures Tried(objs, issuer, stores, t + 1, 0)
  {
    forall c | c in objs ensures TriedAt(objs, issuer, stores, t + 1, 0, c) {
      assert TriedAt(objs, issuer, stores, t, |objs|, c);
    }
  }

  lemma {:induction false} PlacedLater(objs: seq<Cert>, issuer: Issuer, c: Cert, t: nat, u: nat)
    requires c in objs && t <= u && Placed(objs, issuer, c, t)
    ensures Placed(objs, issuer, c, u)
    decreases u
  {
    if t < u {
      PlacedLater(objs, issuer, c, t, u - 1);
      PlacedStays(objs, issuer, c, u - 1);
    }
  }

  /** process_chains. A certificate ends up in a store exactly if it chains to a
      root of the bundle with fewer than three steps to intermediates listed later;
      each store holds only what chains to its root inside it, and every certificate of
      the bundle is in exactly one store or left over. */
  method ProcessChains(objs: seq<Cert>, issuer: Issuer)
    returns (stores: seq<set<Cert>>, left: seq<Cert>, ghost roots: seq<Cert>)
    requires Distinct(objs)  // a certificate store holds no duplicates
    ensures GoodStores(issuer, objs, stores, roots)
    ensures forall c :: c in objs && Of(issuer, c) == c ==> c in roots
    ensures forall c :: c in objs ==> (Stored(stores, c) <==> ChainsWithin(objs, issuer, c, 3))
    ensures Waiting(objs, stores, left)
  {
    var rs, inter := Partition(objs, issuer);
    stores, roots := NewStores(rs, issuer, objs);
    BeforeRounds(objs, issuer, stores, roots, rs);
    var tries := TRIES;
    left := inter;
    while |left| > 0 && tries > 0
      invariant 0 <= tries <= TRIES
      invariant GoodStores(issuer, objs, stores, roots)
      invariant Tried(objs, issuer, stores, TRIES - tries + 1, 0) && Waiting(objs, stores, left)
      decreases tries
    {
      stores, left := Round(objs, issuer, stores, left, roots, TRIES - tries + 1);
      NextRound(objs, issuer, stores, TRIES - tries + 1);
      tries := tries - 1;
    }
    AfterRounds(objs, issuer, stores, left, tries);
  }

  lemma AfterRounds(objs: seq<Cert>, issuer: Issuer, stores: seq<set<Cert>>, left: seq<Cert>, tries: nat)
    requires tries <= TRIES && (left == [] || tries == 0)
    requires Tried(objs, issuer, stores, TRIES - tries + 1, 0) && Waiting(objs, stores, left)
    ensures forall c :: c in objs ==> (Stored(stores, c) <==> ChainsWithin(objs, issuer, c, TRIES))
  {
    forall c | c in objs ensures Stored(stores, c) <==> ChainsWithin(objs, issuer, c, TRIES) {
      PlacedIff(objs, issuer, c, TRIES);
      assert TriedAt(objs, issuer, stores, TRIES - tries + 1, 0, c);
      if tries > 0 {
        assert c !in left;
        PlacedLater(objs, issuer, c, TRIES - tries, TRIES);
      }
    }
  }

  /** The two ends meet: a certificate at most three issuing steps from a root
      of the bundle is in that root's store. */
  lemma InItsRootsStore(objs: seq<Cert>, issuer: Issuer, stores: seq<set<Cert>>, roots: seq<Cert>,
                        c: Cert, r: Cert, k: nat)
    requires GoodStores(issuer, objs, stores, roots)
    requires forall x :: x in objs ==> (Stored(stores, x) <==> ChainsWithin(objs, issuer, x, 3))
    requires c in objs && k <= 3 && Chained(issuer, All(objs), c, r, k)
    ensures exists n :: 0 <= n < |stores| && roots[n] == r && c in stores[n]
  {
    ShortChainsArePlaced(objs, issuer, c, r, k, TRIES);
    PlacedIff(objs, issuer, c, TRIES);
    var n :| 0 <= n < |stores| && c in stores[n];
    var m: nat :| Chained(issuer, stores[n], c, roots[n], m);
    OneRoot(issuer, stores[n], All(objs), c, roots[n], m, r, k);
  }

  /** The bound is sharp: listed leaf first, a chain of four intermediates leaves
      its last one out; listed root first, chains of any length are placed. */
  lemma FourStepsCanFail(objs: seq<Cert>, issuer: Issuer)
    requires objs == [4, 3, 2, 1, 0] && issuer == map[4 := 3, 3 := 2, 2 := 1, 1 := 0]
    ensures Chained(issuer, All(objs), 4, 0, 4) && !ChainsWithin(objs, issuer, 4, 3)
  {
    assert objs[0] == 4 && objs[1] == 3 && objs[2] == 2 && objs[3] == 1 && objs[4] == 0;
    assert Chained(issuer, All(objs), 0, 0, 0) && Chained(issuer, All(objs), 1, 0, 1);
    assert Chained(issuer, All(objs), 2, 0, 2) && Chained(issuer, All(objs), 3, 0, 3);
    assert Pos(objs, 4) == 0 && Pos(objs, 3) == 1 && Pos(objs, 2) == 2 && Pos(objs, 1) == 3 && Pos(objs, 0) == 4;
    assert !Placed(objs, issuer, 1, 0) && !Placed(objs, issuer, 2, 1) && !Placed(objs, issuer, 3, 2);
    PlacedIff(objs, issuer, 4, TRIES);
  }

  lemma {:induction false} RootFirstNeedsOneRound(objs: seq<Cert>, issuer: Issuer, c: Cert, r: Cert, k: nat)
    requires c in objs && Chained(issuer, All(objs), c, r, k)
    requires forall x :: x in objs && Of(issuer, x) in objs && Of(issuer, x) != x ==>
      Pos(objs, Of(issuer, x)) < Pos(objs, x)
    ensures Placed(objs, issuer, c, 1)
    decreases k
  {
    if k > 0 && Of(issuer, c) != c {
      RootFirstNeedsOneRound(objs, issuer, Of(issuer, c), r, k - 1);
    }
  }
}
