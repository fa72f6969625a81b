/** The header list as the LIST macros build it, proved against the functions on lists. */
module HeaderList {
  import opened CText
  import opened Options
  import opened Headers

  class Hdr {
    const name: string
    var value: string
    var next: Hdr?
    var prev: Hdr?  // the element whose le_next le_prev points at; null for the head's lh_first

    constructor (name: string, value: string)
      ensures this.name == name && this.value == value
    {
      this.name := name;
      this.value := value;
      next, prev := null, null;
    }
  }

  lemma SetAllStep(l: seq<Header>, all: seq<Header>, k: nat)
    requires k < |all|
    ensures SetAll(l, all[k..]) == SetAll(Set(l, all[k].name, Some(all[k].value)), all[k + 1..])
  {
    assert all[k..][1..] == all[k + 1..];
  }

  class List {
    var first: Hdr?
    ghost var nodes: seq<Hdr>

    ghost predicate Linked()
      reads this, nodes
    {
      && first == (if nodes == [] then null else nodes[0])
      && (nodes != [] ==> nodes[0].prev == null && nodes[|nodes| - 1].next == null)
      && (forall i, j :: 0 <= i < j < |nodes| && j == i + 1 ==> nodes[i].next == nodes[j] && nodes[j].prev == nodes[i])
      && (forall i, j :: 0 <= i < j < |nodes| ==> nodes[i] != nodes[j])
    }

    /** Linked, and one entry per name. */
    ghost predicate Valid()
      reads this, nodes
    {
      Linked() && Unique(Entries())
    }

    ghost function Nodes(): set<Hdr>
      reads this
    {
      set x | x in nodes
    }

    ghost function Entries(): (l: seq<Header>)
      reads this, nodes
      ensures |l| == |nodes|
    {
      seq(|nodes|, i requires 0 <= i < |nodes| reads this, nodes => Header(nodes[i].name, nodes[i].value))
    }

    constructor ()
      ensures Valid() && Entries() == [] && nodes == []
    {
      first, nodes := null, [];
    }

    /** LIST_FOREACH up to the first header with this name. */
    method Locate(name: string) returns (h: Hdr?, ghost i: nat)
      requires Linked()
      ensures i == Find(Entries(), name) && h == if i < |nodes| then nodes[i] else null
    {
      h, i := first, 0;
      while h != null && Lower(h.name) != Lower(name)
        invariant 0 <= i <= |nodes| && h == if i < |nodes| then nodes[i] else null
        invariant forall j :: 0 <= j < i ==> Lower(nodes[j].name) != Lower(name)
        decreases |nodes| - i
      {
        assert i + 1 < |nodes| ==> nodes[i].next == nodes[i + 1];
        h, i := h.next, i + 1;
      }
      ghost var l := Entries();
      assert i < |l| ==> Lower(l[i].name) == Lower(name);
      assert forall j :: 0 <= j < i ==> Lower(l[j].name) != Lower(name);
    }

    /** tlsuv_http_resp_header. */
    method GetHeader(name: string) returns (v: Option<string>)
      requires Linked()
      ensures v == Get(Entries(), name)
      ensures v.None? <==> forall i :: 0 <= i < |nodes| ==> !SameText(nodes[i].name, name)
      ensures v.Some? ==> exists i: nat :: FirstMatch(Entries(), name, i) && nodes[i].value == v.value
    {
      GetMeans(Entries(), name);
      ghost var l := Entries();
      assert forall k :: 0 <= k < |nodes| ==> l[k] == Header(nodes[k].name, nodes[k].value);
      var h, i := Locate(name);
      v := if h == null then None else Some(h.value);
    }

    /** LIST_INSERT_HEAD. */
    method InsertHead(h: Hdr)
      requires Linked() && h !in nodes
      modifies this, h`next, h`prev, (if first == null then {} else {first})`prev
      ensures Linked() && nodes == [h] + old(nodes)
      ensures Entries() == [Header(h.name, h.value)] + old(Entries())
    {
      h.next := first;
      if h.next != null {
        first.prev := h;
      }
      first := h;
      h.prev := null;
      nodes := [h] + nodes;
    }

    /** LIST_REMOVE. */
    method Remove(h: Hdr, ghost i: nat)
      requires Linked() && i < |nodes| && nodes[i] == h
      modifies this, (set x | x in nodes)`next, (set x | x in nodes)`prev
      ensures Linked() && nodes == old(nodes)[..i] + old(nodes)[i + 1..]
      ensures Entries() == old(Entries())[..i] + old(Entries())[i + 1..]
    {
      assert i + 1 < |nodes| ==> h.next == nodes[i + 1];
      assert i > 0 ==> nodes[i - 1].next == h && h.prev == nodes[i - 1];
      if h.next != null {
        h.next.prev := h.prev;
      }
      if h.prev == null {
        first := h.next;
      } else {
        h.prev.next := h.next;
      }
      nodes := nodes[..i] + nodes[i + 1..];
    }

    method SetValue(h: Hdr, v: string, ghost i: nat)
      requires Linked() && i < |nodes| && nodes[i] == h
      modifies h`value
      ensures Linked() && Entries() == old(Entries())[i := Header(h.name, v)]
    {
      h.value := v;
    }

    /** set_http_header. */
    method SetHeader(name: string, value: Option<string>)
      requires Valid()
      modifies this, nodes
      ensures Valid() && Entries() == Set(old(Entries()), name, value)
      ensures Get(Entries(), name) == value
      ensures fresh(Nodes() - old(Nodes()))
    {
      AnySpelling(Entries(), name, value, name);
      match value {
        case None => RemoveHeader(name);
        case Some(v) => PutHeader(name, v);
      }
    }

    method RemoveHeader(name: string)
      requires Valid()
      modifies this, nodes
      ensures Valid() && Entries() == Set(old(Entries()), name, None) && Nodes() <= old(Nodes())
    {
      SetUnique(Entries(), name, None);
      var h, i := Locate(name);
      if h != null {
        Remove(h, i);
      }
    }

    method PutHeader(name: string, v: string)
      requires Valid()
      modifies this, nodes
      ensures Valid() && Entries() == Set(old(Entries()), name, Some(v))
      ensures nodes == old(nodes) || (nodes != [] && fresh(nodes[0]) && nodes[1..] == old(nodes))
    {
      SetUnique(Entries(), name, Some(v));
      Put(name, v);
    }

    method Put(name: string, v: string)
      requires Linked()
      modifies this, nodes
      ensures Linked() && Entries() == Set(old(Entries()), name, Some(v))
      ensures nodes == old(nodes) || (nodes != [] && fresh(nodes[0]) && nodes[1..] == old(nodes))
    {
      var h, i := Locate(name);
      if h == null {
        h := new Hdr(name, v);
        InsertHead(h);
      } else {
        SetValue(h, v, i);
      }
    }

    /** The header list of a new request: the client's headers, set one by one. */
    method Copied() returns (r: List)
      requires Valid()
      ensures fresh(r) && r.Valid() && r.Entries() == SetAll([], Entries())
      ensures AsMap(r.Entries()) == AsMap(Entries())
    {
      SetAllIsUnion([], Entries());
      CopyPreservesMap(Entries());
      r := CopyEach();
    }

    /** Set a copy of the foreign header `h`, and go on to the next one. */
    method PutCopy(h: Hdr) returns (next: Hdr?)
      requires Linked() && h !in nodes
      modifies this, nodes
      ensures Linked() && Entries() == Set(old(Entries()), h.name, Some(old(h.value)))
      ensures nodes == old(nodes) || (nodes != [] && fresh(nodes[0]) && nodes[1..] == old(nodes))
      ensures next == old(h.next)
    {
      next := h.next;
      Put(h.name, h.value);
    }

    method CopyEach() returns (r: List)
      requires Linked()
      ensures fresh(r) && r.Linked() && r.Entries() == SetAll([], Entries())
    {
      r := new List();
      var h, k := first, 0;
      ghost var all := Entries();
      while h != null
        invariant fresh(r) && r.Linked() && fresh(r.nodes)
        invariant 0 <= k <= |nodes| && h == if k < |nodes| then nodes[k] else null
        invariant SetAll(r.Entries(), all[k..]) == SetAll([], all)
        decreases |nodes| - k
      {
        SetAllStep(r.Entries(), all, k);
        h := r.PutCopy(h);
        k := k + 1;
      }
    }
  }
}
