/**
 The in-memory byte queue between TLS and the transport: messages of any length,
 including zero, in a singly linked tail queue, read as one stream of bytes.
 */
module ByteQueue {
  import opened CText

  class Msg {
    const data: seq<byte>
    var next: Msg?

    constructor (data: seq<byte>)
      ensures this.data == data && next == null
    {
      this.data := data;
      next := null;
    }
  }

  /** The bytes of a list of messages. */
  ghost function Flat(nodes: seq<Msg>): seq<byte> {
    if nodes == [] then [] else nodes[0].data + Flat(nodes[1..])
  }

  lemma {:induction false} FlatAppend(nodes: seq<Msg>, m: Msg)
    ensures Flat(nodes + [m]) == Flat(nodes) + m.data
  {
    if nodes != [] {
      assert (nodes + [m])[1..] == nodes[1..] + [m];
      FlatAppend(nodes[1..], m);
    }
  }

  class Bio {
    var first: Msg?       // stqh_first
    var last: Msg?        // the message stqh_last points into; null when it points at stqh_first
    var available: nat
    var headOffset: nat
    var qlen: nat
    ghost var nodes: seq<Msg>
    ghost var written: seq<byte>  // everything put so far
    ghost var taken: seq<byte>    // everything read so far

    ghost predicate Linked()
      reads this, nodes
    {
      && (nodes == [] ==> first == null && last == null)
      && (nodes != [] ==> first == nodes[0] && last == nodes[|nodes| - 1] && nodes[|nodes| - 1].next == null)
      && (forall i, j :: 0 <= i < j < |nodes| && j == i + 1 ==> nodes[i].next == nodes[j])
      && (forall i, j :: 0 <= i < j < |nodes| ==> nodes[i] != nodes[j])
    }

    ghost predicate Valid()
      reads this, nodes
    {
      && Linked()
      && headOffset <= |Flat(nodes)|
      && (headOffset > 0 ==> nodes != [] && headOffset < |nodes[0].data|)
      && available == |Contents()|
      && qlen == |nodes|
      && taken + Contents() == written
    }

    /** The bytes still held. */
    ghost function Contents(): seq<byte>
      reads this
      requires headOffset <= |Flat(nodes)|
    {
      Flat(nodes)[headOffset..]
    }

    constructor ()
      ensures Valid() && Contents() == [] && written == [] && taken == [] && nodes == []
    {
      available, headOffset, qlen := 0, 0, 0;
      first, last := null, null;
      nodes, written, taken := [], [], [];
    }

    method Available() returns (n: nat)
      requires Valid()
      ensures n == |Contents()|
    {
      n := available;
    }

    method Put(data: seq<byte>)
      requires Valid()
      modifies this, last
      ensures Valid()
      ensures Contents() == old(Contents()) + data
      ensures written == old(written) + data && taken == old(taken)
      ensures qlen == old(qlen) + 1
      ensures nodes[..|nodes| - 1] == old(nodes) && fresh(nodes[|nodes| - 1])
    {
      var m := new Msg(data);
      ghost var was := nodes;
      InsertTail(m);
      FlatAppend(was, m);
      assert headOffset > 0 ==> nodes[0] == was[0];
      available := available + |data|;
      qlen := qlen + 1;
      ghost var held := Flat(was)[headOffset..];
      assert Contents() == held + data;
      assert taken + (held + data) == taken + held + data;
      written := written + data;
    }

    /** STAILQ_INSERT_TAIL. */
    method InsertTail(m: Msg)
      requires Linked() && m !in nodes && m.next == null
      modifies this`first, this`last, this`nodes, last
      ensures Linked() && nodes == old(nodes) + [m]
    {
      if last == null {
        first := m;
      } else {
        last.next := m;
      }
      last := m;
      nodes := nodes + [m];
    }

    /** STAILQ_REMOVE_HEAD. */
    method RemoveHead()
      requires Linked() && nodes != []
      modifies this`first, this`last, this`nodes
      ensures Linked() && nodes == old(nodes)[1..]
    {
      assert |nodes| > 1 ==> first.next == nodes[1];
      first := first.next;
      if first == null {
        last := null;
      }
      nodes := nodes[1..];
    }

    /** One turn of the read loop: take up to `max` bytes from the first
        message, and drop the message once it is used up. */
    method TakeSome(max: nat) returns (chunk: seq<byte>)
      requires Valid() && nodes != [] && max > 0
      modifies this
      ensures Valid() && written == old(written)
      ensures |chunk| <= max && old(Contents()) == chunk + Contents() && taken == old(taken) + chunk
      ensures |nodes| < |old(nodes)| || (nodes == old(nodes) && |chunk| == max)
    {
      var m: Msg := first;
      var n := if max < |m.data| - headOffset then max else |m.data| - headOffset;
      chunk := m.data[headOffset..headOffset + n];
      Advance(n, chunk);
      if headOffset == |m.data| {
        DropHead();
      }
    }

    method Advance(n: nat, ghost chunk: seq<byte>)
      requires Valid() && nodes != [] && headOffset + n <= |nodes[0].data|
      requires chunk == nodes[0].data[headOffset..headOffset + n]
      modifies this`headOffset, this`available, this`taken
      ensures headOffset == old(headOffset) + n <= |Flat(nodes)| && available == |Contents()|
      ensures old(Contents()) == chunk + Contents() && taken == old(taken) + chunk && taken + Contents() == written
    {
      SplitHead(nodes, headOffset, n);
      ghost var rest := Flat(nodes)[headOffset + n..];
      assert taken + (chunk + rest) == taken + chunk + rest;
      headOffset := headOffset + n;
      available := available - n;
      taken := taken + chunk;
    }

    method DropHead()
      requires Linked() && nodes != [] && headOffset == |nodes[0].data| && qlen == |nodes|
      modifies this`first, this`last, this`nodes, this`headOffset, this`qlen
      ensures Linked() && nodes == old(nodes)[1..] && headOffset == 0 && qlen == |nodes|
      ensures Flat(nodes) == old(Flat(nodes)[headOffset..])
    {
      SplitHead(nodes, headOffset, 0);
      RemoveHead();
      headOffset := 0;
      qlen := qlen - 1;
    }

    method Read(buf: array<byte>, len: nat) returns (total: nat)
      requires Valid() && len <= buf.Length
      modifies this, buf
      ensures Valid() && written == old(written)
      ensures total == if len <= old(available) then len else old(available)
      ensures old(Contents()) == buf[..total] + Contents()
      ensures taken == old(taken) + buf[..total]
      ensures buf[total..] == old(buf[total..])
    {
      total := 0;
      ghost var all, before := Contents(), taken;
      while first != null && total < len
        invariant Valid() && written == old(written) && 0 <= total <= len
        invariant all == buf[..total] + Contents() && taken == before + buf[..total]
        invariant buf[total..] == old(buf[total..])
        decreases |nodes| + (len - total)
      {
        total := ReadSome(buf, total, len);
      }
      assert first == null ==> Contents() == [];
    }

    method ReadSome(buf: array<byte>, total: nat, len: nat) returns (total': nat)
      requires Valid() && nodes != [] && total < len <= buf.Length
      modifies this, buf
      ensures Valid() && written == old(written) && total <= total' <= len
      ensures buf[..total'] + Contents() == old(buf[..total] + Contents())
      ensures exists chunk :: buf[..total'] == old(buf[..total]) + chunk && taken == old(taken) + chunk
      ensures buf[total'..] == old(buf[total'..])
      ensures |nodes| < |old(nodes)| || (nodes == old(nodes) && total' == len)
    {
      ghost var done := buf[..total];
      var chunk := TakeSome(len - total);
      Memcpy(buf, total, chunk);
      total' := total + |chunk|;
      assert buf[..total'] == done + chunk;
    }
  }

  lemma SplitHead(nodes: seq<Msg>, offset: nat, n: nat)
    requires nodes != [] && offset + n <= |nodes[0].data|
    ensures |nodes[0].data| <= |Flat(nodes)|
    ensures Flat(nodes)[offset..] == nodes[0].data[offset..offset + n] + Flat(nodes)[offset + n..]
    ensures offset + n == |nodes[0].data| ==> Flat(nodes)[offset + n..] == Flat(nodes[1..])
  {
  }
}
