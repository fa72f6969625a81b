/**
 Header lists: a doubly linked list with case-insensitive names, which behaves
 like a map from lower-case names to values.
 */
module Headers {
  import opened CText
  import opened Options

  datatype Header = Header(name: string, value: string)

  // ---------- lists of headers ----------

  /** The first header with this name, or the length of the list. */
  function Find(l: seq<Header>, name: string): (i: nat)
    ensures i <= |l|
    ensures i < |l| ==> Lower(l[i].name) == Lower(name)
    ensures forall j :: 0 <= j < i ==> Lower(l[j].name) != Lower(name)
  {
    if l == [] || Lower(l[0].name) == Lower(name) then 0 else 1 + Find(l[1..], name)
  }

  /** set_http_header; no value removes the header. */
  function Set(l: seq<Header>, name: string, value: Option<string>): seq<Header> {
    var i := Find(l, name);
    match value
    case None => if i < |l| then l[..i] + l[i + 1..] else l
    case Some(v) => if i < |l| then l[i := l[i].(value := v)] else [Header(name, v)] + l
  }

  /** tlsuv_http_resp_header. */
  function Get(l: seq<Header>, name: string): Option<string> {
    var i := Find(l, name);
    if i < |l| then Some(l[i].value) else None
  }

  /** Setting every header of `from`, in list order. */
  function SetAll(l: seq<Header>, from: seq<Header>): seq<Header>
    decreases |from|
  {
    if from == [] then l else SetAll(Set(l, from[0].name, Some(from[0].value)), from[1..])
  }

  // ---------- the map a list stands for ----------

  function AsMap(l: seq<Header>): map<string, string> {
    if l == [] then map[] else AsMap(l[1..])[Lower(l[0].name) := l[0].value]
  }

  ghost predicate Unique(l: seq<Header>) {
    forall i, j :: 0 <= i < j < |l| ==> Lower(l[i].name) != Lower(l[j].name)
  }

  /** Looking up is map lookup; with repeated names the first one counts. */
  lemma {:induction false} GetIsLookup(l: seq<Header>, name: string)
    ensures Get(l, name) == if Lower(name) in AsMap(l) then Some(AsMap(l)[Lower(name)]) else None
  {
    if l != [] && Lower(l[0].name) != Lower(name) {
      GetIsLookup(l[1..], name);
    }
  }

  lemma {:induction false} AsMapKeys(l: seq<Header>, key: string)
    ensures key in AsMap(l) <==> exists i :: 0 <= i < |l| && Lower(l[i].name) == key
  {
    if l != [] {
      AsMapKeys(l[1..], key);
      if key in AsMap(l) && Lower(l[0].name) != key {
        var i :| 0 <= i < |l[1..]| && Lower(l[1..][i].name) == key;
        assert Lower(l[i + 1].name) == key;
      }
      if exists i :: 0 <= i < |l| && Lower(l[i].name) == key {
        var i :| 0 <= i < |l| && Lower(l[i].name) == key;
        assert i > 0 ==> l[1..][i - 1] == l[i];
      }
    }
  }

  /** Setting a header keeps names unique. */
  lemma SetUnique(l: seq<Header>, name: string, value: Option<string>)
    requires Unique(l)
    ensures Unique(Set(l, name, value))
  {
  }

  lemma {:induction false} ReplaceAt(l: seq<Header>, i: nat, v: string)
    requires Unique(l) && i < |l|
    ensures AsMap(l[i := l[i].(value := v)]) == AsMap(l)[Lower(l[i].name) := v]
  {
    var r := l[i := l[i].(value := v)];
    if i == 0 {
      assert r[1..] == l[1..];
    } else {
      ReplaceAt(l[1..], i - 1, v);
      assert r[1..] == l[1..][i - 1 := l[i].(value := v)];
    }
  }

  lemma {:induction false} RemoveAt(l: seq<Header>, i: nat)
    requires Unique(l) && i < |l|
    ensures AsMap(l[..i] + l[i + 1..]) == AsMap(l) - {Lower(l[i].name)}
  {
    var r := l[..i] + l[i + 1..];
    if i == 0 {
      assert r == l[1..];
      AsMapKeys(l[1..], Lower(l[0].name));
    } else {
      RemoveAt(l[1..], i - 1);
      assert r[0] == l[0] && r[1..] == l[1..][..i - 1] + l[1..][i..];
      RemoveOther(AsMap(l[1..]), Lower(l[0].name), l[0].value, Lower(l[i].name));
    }
  }

  lemma RemoveOther(m: map<string, string>, k: string, v: string, x: string)
    requires k != x
    ensures (m - {x})[k := v] == m[k := v] - {x}
  {
  }

  /** Setting a header is updating the map; other names are untouched. */
  lemma SetIsUpdate(l: seq<Header>, name: string, value: Option<string>)
    requires Unique(l)
    ensures AsMap(Set(l, name, value)) ==
      match value case None => AsMap(l) - {Lower(name)} case Some(v) => AsMap(l)[Lower(name) := v]
  {
    var i := Find(l, name);
    if i == |l| {
      AsMapKeys(l, Lower(name));
      if value.Some? {
        assert Set(l, name, value)[1..] == l;
      }
    } else if value.Some? {
      ReplaceAt(l, i, value.value);
    } else {
      RemoveAt(l, i);
    }
  }

  /** A header that was set is found, under any spelling of its name. */
  lemma SetThenGet(l: seq<Header>, name: string, v: string)
    ensures Get(Set(l, name, Some(v)), name) == Some(v)
  {
    var i, r := Find(l, name), Set(l, name, Some(v));
    assert i < |l| ==> r[i].value == v && Lower(r[i].name) == Lower(name);
    assert forall j :: 0 <= j < i && i < |l| ==> r[j] == l[j];
  }

  /** What setting means for every name, in every spelling. */
  lemma AnySpelling(l: seq<Header>, name: string, value: Option<string>, other: string)
    requires Unique(l)
    ensures Get(Set(l, name, value), other) == if SameText(name, other) then value else Get(l, other)
  {
    LowerIsSameText(name, other);
    SetIsUpdate(l, name, value);
    GetIsLookup(Set(l, name, value), other);
    GetIsLookup(l, other);
  }

  /** Names are unique when no two are the same to strcasecmp. */
  lemma UniqueMeans(l: seq<Header>)
    ensures Unique(l) <==> forall i, j :: 0 <= i < j < |l| ==> !SameText(l[i].name, l[j].name)
  {
    forall i, j | 0 <= i < j < |l| ensures Lower(l[i].name) == Lower(l[j].name) <==> SameText(l[i].name, l[j].name) {
      LowerIsSameText(l[i].name, l[j].name);
    }
  }

  /** Reading returns the value of the first header whose name is the same to strcasecmp. */
  lemma GetMeans(l: seq<Header>, name: string)
    ensures Get(l, name).None? <==> forall i :: 0 <= i < |l| ==> !SameText(l[i].name, name)
    ensures Get(l, name).Some? ==> exists i: nat :: FirstMatch(l, name, i) && l[i].value == Get(l, name).value
  {
    forall i | 0 <= i < |l| ensures Lower(l[i].name) == Lower(name) <==> SameText(l[i].name, name) {
      LowerIsSameText(l[i].name, name);
    }
    var i := Find(l, name);
    assert i < |l| ==> FirstMatch(l, name, i);
  }

  ghost predicate FirstMatch(l: seq<Header>, name: string, i: nat) {
    i < |l| && SameText(l[i].name, name) && forall j :: 0 <= j < i ==> !SameText(l[j].name, name)
  }

  /** Copying a list into another adds its map to the other's. */
  lemma {:induction false} SetAllIsUnion(l: seq<Header>, from: seq<Header>)
    requires Unique(l) && Unique(from)
    ensures Unique(SetAll(l, from)) && AsMap(SetAll(l, from)) == AsMap(l) + AsMap(from)
    decreases |from|
  {
    if from != [] {
      var h := from[0];
      SetUnique(l, h.name, Some(h.value));
      SetIsUpdate(l, h.name, Some(h.value));
      SetAllIsUnion(Set(l, h.name, Some(h.value)), from[1..]);
      TailLacks(from);
      MoveKey(AsMap(l), AsMap(from[1..]), Lower(h.name), h.value);
    }
  }

  lemma TailLacks(l: seq<Header>)
    requires Unique(l) && l != []
    ensures Lower(l[0].name) !in AsMap(l[1..]) && Unique(l[1..])
  {
    AsMapKeys(l[1..], Lower(l[0].name));
  }

  lemma MoveKey(m: map<string, string>, n: map<string, string>, k: string, v: string)
    requires k !in n
    ensures m[k := v] + n == m + n[k := v]
  {
  }

  /** The client's headers, copied into a new request, are the same map. */
  lemma CopyPreservesMap(from: seq<Header>)
    requires Unique(from)
    ensures AsMap(SetAll([], from)) == AsMap(from)
  {
    SetAllIsUnion([], from);
  }
}
