/**
 The zero-copy URL parser, against a description of URLs by the texts they are
 made of: what it accepts, that the reading is the only one, and that printing
 and parsing are inverse.
 */
module Url {
  import opened CText
  import opened Options

  datatype Slice = Slice(start: nat, len: nat)

  /** What the parser fills in; port 0 is no port. */
  datatype Url = Url(
    scheme: Option<Slice>, host: Option<Slice>, port: nat, path: Option<Slice>, query: Option<Slice>)

  /** The texts a URL is made of, the port as it is written. */
  datatype Parts = Parts(
    scheme: Option<string>, host: Option<string>, port: Option<string>, path: Option<string>, query: Option<string>)

  function Text(o: Option<string>): string {
    if o.Some? then o.value else ""
  }

  function SchemeText(q: Parts): string {
    if q.scheme.Some? then q.scheme.value + "://" else ""
  }

  function PortText(q: Parts): string {
    if q.port.Some? then ":" + q.port.value else ""
  }

  function QueryText(q: Parts): string {
    if q.query.Some? then "?" + q.query.value else ""
  }

  function Tail(q: Parts): string {
    Text(q.path) + QueryText(q)
  }

  function AfterHost(q: Parts): string {
    PortText(q) + Tail(q)
  }

  function AfterScheme(q: Parts): string {
    Text(q.host) + AfterHost(q)
  }

  function Print(q: Parts): string {
    SchemeText(q) + AfterScheme(q)
  }

  function SliceOf(o: Option<string>, at: nat): Option<Slice> {
    if o.Some? then Some(Slice(at, |o.value|)) else None
  }

  function SchemeLength(scheme: Option<string>): nat {
    if scheme.Some? then |scheme.value| + 3 else 0
  }

  function PortLength(port: Option<string>): nat {
    if port.Some? then 1 + |port.value| else 0
  }

  /** Where the parts are in the printed text. */
  function Located(q: Parts, port: nat): Url {
    var at := SchemeLength(q.scheme);
    var url := Url(SliceOf(q.scheme, 0), SliceOf(q.host, at), 0, None, None);
    WithSuffix(url, Suffix(Port(q.port, port), PathQuery(q.path, q.query)), at + |Text(q.host)|)
  }

  datatype Port = Port(text: Option<string>, number: nat)

  datatype PathQuery = PathQuery(path: Option<string>, query: Option<string>)

  /** What follows the host. */
  datatype Suffix = Suffix(port: Port, tail: PathQuery)

  function WithSuffix(url: Url, x: Suffix, at: nat): Url {
    WithTail(url.(port := x.port.number), x.tail, at + PortLength(x.port.text))
  }

  function WithTail(url: Url, tail: PathQuery, at: nat): Url {
    url.(path := SliceOf(tail.path, at), query := SliceOf(tail.query, at + |Text(tail.path)| + 1))
  }

  predicate Free(s: string, stops: set<char>) {
    forall i :: 0 <= i < |s| ==> s[i] !in stops
  }

  /** The scanset conversions of sscanf: how many characters come before the first stop. */
  function Span(s: string, stops: set<char>): (n: nat)
    ensures n <= |s| && Free(s[..n], stops)
    ensures n < |s| ==> s[n] in stops
  {
    if s == "" || s[0] in stops then 0 else
      var n := 1 + Span(s[1..], stops);
      assert forall i :: 1 <= i < n ==> s[i] == s[1..][..n - 1][i - 1];
      n
  }

  lemma {:induction false} SpanIs(a: string, b: string, stops: set<char>)
    requires Free(a, stops) && (b != "" ==> b[0] in stops)
    ensures Span(a + b, stops) == |a|
  {
    if a == "" {
      assert a + b == b;
    } else {
      assert (a + b)[1..] == a[1..] + b;
      SpanIs(a[1..], b, stops);
    }
  }

  /** Whether what comes before the first ':' reads as a scheme. */
  predicate HasScheme(s: string) {
    var k := Span(s, {':'});
    k + 3 <= |s| && s[k..k + 3] == "://"
  }

  predicate HostOk(q: Parts) {
    q.host.Some? ==> q.host.value != "" && Free(q.host.value, {':', '/'})
  }

  /** The port is a number strtol reads, spaces and sign included, and needs a host. */
  predicate PortOk(q: Parts, port: nat) {
    if q.port.Some? then
      q.host.Some? && 0 < port <= 0xffff && StrToL(q.port.value + Tail(q)) == Long(port, |q.port.value|)
    else port == 0
  }

  predicate TailOk(q: Parts) {
    && (q.path.Some? ==> q.path.value != "" && q.path.value[0] == '/' && Free(q.path.value, {'?'}))
    && (q.query.Some? ==> q.path.Some?)
  }

  /** A scheme ends before the first ':'; without one the text must not begin like one. */
  predicate SchemeOk(q: Parts) {
    if q.scheme.Some? then Free(q.scheme.value, {':'}) else !HasScheme(AfterScheme(q))
  }

  /** `u` is the URL made of `q`, with the given port number. */
  predicate Reads(u: string, q: Parts, port: nat) {
    u == Print(q) && SchemeOk(q) && HostOk(q) && PortOk(q, port) && TailOk(q)
  }

  // ---------- reading from left to right ----------

  function ReadHost(s: string): Option<string> {
    var n := Span(s, {':', '/'});
    if n > 0 then Some(s[..n]) else None
  }

  function ReadPort(s: string, hasHost: bool): Option<Port> {
    if s == "" || s[0] != ':' then Some(Port(None, 0))
    else if !hasHost then None
    else
      var l := StrToL(s[1..]);
      if l.end == 0 || l.value <= 0 || l.value > 0xffff then None
      else Some(Port(Some(s[1..][..l.end]), l.value))
  }

  function ReadTail(s: string): Option<PathQuery> {
    if s == "" then Some(PathQuery(None, None))
    else if s[0] != '/' then None
    else
      var k := Span(s, {'?'});
      Some(PathQuery(Some(s[..k]), if k < |s| then Some(s[k + 1..]) else None))
  }

  datatype Reading = Reading(parts: Parts, port: nat)

  function ReadSuffix(s: string, hasHost: bool): Option<Suffix> {
    var port := ReadPort(s, hasHost);
    if port.None? then None else
      var tail := ReadTail(s[PortLength(port.value.text)..]);
      if tail.None? then None else Some(Suffix(port.value, tail.value))
  }

  function Whole(scheme: Option<string>, host: Option<string>, x: Suffix): Reading {
    Reading(Parts(scheme, host, x.port.text, x.tail.path, x.tail.query), x.port.number)
  }

  function ReadRest(scheme: Option<string>, s: string): Option<Reading> {
    var host := ReadHost(s);
    var x := ReadSuffix(s[|Text(host)|..], host.Some?);
    if x.Some? then Some(Whole(scheme, host, x.value)) else None
  }

  function Read(u: string): Option<Reading> {
    var k := Span(u, {':'});
    if HasScheme(u) then ReadRest(Some(u[..k]), u[k + 3..]) else ReadRest(None, u)
  }

  lemma SchemeAt(a: string, b: string)
    requires Free(a, {':'})
    ensures var u := a + "://" + b; Span(u, {':'}) == |a| && HasScheme(u) && u[..|a|] == a && u[|a| + 3..] == b
  {
    SpanIs(a, "://" + b, {':'});
    assert a + "://" + b == a + ("://" + b);
  }

  lemma HostIs(s: string, q: Parts)
    requires HostOk(q) && TailOk(q) && s == AfterScheme(q)
    ensures ReadHost(s) == q.host && s[|Text(q.host)|..] == AfterHost(q)
  {
    SpanIs(Text(q.host), AfterHost(q), {':', '/'});
  }

  lemma PortIs(s: string, q: Parts, port: nat)
    requires TailOk(q) && PortOk(q, port) && s == AfterHost(q)
    ensures ReadPort(s, q.host.Some?) == Some(Port(q.port, port))
    ensures s[PortLength(q.port)..] == Tail(q)
  {
    if q.port.Some? {
      PortAt(q.port.value, Tail(q));
    } else {
      assert s == Tail(q);
    }
  }

  lemma PortAt(v: string, rest: string)
    ensures var s := ":" + v + rest;
      s[0] == ':' && s[1..] == v + rest && s[1..][..|v|] == v && s[1 + |v|..] == rest
  {
  }

  lemma TailIs(s: string, q: Parts)
    requires TailOk(q) && s == Tail(q)
    ensures ReadTail(s) == Some(PathQuery(q.path, q.query))
  {
    if q.path.Some? {
      var k := |q.path.value|;
      SpanIs(q.path.value, s[k..], {'?'});
      assert s == q.path.value + s[k..];
      if q.query.Some? {
        assert s[k + 1..] == q.query.value;
      }
    }
  }

  lemma ReadRestIs(s: string, q: Parts, port: nat)
    requires HostOk(q) && PortOk(q, port) && TailOk(q) && s == AfterScheme(q)
    ensures ReadRest(q.scheme, s) == Some(Reading(q, port))
  {
    HostIs(s, q);
    PortIs(AfterHost(q), q, port);
    TailIs(Tail(q), q);
  }

  /** A reading is found from left to right. */
  lemma ReadingIsRead(u: string, q: Parts, port: nat)
    requires Reads(u, q, port)
    ensures Read(u) == Some(Reading(q, port))
  {
    ReadRestIs(AfterScheme(q), q, port);
    if q.scheme.Some? {
      SchemeAt(q.scheme.value, AfterScheme(q));
    } else {
      assert u == AfterScheme(q);
    }
  }

  /** A string has at most one reading. */
  lemma ReadingIsUnique(u: string, q: Parts, port: nat, r: Parts, other: nat)
    requires Reads(u, q, port) && Reads(u, r, other)
    ensures q == r && port == other
  {
    ReadingIsRead(u, q, port);
    ReadingIsRead(u, r, other);
  }

  lemma HostReads(s: string, q: Parts)
    requires q.host == ReadHost(s) && s[|Text(q.host)|..] == AfterHost(q)
    ensures HostOk(q) && s == AfterScheme(q)
  {
    var n := Span(s, {':', '/'});
    assert s == s[..n] + s[n..];
    assert Text(q.host) == s[..n];
  }

  lemma PortReads(s: string, q: Parts, port: nat)
    requires ReadPort(s, q.host.Some?) == Some(Port(q.port, port))
    requires s[PortLength(q.port)..] == Tail(q)
    ensures PortOk(q, port) && s == AfterHost(q)
  {
    if q.port.Some? {
      PortSplit(s, |q.port.value|);
    }
  }

  lemma PortSplit(s: string, n: nat)
    requires s != "" && s[0] == ':' && 1 + n <= |s|
    ensures s == ":" + s[1..][..n] + s[1 + n..] && s[1..] == s[1..][..n] + s[1 + n..]
  {
  }

  lemma TailReads(s: string, q: Parts)
    requires ReadTail(s) == Some(PathQuery(q.path, q.query))
    ensures TailOk(q) && s == Tail(q)
  {
    var k := Span(s, {'?'});
    if s != "" {
      assert s == s[..k] + s[k..];
      assert k > 0;
      if k < |s| {
        assert s[k..] == "?" + s[k + 1..];
      }
    }
  }

  lemma RestReads(scheme: Option<string>, s: string)
    requires ReadRest(scheme, s).Some?
    ensures var r := ReadRest(scheme, s).value; var q := r.parts;
      q.scheme == scheme && s == AfterScheme(q) && HostOk(q) && PortOk(q, r.port) && TailOk(q)
  {
    var r := ReadRest(scheme, s).value;
    var t := s[|Text(r.parts.host)|..];
    TailReads(t[PortLength(r.parts.port)..], r.parts);
    PortReads(t, r.parts, r.port);
    HostReads(s, r.parts);
  }

  lemma ReadIsReading(u: string)
    requires Read(u).Some?
    ensures Reads(u, Read(u).value.parts, Read(u).value.port)
  {
    var k := Span(u, {':'});
    if HasScheme(u) {
      RestReads(Some(u[..k]), u[k + 3..]);
      SchemeSplit(u, k, Read(u).value.parts);
    } else {
      RestReads(None, u);
      NoScheme(u, Read(u).value.parts);
    }
  }

  lemma NoScheme(u: string, q: Parts)
    requires q.scheme.None? && u == AfterScheme(q)
    ensures u == Print(q)
  {
  }

  lemma SchemeSplit(u: string, k: nat, q: Parts)
    requires k + 3 <= |u| && u[k..k + 3] == "://" && q.scheme == Some(u[..k]) && u[k + 3..] == AfterScheme(q)
    ensures u == Print(q)
  {
    assert u == u[..k] + u[k..k + 3] + u[k + 3..];
  }

  // ---------- the parser ----------

  // A pointer into the string is modelled by the string that starts there and
  // its position.

  /** tlsuv_parse_url: 0 and the only reading of the string, or -1 if it has none. */
  method ParseUrl(u: string) returns (rc: int, url: Url, ghost q: Parts)
    ensures rc == 0 || rc == -1
    ensures rc == 0 ==> Reads(u, q, url.port) && url == Located(q, url.port)
    ensures rc == -1 ==> forall r, port :: !Reads(u, r, port)
  {
    var count := Span(u, {':'});
    if count + 3 <= |u| && u[count..count + 3] == "://" {
      url := Url(Some(Slice(0, count)), None, 0, None, None);
      rc, url := ParseRest(u[count + 3..], count + 3, url, Some(u[..count]));
    } else {
      url := Url(None, None, 0, None, None);
      rc, url := ParseRest(u, 0, url, None);
    }
    if rc == 0 {
      ReadIsReading(u);
      q := Read(u).value.parts;
    } else {
      q := Parts(None, None, None, None, None);
      forall r, port ensures !Reads(u, r, port) {
        if Reads(u, r, port) {
          ReadingIsRead(u, r, port);
        }
      }
    }
  }

  /** Everything after the scheme. */
  method ParseRest(s: string, at: nat, init: Url, ghost scheme: Option<string>) returns (rc: int, url: Url)
    requires at == SchemeLength(scheme) && init == Url(SliceOf(scheme, 0), None, 0, None, None)
    ensures rc == if ReadRest(scheme, s).Some? then 0 else -1
    ensures rc == 0 ==> var r := ReadRest(scheme, s).value; url == Located(r.parts, r.port)
  {
    url := init;
    var count := Span(s, {':', '/'});
    if count > 0 {
      url := url.(host := Some(Slice(at, count)));
    }
    ghost var host := ReadHost(s);
    assert url == init.(host := SliceOf(host, at)) && count == |Text(host)|;
    ghost var t := s[count..];
    RestIsLocated(scheme, s, host, t);
    rc, url := ParseSuffix(s[count..], at + count, url);
  }

  lemma RestIsLocated(scheme: Option<string>, s: string, host: Option<string>, t: string)
    requires host == ReadHost(s) && t == s[|Text(host)|..]
    ensures var x, r := ReadSuffix(t, host.Some?), ReadRest(scheme, s);
      var url, at := Url(SliceOf(scheme, 0), SliceOf(host, SchemeLength(scheme)), 0, None, None), SchemeLength(scheme);
      && (r.Some? <==> x.Some?)
      && (r.Some? ==> Located(r.value.parts, r.value.port) == WithSuffix(url, x.value, at + |Text(host)|))
  {
  }

  /** Everything after the host. */
  method ParseSuffix(s: string, at: nat, init: Url) returns (rc: int, url: Url)
    requires init.port == 0 && init.path.None? && init.query.None?
    ensures rc == if ReadSuffix(s, init.host.Some?).Some? then 0 else -1
    ensures rc == 0 ==> url == WithSuffix(init, ReadSuffix(s, init.host.Some?).value, at)
  {
    url := init;
    var port, n;
    rc, port, n := ParsePort(s, url.host.Some?);
    if rc == 0 {
      rc, url := ParseTail(s[n..], at + n, url.(port := port));
    }
  }

  /** The port after the host, if there is one, and how many characters it takes. */
  method ParsePort(s: string, hasHost: bool) returns (rc: int, port: nat, n: nat)
    ensures rc == if ReadPort(s, hasHost).Some? then 0 else -1
    ensures rc == 0 ==> var r := ReadPort(s, hasHost).value; port == r.number && n == PortLength(r.text) <= |s|
  {
    rc, port, n := 0, 0, 0;
    if s != "" && s[0] == ':' {
      if !hasHost {
        rc := -1;
        return;
      }
      var l := StrToL(s[1..]);
      if l.end == 0 {
        rc := -1;
        return;
      }
      if 0 < l.value <= 0xffff {
        port := l.value;
        n := 1 + l.end;
      } else {
        rc := -1;
      }
    }
  }

  /** The path and the query. */
  method ParseTail(s: string, at: nat, init: Url) returns (rc: int, url: Url)
    requires init.path.None? && init.query.None?
    ensures rc == if ReadTail(s).Some? then 0 else -1
    ensures rc == 0 ==> url == WithTail(init, ReadTail(s).value, at)
  {
    rc, url := 0, init;
    if s == "" {
      return;
    }
    if s[0] != '/' {
      rc := -1;
      return;
    }
    var count := Span(s, {'?'});
    url := url.(path := Some(Slice(at, count)));
    if count < |s| && s[count] == '?' {
      url := url.(query := Some(Slice(at + count + 1, |s| - count - 1)));
    }
  }

  // ---------- what a reading means ----------

  predicate Inside(u: string, o: Option<Slice>) {
    o.Some? ==> o.value.start + o.value.len <= |u|
  }

  function Cut(u: string, o: Option<Slice>): Option<string>
    requires Inside(u, o)
  {
    if o.Some? then Some(u[o.value.start..o.value.start + o.value.len]) else None
  }

  predicate Before(a: Option<Slice>, b: Option<Slice>) {
    a.Some? && b.Some? ==> a.value.start + a.value.len <= b.value.start
  }

  /** The slices of an accepted URL are in order and disjoint, and hold exactly
      the texts that rebuild the string together with separators and port text. */
  lemma SlicesRebuild(u: string, q: Parts, port: nat)
    requires Reads(u, q, port)
    ensures var x := Located(q, port);
      && Inside(u, x.scheme) && Inside(u, x.host) && Inside(u, x.path) && Inside(u, x.query)
      && Before(x.scheme, x.host) && Before(x.scheme, x.path) && Before(x.host, x.path) && Before(x.path, x.query)
      && u == Print(Parts(Cut(u, x.scheme), Cut(u, x.host), q.port, Cut(u, x.path), Cut(u, x.query)))
  {
    CutScheme(q, port);
    CutHost(q, port);
    CutPath(q, port);
    CutQuery(q, port);
  }

  lemma CutScheme(q: Parts, port: nat)
    ensures var u, x := Print(q), Located(q, port); Inside(u, x.scheme) && Cut(u, x.scheme) == q.scheme
  {
    if q.scheme.Some? {
      var a := q.scheme.value;
      assert (a + "://" + AfterScheme(q))[0..|a|] == a;
    }
  }

  lemma CutHost(q: Parts, port: nat)
    ensures var u, x := Print(q), Located(q, port); Inside(u, x.host) && Cut(u, x.host) == q.host
  {
    var a, h, t := SchemeText(q), Text(q.host), AfterHost(q);
    assert a + (h + t) == a + h + t;
    Middle(a, h, t);
  }

  lemma CutPath(q: Parts, port: nat)
    ensures var u, x := Print(q), Located(q, port); Inside(u, x.path) && Cut(u, x.path) == q.path
  {
    Flatten(SchemeText(q), Text(q.host), PortText(q), Text(q.path), QueryText(q));
    Middle(SchemeText(q) + Text(q.host) + PortText(q), Text(q.path), QueryText(q));
  }

  lemma CutQuery(q: Parts, port: nat)
    ensures var u, x := Print(q), Located(q, port); Inside(u, x.query) && Cut(u, x.query) == q.query
  {
    if q.query.Some? {
      var front := SchemeText(q) + Text(q.host) + PortText(q) + Text(q.path);
      Flatten(SchemeText(q), Text(q.host), PortText(q), Text(q.path), QueryText(q));
      assert front + QueryText(q) == front + "?" + q.query.value + "";
      Middle(front + "?", q.query.value, "");
    }
  }

  lemma Flatten(a: string, b: string, c: string, d: string, e: string)
    ensures a + (b + (c + (d + e))) == a + b + c + d + e
  {
    assert c + (d + e) == c + d + e;
    assert b + (c + d + e) == b + c + d + e;
    assert a + (b + c + d + e) == a + b + c + d + e;
  }

  lemma Middle(a: string, b: string, c: string)
    ensures |a| + |b| <= |a + b + c| && (a + b + c)[|a|..|a| + |b|] == b
  {
  }

  /** Printing and parsing. A URL is read back as it was printed, except exactly
      when it has neither scheme nor port and its path and query begin like a scheme. */
  lemma RoundTrip(q: Parts, port: nat)
    requires q.scheme.Some? ==> Free(q.scheme.value, {':'})
    requires HostOk(q) && TailOk(q)
    requires q.port == (if port == 0 then None else Some(DecText(port))) && port <= 0xffff
    requires port > 0 ==> q.host.Some?
    ensures Reads(Print(q), q, port) <==> q.scheme.Some? || port > 0 || !HasScheme(Tail(q))
  {
    if port > 0 {
      StrToLOfDecText(port, Tail(q));
    }
    if q.scheme.None? {
      BeginsLikeScheme(Text(q.host), AfterHost(q));
      if port > 0 {
        NumberIsNoScheme(port, Tail(q));
      } else {
        assert AfterHost(q) == Tail(q);
      }
    }
  }

  lemma NumberIsNoScheme(port: nat, tail: string)
    ensures !HasScheme(":" + DecText(port) + tail)
  {
    var s := ":" + DecText(port) + tail;
    assert s[1] == DecText(port)[0];
    assert |s| >= 3 ==> s[0..3][1] == s[1];
  }

  lemma {:induction false} SpanAfter(a: string, b: string)
    requires Free(a, {':'})
    ensures Span(a + b, {':'}) == |a| + Span(b, {':'})
  {
    if a == "" {
      assert a + b == b;
    } else {
      assert (a + b)[1..] == a[1..] + b;
      SpanAfter(a[1..], b);
    }
  }

  lemma BeginsLikeScheme(a: string, b: string)
    requires Free(a, {':'})
    ensures HasScheme(a + b) <==> HasScheme(b)
  {
    SpanAfter(a, b);
    var k := Span(b, {':'});
    if k + 3 <= |b| {
      SliceAfter(a, b, k, k + 3);
    }
  }

  lemma SliceAfter(a: string, b: string, i: nat, j: nat)
    requires i <= j <= |b|
    ensures (a + b)[|a| + i..|a| + j] == b[i..j]
  {
  }

  /** A path that holds "://" is taken for a scheme if nothing stands before it. */
  lemma SchemelessPathIsMisread()
    ensures var q := Parts(None, None, None, Some("/a://b"), None);
      TailOk(q) && !Reads(Print(q), q, 0) && Reads(Print(q), Parts(Some("/a"), Some("b"), None, None, None), 0)
  {
    var q, r := Parts(None, None, None, Some("/a://b"), None), Parts(Some("/a"), Some("b"), None, None, None);
    assert Print(q) == Print(r) == "/a://b";
    SchemeAt("/a", "b");
    assert Tail(q) == "/a" + "://" + "b";
    RoundTrip(q, 0);
  }
}
