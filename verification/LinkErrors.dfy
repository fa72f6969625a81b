/**
 Error codes that name the link they come from.

 A code is a negative 32-bit int; `-err` has the number of a link in its upper
 and that link's own code in its lower 16 bits. On a non-negative number,
 masking the upper bits is subtracting the remainder modulo 2^16, and or-ing a
 number below 2^16 with a multiple of 2^16 is adding the two.
 */
module LinkErrors {
  import opened Options

  const PREFIX_UNIT := 0x1_0000
  const UV_ERRNO_MAX := -4096  // libuv's lower end of its own error codes

  /** The prefix renumbering stores the next unsigned short, shifted by 16. */
  function NextPrefix(p: nat): (q: nat)
    ensures Shifted(q)
  {
    (p / PREFIX_UNIT % PREFIX_UNIT + 1) % PREFIX_UNIT * PREFIX_UNIT
  }

  /** A prefix leaves the lower 16 bits to the code. */
  predicate Shifted(p: nat) {
    p % PREFIX_UNIT == 0
  }

  function PrefixBits(x: nat): nat {
    x - x % PREFIX_UNIT
  }

  /** uv_link_error for a link with the given err_prefix. */
  function LinkError(prefix: nat, err: int): int {
    if err >= UV_ERRNO_MAX then err
    else if PrefixBits(-err) != 0 then err
    else -(-err + prefix)
  }

  /** What becomes of a code that is returned through further links, innermost first. */
  function Through(prefixes: seq<nat>, err: int): int {
    if prefixes == [] then err else Through(prefixes[1..], LinkError(prefixes[0], err))
  }

  /** The position of the link nearest to the end that has this prefix. */
  function FindPrefix(prefixes: seq<nat>, prefix: nat): (r: Option<nat>)
    ensures r.Some? ==> r.value < |prefixes| && prefixes[r.value] == prefix && prefix !in prefixes[r.value + 1..]
    ensures r.None? ==> prefix !in prefixes
  {
    if prefixes == [] then None
    else if prefixes[|prefixes| - 1] == prefix then Some(|prefixes| - 1)
    else
      assert prefixes == prefixes[..|prefixes| - 1] + [prefixes[|prefixes| - 1]];
      FindPrefix(prefixes[..|prefixes| - 1], prefix)
  }

  /** What one turn of the walk to the parent finds. */
  lemma FindStep(prefixes: seq<nat>, n: nat, prefix: nat)
    requires 0 < n <= |prefixes|
    ensures FindPrefix(prefixes[..n], prefix) ==
      if prefixes[n - 1] == prefix then Some(n - 1) else FindPrefix(prefixes[..n - 1], prefix)
  {
    assert prefixes[..n][..n - 1] == prefixes[..n - 1];
  }

  /** uv_link_errno asked at the last of the links whose prefixes, from the root on, are given. */
  function Resolve(prefixes: seq<nat>, err: int): (Option<nat>, int) {
    if err >= UV_ERRNO_MAX then (None, err)
    else
      match FindPrefix(prefixes, PrefixBits(-err))
      case Some(i) => (Some(i), -(-err % PREFIX_UNIT))
      case None => (None, err)
  }

  ghost predicate Consecutive(p: seq<nat>) {
    forall i, j :: 0 <= i < j < |p| && j == i + 1 ==> p[j] == NextPrefix(p[i])
  }

  lemma {:induction false} ConsecutiveAt(p: seq<nat>, i: nat)
    requires Consecutive(p) && i < |p| && p[0] % PREFIX_UNIT == 0 && p[0] / PREFIX_UNIT + |p| <= PREFIX_UNIT
    ensures p[i] == p[0] + i * PREFIX_UNIT
  {
    if i > 0 {
      ConsecutiveAt(p, i - 1);
      assert p[i] == NextPrefix(p[i - 1]);
    }
  }

  lemma {:induction false} PassesThrough(via: seq<nat>, err: int)
    requires err >= UV_ERRNO_MAX || PrefixBits(-err) != 0
    ensures Through(via, err) == err
  {
    if via != [] {
      PassesThrough(via[1..], err);
    }
  }

  /** A code raised by link `i` of a chain, and returned through any other links
      of any chain, is resolved from every descendant to link `i` and the
      original code. */
  lemma ResolvesToRaiser(p: seq<nat>, i: nat, j: nat, via: seq<nat>, err: int)
    requires Consecutive(p) && i <= j < |p|
    requires p[0] > 0 && p[0] % PREFIX_UNIT == 0 && p[0] / PREFIX_UNIT + |p| <= 0x8000
    requires -PREFIX_UNIT < err < UV_ERRNO_MAX
    ensures Resolve(p[..j + 1], Through(via, LinkError(p[i], err))) == (Some(i), err)
    ensures LinkError(p[i], err) > -0x8000_0000  // still an int
  {
    ConsecutiveAt(p, i);
    Packed(-err, p[i]);
    PassesThrough(via, LinkError(p[i], err));
    assert p[..j + 1][i] == p[i];
    ConsecutiveAt(p, FindPrefix(p[..j + 1], p[i]).value);
  }

  lemma Packed(code: nat, prefix: nat)
    requires 0 < code < PREFIX_UNIT && prefix % PREFIX_UNIT == 0
    ensures PrefixBits(code) == 0 && PrefixBits(code + prefix) == prefix && (code + prefix) % PREFIX_UNIT == code
  {
  }

  /** libuv's own codes are never touched, by any link, and belong to none. */
  lemma LibuvCodesPass(p: seq<nat>, via: seq<nat>, err: int)
    requires err >= UV_ERRNO_MAX
    ensures Resolve(p, Through(via, err)) == (None, err)
  {
    PassesThrough(via, err);
  }
}
