/** The C library's view of text: bytes, case-insensitive comparison, numbers. */
module CText {
  import opened Options

  type byte = x: int | 0 <= x < 256

  const UV_EINVAL := -22

  function Pow2(k: nat): nat {
    if k == 0 then 1 else 2 * Pow2(k - 1)
  }

  /** Bytes read as one number, the most significant first. */
  function Number(s: seq<byte>): nat {
    if s == [] then 0 else Number(s[..|s| - 1]) * 256 + s[|s| - 1]
  }

  /** memcpy of `data` to position `at`. */
  method Memcpy(buf: array<byte>, at: nat, data: seq<byte>)
    requires at + |data| <= buf.Length
    modifies buf
    ensures buf[..at] == old(buf[..at]) && buf[at..at + |data|] == data && buf[at + |data|..] == old(buf[at + |data|..])
  {
    forall i | 0 <= i < |data| {
      buf[at + i] := data[i];
    }
  }

  function LowerChar(ch: char): char {
    if 'A' <= ch <= 'Z' then ch - 'A' + 'a' else ch
  }

  /** Two strings are equal to strcasecmp exactly if their lower-case forms are equal. */
  function Lower(s: string): string {
    if s == "" then "" else [LowerChar(s[0])] + Lower(s[1..])
  }

  /** Equal, or the upper- and lower-case form of one letter; the two forms are 32 code points apart. */
  predicate SameLetter(a: char, b: char) {
    || a == b
    || (65 <= a as int <= 90 && b as int == a as int + 32)
    || (65 <= b as int <= 90 && a as int == b as int + 32)
  }

  /** strcasecmp finds no difference. */
  predicate SameText(s: string, t: string) {
    |s| == |t| && forall i :: 0 <= i < |s| ==> SameLetter(s[i], t[i])
  }

  /** Folding to lower case identifies exactly what strcasecmp does. */
  lemma {:induction false} LowerIsSameText(s: string, t: string)
    ensures Lower(s) == Lower(t) <==> SameText(s, t)
  {
    LowerLength(s);
    LowerLength(t);
    if s != "" && t != "" {
      LowerIsSameText(s[1..], t[1..]);
      assert Lower(s)[1..] == Lower(s[1..]) && Lower(t)[1..] == Lower(t[1..]);
      assert Lower(s) == Lower(t) <==> LowerChar(s[0]) == LowerChar(t[0]) && Lower(s[1..]) == Lower(t[1..]);
      SameTextSplits(s, t);
    }
  }

  lemma {:induction false} LowerLength(s: string)
    ensures |Lower(s)| == |s|
  {
    if s != "" {
      LowerLength(s[1..]);
    }
  }

  lemma SameTextSplits(s: string, t: string)
    requires s != "" && t != ""
    ensures SameText(s, t) <==> SameLetter(s[0], t[0]) && SameText(s[1..], t[1..])
  {
    if SameLetter(s[0], t[0]) && SameText(s[1..], t[1..]) {
      forall i | 0 <= i < |s| ensures SameLetter(s[i], t[i]) {
        if i > 0 {
          assert SameLetter(s[1..][i - 1], t[1..][i - 1]);
        }
      }
    }
    if SameText(s, t) {
      forall i | 0 <= i < |s| - 1 ensures SameLetter(s[1..][i], t[1..][i]) {
        assert SameLetter(s[i + 1], t[i + 1]);
      }
    }
  }

  /** A text without capital letters is its own lower-case form. */
  lemma {:induction false} LowerOfLower(s: string)
    requires NoCapitals(s)
    ensures Lower(s) == s
  {
    if s != "" {
      LowerOfLower(s[1..]);
    }
  }

  predicate NoCapitals(s: string) {
    forall i :: 0 <= i < |s| ==> !(65 <= s[i] as int <= 90)
  }

  /** Comparing with a text through its lower-case form. */
  lemma SpelledAs(name: string, text: string, low: string)
    requires SameText(text, low) && NoCapitals(low)
    ensures Lower(name) == low <==> SameText(name, text)
  {
    LowerOfLower(low);
    LowerIsSameText(text, low);
    LowerIsSameText(name, text);
  }

  /** The value of a hexadecimal digit of either case. */
  function HexValue(b: byte): (v: Option<nat>)
    ensures v.Some? ==> v.value < 16
  {
    if '0' as int <= b <= '9' as int then Some(b - '0' as int)
    else if 'a' as int <= b <= 'f' as int then Some(b - 'a' as int + 10)
    else if 'A' as int <= b <= 'F' as int then Some(b - 'A' as int + 10)
    else None
  }

  // ---------- printing and reading numbers ----------

  datatype Base = Ten | Sixteen

  function Shift(n: nat, base: Base): nat {
    if base.Ten? then n * 10 else n * 16
  }

  function Upper(n: nat, base: Base): nat {
    if base.Ten? then n / 10 else n / 16
  }

  function Last(n: nat, base: Base): nat {
    if base.Ten? then n % 10 else n % 16
  }

  /** The digits of `n`, most significant first, as printf's %d and %x print them. */
  function Digits(n: nat, base: Base): (ds: seq<nat>)
    ensures |ds| > 0 && forall i :: 0 <= i < |ds| ==> ds[i] < Shift(1, base)
    ensures ds[0] == 0 ==> n == 0
  {
    if n < Shift(1, base) then [n] else Digits(Upper(n, base), base) + [Last(n, base)]
  }

  /** The number a sequence of digits stands for. */
  function Value(ds: seq<nat>, base: Base): nat {
    if ds == [] then 0 else Shift(Value(ds[..|ds| - 1], base), base) + ds[|ds| - 1]
  }

  lemma {:induction false} ValueOfDigits(n: nat, base: Base)
    ensures Value(Digits(n, base), base) == n
  {
    var ds := Digits(n, base);
    if n >= Shift(1, base) {
      ValueOfDigits(Upper(n, base), base);
      assert ds[..|ds| - 1] == Digits(Upper(n, base), base);
    } else {
      assert ds[..0] == [];
    }
  }

  function Power(base: Base, k: nat): nat {
    if k == 0 then 1 else Shift(Power(base, k - 1), base)
  }

  /** The number of digits measures the number. */
  lemma {:induction false} DigitCount(n: nat, base: Base, k: nat)
    requires k > 0
    ensures |Digits(n, base)| <= k <==> n < Power(base, k)
  {
    if k == 1 {
      assert Power(base, 1) == Shift(Power(base, 0), base);
    } else if n >= Shift(1, base) {
      DigitCount(Upper(n, base), base, k - 1);
    } else {
      DigitCount(n, base, k - 1);
    }
  }

  // ---------- strtol ----------

  datatype Long = Long(value: int, end: nat)

  predicate IsSpace(ch: char) {
    ch == ' ' || '\t' <= ch <= '\r'
  }

  predicate IsDigit(ch: char) {
    '0' <= ch <= '9'
  }

  function Spaces(s: string): (n: nat)
    ensures n <= |s|
  {
    if s == "" || !IsSpace(s[0]) then 0 else 1 + Spaces(s[1..])
  }

  /** The digits from position `i` on, appended to the number `v`. */
  function Accumulate(s: string, i: nat, v: nat): (r: Long)
    requires i <= |s|
    ensures i <= r.end <= |s| && r.value >= 0
    decreases |s| - i
  {
    if i < |s| && IsDigit(s[i]) then Accumulate(s, i + 1, 10 * v + (s[i] as int - '0' as int)) else Long(v, i)
  }

  const LONG_MAX := 0x7FFF_FFFF_FFFF_FFFF

  function Clamp(v: int): int {
    if v > LONG_MAX then LONG_MAX else if v < -LONG_MAX - 1 then -LONG_MAX - 1 else v
  }

  /** strtol in base ten: the number and the position after it, or no digits and position zero. */
  function StrToL(s: string): (r: Long)
    ensures r.end <= |s|
  {
    var i := Spaces(s);
    var signed := i < |s| && (s[i] == '+' || s[i] == '-');
    var start := if signed then i + 1 else i;
    var n := Accumulate(s, start, 0);
    if n.end == start then Long(0, 0)
    else Long(Clamp(if signed && s[i] == '-' then -n.value else n.value), n.end)
  }

  function DecText(n: nat): string {
    var ds := Digits(n, Ten);
    seq(|ds|, i requires 0 <= i < |ds| => '0' + ds[i] as char)
  }

  /** Reading digits that are followed by something else gives their value. */
  lemma {:induction false} AccumulateDigits(ds: seq<nat>, t: string, s: string, i: nat)
    requires |ds| == |t| && i <= |t|
    requires forall k :: 0 <= k < |t| ==> ds[k] < 10 && t[k] == '0' + ds[k] as char
    requires s != "" ==> !IsDigit(s[0])
    ensures Accumulate(t + s, i, Value(ds[..i], Ten)) == Long(Value(ds, Ten), |t|)
    decreases |t| - i
  {
    if i < |t| {
      assert (t + s)[i] == t[i];
      assert ds[..i + 1][..i] == ds[..i];
      assert Value(ds[..i + 1], Ten) == 10 * Value(ds[..i], Ten) + ds[i];
      AccumulateDigits(ds, t, s, i + 1);
    } else {
      assert ds[..i] == ds;
    }
  }

  lemma {:induction false} SpacesOf(sp: string, t: string)
    requires forall i :: 0 <= i < |sp| ==> sp[i] in {' ', '\t', '\n', 11 as char, 12 as char, '\r'}
    requires t != "" && !(t[0] as int == 32 || 9 <= t[0] as int <= 13)
    ensures Spaces(sp + t) == |sp|
  {
    if sp == "" {
      assert sp + t == t;
    } else {
      assert (sp + t)[1..] == sp[1..] + t;
      SpacesOf(sp[1..], t);
    }
  }

  lemma {:induction false} AccumulateAfter(a: string, b: string, i: nat, v: nat)
    requires i <= |b|
    ensures Accumulate(a + b, |a| + i, v) == var r := Accumulate(b, i, v); Long(r.value, |a| + r.end)
    decreases |b| - i
  {
    if i < |b| {
      assert (a + b)[|a| + i] == b[i];
      if IsDigit(b[i]) {
        AccumulateAfter(a, b, i + 1, 10 * v + (b[i] as int - '0' as int));
      }
    }
  }

  /** What strtol skips before a number that starts with a digit. */
  lemma StrToLSkips(sp: string, sign: string, b: string)
    requires forall i :: 0 <= i < |sp| ==> sp[i] in {' ', '\t', '\n', 11 as char, 12 as char, '\r'}
    requires sign in {"", "+", "-"} && b != "" && IsDigit(b[0])
    ensures StrToL(sp + (sign + b)) ==
      var r := Accumulate(b, 0, 0); Long(Clamp(if sign == "-" then -r.value else r.value), |sp| + |sign| + r.end)
  {
    var u := sign + b;
    assert u[0] == if sign == "" then b[0] else sign[0];
    SpacesOf(sp, u);
    assert (sp + u)[|sp|] == u[0];
    var front := sp + sign;
    assert sp + u == front + b;
    AccumulateAfter(front, b, 0, 0);
    assert Accumulate(b, 0, 0) == Accumulate(b, 1, b[0] as int - '0' as int);
  }

  lemma NumberStarts(n: nat, s: string)
    requires s != "" ==> !IsDigit(s[0])
    ensures var b := DecText(n) + s; b != "" && IsDigit(b[0]) && Accumulate(b, 0, 0) == Long(n, |DecText(n)|)
  {
    var t := DecText(n);
    ValueOfDigits(n, Ten);
    AccumulateDigits(Digits(n, Ten), t, s, 0);
    assert (t + s)[0] == t[0] && IsDigit(t[0]);
  }

  /** Blanks, an optional sign and digits, up to the first other character. */
  lemma StrToLReads(sp: string, sign: string, n: nat, s: string)
    requires forall i :: 0 <= i < |sp| ==> sp[i] in {' ', '\t', '\n', 11 as char, 12 as char, '\r'}
    requires sign in {"", "+", "-"} && (s != "" ==> !IsDigit(s[0]))
    ensures StrToL(sp + (sign + (DecText(n) + s))) ==
      Long(Clamp(if sign == "-" then 0 - n else n), |sp| + |sign| + |DecText(n)|)
    ensures StrToL(sp + (sign + (DecText(n) + s))).value ==
      if sign == "-" then (if n <= 0x8000_0000_0000_0000 then 0 - n else -0x8000_0000_0000_0000)
      else (if n < 0x8000_0000_0000_0000 then n else 0x7FFF_FFFF_FFFF_FFFF)
  {
    NumberStarts(n, s);
    StrToLSkips(sp, sign, DecText(n) + s);
  }

  /** Reading back a printed number. */
  lemma StrToLOfDecText(n: nat, s: string)
    requires s != "" ==> !IsDigit(s[0])
    ensures StrToL(DecText(n) + s) == Long(Clamp(n), |DecText(n)|)
  {
    StrToLReads("", "", n, s);
    assert "" + ("" + (DecText(n) + s)) == DecText(n) + s;
  }
}
