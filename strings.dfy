/**
 * The few JavaScript string operations the catalogue relies on: `String(n)`
 * for an integer, `String.prototype.includes`, `toLowerCase`, `trim` and
 * `Array.prototype.join`.
 */
module Strings {

  // ---------- integers as decimal text ----------

  function DigitChar(d: nat): (c: char)
    requires d < 10
    ensures '0' <= c <= '9'
  {
    "0123456789"[d]
  }

  function DigitValue(c: char): nat {
    if '0' <= c <= '9' then (c as int - '0' as int) as nat else 0
  }

  /** `String(n)` for a non-negative integer: its shortest decimal digits. */
  function NatToString(n: nat): (s: string)
    ensures |s| >= 1
    ensures forall k :: 0 <= k < |s| ==> '0' <= s[k] <= '9'
  {
    if n < 10 then [DigitChar(n)] else NatToString(n / 10) + [DigitChar(n % 10)]
  }

  /** `String(i)` for an integer-valued number: a minus sign for negatives. */
  function IntToString(i: int): string {
    if i < 0 then "-" + NatToString(-i) else NatToString(i)
  }

  /** Reads a string of decimal digits back. */
  function ParseNat(s: string): nat {
    if s == [] then 0 else ParseNat(s[..|s| - 1]) * 10 + DigitValue(s[|s| - 1])
  }

  /** Reads back what IntToString writes. */
  function ParseInt(s: string): int {
    var negative := |s| > 0 && s[0] == '-';
    var n: int := ParseNat(if negative then s[1..] else s);
    if negative then -n else n
  }

  lemma DigitRoundTrip(d: nat)
    requires d < 10
    ensures DigitValue(DigitChar(d)) == d
  {
  }

  lemma {:induction false} ParseNatToString(n: nat)
    ensures ParseNat(NatToString(n)) == n
  {
    if n < 10 {
      DigitRoundTrip(n);
      assert [DigitChar(n)][..0] == [];
    } else {
      var s := NatToString(n / 10);
      var t := s + [DigitChar(n % 10)];
      ParseNatToString(n / 10);
      DigitRoundTrip(n % 10);
      assert t[..|s|] == s;
      assert ParseNat(t) == ParseNat(s) * 10 + DigitValue(DigitChar(n % 10));
    }
  }

  /** A leading minus sign negates the digits after it. */
  lemma ParseIntMinus(t: string)
    ensures ParseInt("-" + t) == -(ParseNat(t) as int)
  {
    assert ("-" + t)[0] == '-';
    assert ("-" + t)[1..] == t;
  }

  lemma ParseNegativeText(n: nat)
    ensures ParseInt("-" + NatToString(n)) == -(n as int)
  {
    ParseNatToString(n);
    ParseIntMinus(NatToString(n));
  }

  /** Text that starts with a digit reads back as its digits. */
  lemma ParseIntDigits(t: string)
    requires |t| >= 1 && '0' <= t[0] <= '9'
    ensures ParseInt(t) == ParseNat(t)
  {
  }

  /** Decimal text is a faithful encoding of the integer. */
  lemma ParseIntToString(i: int)
    ensures ParseInt(IntToString(i)) == i
  {
    if i < 0 {
      ParseNegativeText(-i);
    } else {
      ParseNatToString(i);
      ParseIntDigits(NatToString(i));
    }
  }

  /** Different integers have different decimal texts. */
  lemma IntToStringInjective(i: int, j: int)
    requires IntToString(i) == IntToString(j)
    ensures i == j
  {
    ParseIntToString(i);
    ParseIntToString(j);
  }

  // ---------- Array.prototype.join ----------

  /** `parts.join(sep)`. */
  function Join(sep: string, parts: seq<string>): string {
    if parts == [] then ""
    else if |parts| == 1 then parts[0]
    else parts[0] + sep + Join(sep, parts[1..])
  }

  // ---------- String.prototype.includes ----------

  /** q occurs in s starting at index i. */
  ghost predicate OccursAt(s: string, q: string, i: int) {
    0 <= i && i + |q| <= |s| && s[i..i + |q|] == q
  }

  /** `s.includes(q)`, searching from the left. */
  function Contains(s: string, q: string): bool {
    if |q| <= |s| && s[..|q|] == q then true
    else if s == [] then false
    else Contains(s[1..], q)
  }

  /** The search finds q exactly when q occurs somewhere in s. */
  lemma {:induction false} ContainsSpec(s: string, q: string)
    ensures Contains(s, q) <==> exists i :: OccursAt(s, q, i)
  {
    if |q| <= |s| && s[..|q|] == q {
      assert OccursAt(s, q, 0);
    } else if s == [] {
    } else {
      ContainsSpec(s[1..], q);
      if exists i :: OccursAt(s[1..], q, i) {
        var i :| OccursAt(s[1..], q, i);
        assert s[i + 1..i + 1 + |q|] == s[1..][i..i + |q|];
        assert OccursAt(s, q, i + 1);
      }
      if exists i :: OccursAt(s, q, i) {
        var i :| OccursAt(s, q, i);
        assert i != 0;
        assert s[1..][i - 1..i - 1 + |q|] == s[i..i + |q|];
        assert OccursAt(s[1..], q, i - 1);
      }
    }
  }

  // ---------- toLowerCase (ASCII letters) ----------

  function LowerChar(c: char): char {
    if 'A' <= c <= 'Z' then (c as int + 32) as char else c
  }

  /** `s.toLowerCase()`, folding the ASCII capitals only. */
  function Lower(s: string): (r: string)
    ensures |r| == |s|
    ensures forall k :: 0 <= k < |s| ==> r[k] == LowerChar(s[k])
  {
    seq(|s|, k requires 0 <= k < |s| => LowerChar(s[k]))
  }

  // ---------- trim ----------

  /** The WhiteSpace and LineTerminator code points of ECMAScript. */
  predicate IsJsSpace(c: char) {
    c == '\t' || c == '\n' || c == '\U{B}' || c == '\U{C}' || c == '\r' || c == ' '
    || c == '\U{A0}' || c == '\U{1680}' || ('\U{2000}' <= c <= '\U{200A}')
    || c == '\U{2028}' || c == '\U{2029}' || c == '\U{202F}' || c == '\U{205F}'
    || c == '\U{3000}' || c == '\U{FEFF}'
  }

  function TrimStart(s: string): string {
    if s != [] && IsJsSpace(s[0]) then TrimStart(s[1..]) else s
  }

  function TrimEnd(s: string): string {
    if s != [] && IsJsSpace(s[|s| - 1]) then TrimEnd(s[..|s| - 1]) else s
  }

  /** `s.trim()`. */
  function Trim(s: string): string {
    TrimEnd(TrimStart(s))
  }

  lemma {:induction false} TrimStartSpec(s: string)
    ensures TrimStart(s) == [] <==> forall k :: 0 <= k < |s| ==> IsJsSpace(s[k])
    ensures TrimStart(s) != [] ==> !IsJsSpace(TrimStart(s)[0])
  {
    if s != [] && IsJsSpace(s[0]) {
      TrimStartSpec(s[1..]);
      assert forall k :: 1 <= k < |s| ==> s[k] == s[1..][k - 1];
    }
  }

  lemma {:induction false} TrimEndSpec(s: string)
    ensures TrimEnd(s) == [] <==> forall k :: 0 <= k < |s| ==> IsJsSpace(s[k])
    ensures TrimEnd(s) != [] ==> !IsJsSpace(TrimEnd(s)[|TrimEnd(s)| - 1])
  {
    if s != [] && IsJsSpace(s[|s| - 1]) {
      TrimEndSpec(s[..|s| - 1]);
    }
  }

  /** A string trims to "" exactly when it is all white space. */
  lemma TrimEmpty(s: string)
    ensures Trim(s) == [] <==> forall k :: 0 <= k < |s| ==> IsJsSpace(s[k])
  {
    TrimStartSpec(s);
    TrimEndSpec(TrimStart(s));
  }

  /** Lower-casing changes no white-space character, so it does not change what trims to "". */
  lemma LowerKeepsSpace(s: string)
    ensures Trim(Lower(s)) == [] <==> Trim(s) == []
  {
    TrimEmpty(s);
    TrimEmpty(Lower(s));
    forall k | 0 <= k < |s| ensures IsJsSpace(Lower(s)[k]) == IsJsSpace(s[k]) {
    }
  }
}
