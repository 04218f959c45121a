/**
 The name of a calculated field carries a 32-bit rolling hash of its expression (infra/monitoring.ts).
 Strings are sequences of UTF-16 code units; Array.from pairs up surrogates, charCodeAt(0) keeps the first unit.
 */
module RollingHash {

  newtype CodeUnit = n: int | 0 <= n < 0x1_0000

  const TWO_32: int := 0x1_0000_0000
  const TWO_31: int := 0x8000_0000

  /** ToInt32 of a whole number. */
  function ToInt32(n: int): (r: int)
    ensures -TWO_31 <= r < TWO_31 && (r - n) % TWO_32 == 0
  {
    var m := n % TWO_32;
    if m >= TWO_31 then m - TWO_32 else m
  }

  /** n >>> 0 */
  function ToUint32(n: int): (r: int)
    ensures 0 <= r < TWO_32
  {
    n % TWO_32
  }

  /** Math.imul, section 21.3.2.19 of ECMA-262 (2023): multiply modulo 2^32, read as signed. */
  function Imul(a: int, b: int): int {
    ToInt32(ToUint32(a) * ToUint32(b))
  }

  predicate IsLead(u: CodeUnit) {
    0xD800 <= u <= 0xDBFF
  }

  predicate IsTrail(u: CodeUnit) {
    0xDC00 <= u <= 0xDFFF
  }

  /** The first code unit of every code point. */
  function FirstUnits(s: seq<CodeUnit>): seq<CodeUnit> {
    if s == [] then []
    else if |s| > 1 && IsLead(s[0]) && IsTrail(s[1]) then [s[0]] + FirstUnits(s[2..])
    else [s[0]] + FirstUnits(s[1..])
  }

  /** The reduce, as a loop over the characters; every intermediate stays in [-2^31, 2^31 + 65535). */
  method Reduce(chars: seq<CodeUnit>) returns (result: int)
    ensures result == Reduced(chars)
  {
    result := 0;
    for i := 0 to |chars|
      invariant result == Reduced(chars[..i])
      invariant -TWO_31 <= result < TWO_31 + 0xFFFF
    {
      assert chars[..i + 1][..i] == chars[..i];
      result := Imul(31, result) + chars[i] as int;
    }
    assert chars[..|chars|] == chars;
  }

  function Reduced(chars: seq<CodeUnit>): (r: int)
    ensures -TWO_31 <= r < TWO_31 + 0xFFFF
  {
    if chars == [] then 0 else Imul(31, Reduced(chars[..|chars| - 1])) + chars[|chars| - 1] as int
  }

  function Hash(expression: seq<CodeUnit>): int {
    ToUint32(Reduced(FirstUnits(expression)))
  }

  // ----- the polynomial -----

  function Power31(k: nat): nat {
    if k == 0 then 1 else 31 * Power31(k - 1)
  }

  /** The sum of chars[i] * 31^(n - 1 - i). */
  function Polynomial(chars: seq<CodeUnit>): nat {
    if chars == [] then 0 else chars[0] as int * Power31(|chars| - 1) + Polynomial(chars[1..])
  }

  /** One more character multiplies the sum by 31. */
  lemma {:induction false} PolynomialSnoc(chars: seq<CodeUnit>, c: CodeUnit)
    ensures Polynomial(chars + [c]) == 31 * Polynomial(chars) + c as int
  {
    if chars == [] {
      assert ([] + [c])[1..] == [];
      assert Power31(0) == 1;
    } else {
      assert (chars + [c])[1..] == chars[1..] + [c];
      PolynomialSnoc(chars[1..], c);
      var a, p := chars[0] as int, Power31(|chars| - 1);
      assert Power31(|chars|) == 31 * p;
      assert a * (31 * p) == 31 * (a * p);
    }
  }

  lemma RemainderIs(x: int, q: int, r: int)
    requires x == TWO_32 * q + r && 0 <= r < TWO_32
    ensures x % TWO_32 == r
  {
  }

  lemma AddMultiple(x: int, k: int)
    ensures (x + TWO_32 * k) % TWO_32 == x % TWO_32
  {
    RemainderIs(x + TWO_32 * k, x / TWO_32 + k, x % TWO_32);
  }

  lemma ToInt32Modulo(n: int)
    ensures ToInt32(n) % TWO_32 == n % TWO_32
  {
    var m := n % TWO_32;
    if m >= TWO_31 {
      AddMultiple(m, -1);
    }
  }

  lemma Times31Modulo(n: int)
    ensures (31 * (n % TWO_32)) % TWO_32 == (31 * n) % TWO_32
  {
    AddMultiple(31 * (n % TWO_32), 31 * (n / TWO_32));
  }

  lemma PlusModulo(a: int, b: int, c: int)
    requires a % TWO_32 == b % TWO_32
    ensures (a + c) % TWO_32 == (b + c) % TWO_32
  {
    AddMultiple(b + c, a / TWO_32 - b / TWO_32);
  }

  lemma ImulModulo(n: int)
    ensures Imul(31, n) % TWO_32 == (31 * n) % TWO_32
  {
    ToInt32Modulo(31 * (n % TWO_32));
    Times31Modulo(n);
  }

  lemma HornerModulo(r: int, p: int, c: int)
    requires r % TWO_32 == p % TWO_32
    ensures (Imul(31, r) + c) % TWO_32 == (31 * p + c) % TWO_32
  {
    ImulModulo(r);
    Times31Modulo(r);
    Times31Modulo(p);
    PlusModulo(Imul(31, r), 31 * p, c);
  }

  /** Signed wrap-around in every step, one unsigned shift at the end: the polynomial modulo 2^32. */
  lemma {:induction false} ReducedIsPolynomial(chars: seq<CodeUnit>)
    ensures Reduced(chars) % TWO_32 == Polynomial(chars) % TWO_32
  {
    if chars != [] {
      var before, c := chars[..|chars| - 1], chars[|chars| - 1];
      ReducedIsPolynomial(before);
      PolynomialSnoc(before, c);
      assert chars == before + [c];
      HornerModulo(Reduced(before), Polynomial(before), c as int);
    }
  }

  lemma HashIsPolynomial(expression: seq<CodeUnit>)
    ensures Hash(expression) == Polynomial(FirstUnits(expression)) % TWO_32
  {
    ReducedIsPolynomial(FirstUnits(expression));
  }

  /** Expressions that differ only in the trailing surrogate of a pair share a hash. */
  lemma {:induction false} TrailingSurrogatesAreIgnored(before: seq<CodeUnit>, lead: CodeUnit, trail: CodeUnit,
                                                         other: CodeUnit, after: seq<CodeUnit>)
    requires IsLead(lead) && IsTrail(trail) && IsTrail(other)
    ensures FirstUnits(before + [lead, trail] + after) == FirstUnits(before + [lead, other] + after)
    ensures Hash(before + [lead, trail] + after) == Hash(before + [lead, other] + after)
    decreases |before|
  {
    var s, t := before + [lead, trail] + after, before + [lead, other] + after;
    if before == [] {
      assert s[2..] == after && t[2..] == after;
    } else if |before| > 1 && IsLead(before[0]) && IsTrail(before[1]) {
      assert s[2..] == before[2..] + [lead, trail] + after && t[2..] == before[2..] + [lead, other] + after;
      TrailingSurrogatesAreIgnored(before[2..], lead, trail, other, after);
    } else {
      assert s[1..] == before[1..] + [lead, trail] + after && t[1..] == before[1..] + [lead, other] + after;
      TrailingSurrogatesAreIgnored(before[1..], lead, trail, other, after);
    }
  }
}
