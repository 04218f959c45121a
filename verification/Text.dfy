/**
 The string operations of the Python and JavaScript sources that the model needs: stripping, searching, lowering and
 decimal numerals. What counts as white space is what str.strip() removes and \s matches, and lowering covers the
 ASCII letters.
 */
module Text {

  /** The characters removed by str.strip() and matched by \s. */
  predicate IsSpace(c: char) {
    || '\U{0009}' <= c <= '\U{000D}'
    || '\U{001C}' <= c <= '\U{0020}'
    || c == '\U{0085}' || c == '\U{00A0}' || c == '\U{1680}'
    || '\U{2000}' <= c <= '\U{200A}'
    || c == '\U{2028}' || c == '\U{2029}' || c == '\U{202F}' || c == '\U{205F}' || c == '\U{3000}'
  }

  function StripLeft(s: string): string {
    if s != [] && IsSpace(s[0]) then StripLeft(s[1..]) else s
  }

  function StripRight(s: string): string {
    if s != [] && IsSpace(s[|s| - 1]) then StripRight(s[..|s| - 1]) else s
  }

  function Strip(s: string): string {
    StripRight(StripLeft(s))
  }

  lemma {:induction false} StripLeftSpec(s: string)
    ensures StripLeft(s) != [] ==> !IsSpace(StripLeft(s)[0])
  {
    if s != [] && IsSpace(s[0]) {
      StripLeftSpec(s[1..]);
    }
  }

  lemma {:induction false} StripRightSpec(s: string)
    ensures StripRight(s) <= s
    ensures StripRight(s) != [] ==> !IsSpace(StripRight(s)[|StripRight(s)| - 1])
  {
    if s != [] && IsSpace(s[|s| - 1]) {
      StripRightSpec(s[..|s| - 1]);
    }
  }

  lemma StripIdempotent(s: string)
    ensures Strip(Strip(s)) == Strip(s)
  {
    StripLeftSpec(s);
    StripRightSpec(StripLeft(s));
  }

  /** `word in s` */
  predicate Contains(s: string, word: string) {
    exists i | 0 <= i <= |s| :: StartsWith(s[i..], word)
  }

  predicate StartsWith(s: string, prefix: string) {
    |prefix| <= |s| && s[..|prefix|] == prefix
  }

  function LowerChar(c: char): char {
    if 'A' <= c <= 'Z' then c - 'A' + 'a' else c
  }

  /** str.lower() on the ASCII letters. */
  function Lower(s: string): (r: string)
    ensures |r| == |s|
    ensures forall i :: 0 <= i < |s| ==> r[i] == LowerChar(s[i])
  {
    seq(|s|, i requires 0 <= i < |s| => LowerChar(s[i]))
  }

  /** Decimal numerals, as in f"opt_{index}". */
  function Decimal(n: nat): (r: string)
    ensures r != []
    ensures forall i :: 0 <= i < |r| ==> '0' <= r[i] <= '9'
  {
    if n < 10 then [Digit(n)] else Decimal(n / 10) + [Digit(n % 10)]
  }

  function Digit(n: nat): (c: char)
    requires n < 10
    ensures '0' <= c <= '9'
    ensures c as int == '0' as int + n
  {
    (('0' as int) + n) as char
  }

  lemma {:induction false} DecimalInjective(m: nat, n: nat)
    requires Decimal(m) == Decimal(n)
    ensures m == n
  {
    var a, b := Decimal(m), Decimal(n);
    if m < 10 && n < 10 {
      assert a[0] == Digit(m) && b[0] == Digit(n);
    } else if m >= 10 && n >= 10 {
      assert a[|a| - 1] == Digit(m % 10) && b[|b| - 1] == Digit(n % 10);
      assert a[..|a| - 1] == Decimal(m / 10) && b[..|b| - 1] == Decimal(n / 10);
      DecimalInjective(m / 10, n / 10);
    }
  }

  // ----- what the operations do -----

  predicate AllSpace(s: string) {
    forall i :: 0 <= i < |s| ==> IsSpace(s[i])
  }

  lemma {:induction false} StripLeftCuts(s: string) returns (left: string)
    ensures s == left + StripLeft(s) && AllSpace(left)
  {
    if s != [] && IsSpace(s[0]) {
      left := StripLeftCuts(s[1..]);
      left := [s[0]] + left;
    } else {
      left := [];
    }
  }

  lemma {:induction false} StripRightCuts(s: string) returns (right: string)
    ensures s == StripRight(s) + right && AllSpace(right)
  {
    if s != [] && IsSpace(s[|s| - 1]) {
      right := StripRightCuts(s[..|s| - 1]);
      right := right + [s[|s| - 1]];
    } else {
      right := [];
    }
  }

  /** Stripping cuts off white space at both ends, and all of it. */
  lemma StripCuts(s: string) returns (left: string, right: string)
    ensures s == left + Strip(s) + right && AllSpace(left) && AllSpace(right)
    ensures Strip(s) != [] ==> !IsSpace(Strip(s)[0]) && !IsSpace(Strip(s)[|Strip(s)| - 1])
  {
    left := StripLeftCuts(s);
    right := StripRightCuts(StripLeft(s));
    StripLeftSpec(s);
    StripRightSpec(StripLeft(s));
  }

  lemma {:induction false} StripLeftIgnores(left: string, s: string)
    requires AllSpace(left)
    ensures StripLeft(left + s) == StripLeft(s)
  {
    if left == [] {
      assert left + s == s;
    } else {
      assert (left + s)[1..] == left[1..] + s;
      StripLeftIgnores(left[1..], s);
    }
  }

  lemma {:induction false} StripRightIgnores(s: string, right: string)
    requires AllSpace(right)
    ensures StripRight(s + right) == StripRight(s)
  {
    if right == [] {
      assert s + right == s;
    } else {
      var n := |right| - 1;
      assert (s + right)[..|s| + n] == s + right[..n];
      StripRightIgnores(s, right[..n]);
    }
  }

  /** White space around a text that is not blank does not count. */
  lemma StripIgnores(left: string, s: string, right: string)
    requires AllSpace(left) && AllSpace(right) && Strip(s) != []
    ensures Strip(left + s + right) == Strip(s)
  {
    var before, after := StripCuts(s);
    var core := Strip(s);
    assert left + s + right == (left + before) + (core + (after + right));
    StripLeftIgnores(left + before, core + (after + right));
    StripRightIgnores(core, after + right);
    assert StripLeft(core + (after + right)) == core + (after + right);
    assert StripRight(core) == core;
  }

  /** A word is in a text exactly when the text is the word with something before and after it. */
  lemma ContainsIff(s: string, word: string)
    ensures Contains(s, word) <==> exists before, after :: s == before + (word + after)
  {
    if Contains(s, word) {
      var i :| 0 <= i <= |s| && StartsWith(s[i..], word);
      assert s == s[..i] + (word + s[i..][|word|..]);
    }
    if before, after :| s == before + (word + after) {
      assert s[|before|..] == word + after;
      assert StartsWith(s[|before|..], word);
    }
  }

  /** Lowering changes just the 26 capitals, each to the letter 32 places on. */
  lemma LowerMaps(s: string, i: nat)
    requires i < |s|
    ensures 'A' <= s[i] <= 'Z' ==> Lower(s)[i] as int == s[i] as int + 32
    ensures !('A' <= s[i] <= 'Z') ==> Lower(s)[i] == s[i]
  {
  }

  lemma LowerAppend(a: string, b: string)
    ensures Lower(a + b) == Lower(a) + Lower(b)
  {
  }
}
