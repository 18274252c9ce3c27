/**
 * The two pieces of string handling the server relies on: JavaScript's
 * `String.prototype.split` with a one-character separator, and the decimal
 * rendering of natural numbers used inside session tokens.
 */
module Text {

  import opened Wrappers

  /** Index of the first `d` in `s`, or `|s|` when there is none. */
  function IndexOf(s: string, d: char): (i: nat)
    ensures i <= |s|
    ensures i < |s| ==> s[i] == d
    ensures forall j :: 0 <= j < i ==> s[j] != d
  {
    if s == [] then 0
    else if s[0] == d then 0
    else 1 + IndexOf(s[1..], d)
  }

  /** `parts.join(d)`. */
  function Join(parts: seq<string>, d: char): string
  {
    if parts == [] then ""
    else if |parts| == 1 then parts[0]
    else parts[0] + [d] + Join(parts[1..], d)
  }

  /**
   * `s.split(d)` as JavaScript computes it: the pieces between successive
   * separators, so the result is never empty and an empty piece appears
   * wherever two separators meet or one stands at an end. The pieces hold
   * no separator and joining them restores `s`.
   */
  function Split(s: string, d: char): (parts: seq<string>)
    ensures |parts| >= 1
    ensures forall k :: 0 <= k < |parts| ==> d !in parts[k]
    ensures Join(parts, d) == s
    decreases |s|
  {
    var i := IndexOf(s, d);
    if i == |s| then
      assert d !in s by {
        forall j | 0 <= j < |s| ensures s[j] != d { }
      }
      [s]
    else
      var rest := Split(s[i + 1..], d);
      assert d !in s[..i] by {
        forall j | 0 <= j < i ensures s[..i][j] != d { }
      }
      assert ([s[..i]] + rest)[1..] == rest;
      assert s == s[..i] + [d] + s[i + 1..];
      [s[..i]] + rest
  }

  /** A string without the separator splits into itself alone. */
  lemma SplitWithout(s: string, d: char)
    requires d !in s
    ensures Split(s, d) == [s]
  {
  }

  /** A separator-free first piece is split off as it is. */
  lemma SplitFirst(a: string, d: char, b: string)
    requires d !in a
    ensures Split(a + [d] + b, d) == [a] + Split(b, d)
  {
    var s := a + [d] + b;
    var i := IndexOf(s, d);
    assert s[|a|] == d;
    assert i == |a|;
    assert s[..i] == a;
    assert s[i + 1..] == b;
  }

  /** Splitting a join of separator-free pieces gives the pieces back. */
  lemma {:induction false} SplitJoin(parts: seq<string>, d: char)
    requires |parts| >= 1
    requires forall k :: 0 <= k < |parts| ==> d !in parts[k]
    ensures Split(Join(parts, d), d) == parts
  {
    if |parts| == 1 {
      SplitWithout(parts[0], d);
    } else {
      SplitJoin(parts[1..], d);
      SplitFirst(parts[0], d, Join(parts[1..], d));
    }
  }

  /** A join holds no character other than the separator that its pieces lack. */
  lemma {:induction false} JoinWithout(parts: seq<string>, d: char, c: char)
    requires c != d
    requires forall k :: 0 <= k < |parts| ==> c !in parts[k]
    ensures c !in Join(parts, d)
    ensures |parts| >= 1 ==> |Join(parts, d)| >= |parts[0]| && Join(parts, d)[..|parts[0]|] == parts[0]
  {
    if |parts| > 1 {
      JoinWithout(parts[1..], d, c);
      assert Join(parts, d) == parts[0] + ([d] + Join(parts[1..], d));
    }
  }
  // ---------------------------------------------------------------------
  // Decimal rendering of natural numbers

  predicate IsDigit(c: char) { '0' <= c <= '9' }

  function DigitChar(n: nat): (c: char)
    requires n < 10
    ensures IsDigit(c)
  {
    ('0' as int + n) as char
  }

  function DigitValue(c: char): (n: nat)
    requires IsDigit(c)
    ensures n < 10
  {
    (c as int - '0' as int) as nat
  }

  /** The shortest decimal rendering of `n`, as `String(n)` produces it. */
  function Decimal(n: nat): (s: string)
    ensures |s| >= 1
    ensures forall k :: 0 <= k < |s| ==> IsDigit(s[k])
  {
    if n < 10 then [DigitChar(n)] else Decimal(n / 10) + [DigitChar(n % 10)]
  }

  predicate AllDigits(s: string)
  {
    forall k :: 0 <= k < |s| ==> IsDigit(s[k])
  }

  /** The value of a string of digits (the empty string counts as zero). */
  function DigitsValue(s: string): nat
    requires AllDigits(s)
  {
    if s == [] then 0 else DigitsValue(s[..|s| - 1]) * 10 + DigitValue(s[|s| - 1])
  }

  /** A decimal in canonical form: non-empty, digits only, no leading zero. */
  predicate Canonical(s: string)
  {
    |s| >= 1 && AllDigits(s) && (|s| > 1 ==> s[0] != '0')
  }

  /** Reads a canonical decimal; anything else is rejected. */
  function ParseDecimal(s: string): (r: Option<nat>)
    ensures r.Some? <==> Canonical(s)
  {
    if Canonical(s) then Some(DigitsValue(s)) else None
  }

  /** Every rendering is canonical and carries no separator of the token format. */
  lemma {:induction false} DecimalCanonical(n: nat)
    ensures Canonical(Decimal(n))
    ensures '.' !in Decimal(n) && ' ' !in Decimal(n)
  {
    if n >= 10 {
      DecimalCanonical(n / 10);
      assert Decimal(n)[0] == Decimal(n / 10)[0];
    }
    assert forall c | c in Decimal(n) :: IsDigit(c);
  }

  /** Reading a rendering gives the number back. */
  lemma {:induction false} ParseDecimalOfDecimal(n: nat)
    ensures ParseDecimal(Decimal(n)) == Some(n)
  {
    DecimalCanonical(n);
    DigitsValueOfDecimal(n);
  }

  lemma {:induction false} DigitsValueOfDecimal(n: nat)
    ensures DigitsValue(Decimal(n)) == n
  {
    var s := Decimal(n);
    if n < 10 {
      assert s[..|s| - 1] == [];
    } else {
      DigitsValueOfDecimal(n / 10);
      assert s[..|s| - 1] == Decimal(n / 10);
    }
  }

  /** A canonical decimal with a non-zero first digit has a positive value. */
  lemma {:induction false} LeadingDigitPositive(s: string)
    requires |s| >= 1 && AllDigits(s) && s[0] != '0'
    ensures DigitsValue(s) > 0
    decreases |s|
  {
    if |s| > 1 {
      LeadingDigitPositive(s[..|s| - 1]);
    }
  }

  /** A canonical decimal is the rendering of the number it reads as. */
  lemma {:induction false} DecimalOfDigitsValue(s: string)
    requires Canonical(s)
    ensures Decimal(DigitsValue(s)) == s
    decreases |s|
  {
    var n := DigitsValue(s);
    if |s| > 1 {
      var init := s[..|s| - 1];
      assert Canonical(init) by { assert init[0] == s[0]; }
      LeadingDigitPositive(init);
      DecimalOfDigitsValue(init);
      assert n / 10 == DigitsValue(init) && n % 10 == DigitValue(s[|s| - 1]);
      assert s == init + [s[|s| - 1]];
    }
  }

  /** Canonical decimals and natural numbers are in one-to-one correspondence. */
  lemma ParseDecimalExact(s: string, n: nat)
    ensures ParseDecimal(s) == Some(n) <==> s == Decimal(n)
  {
    if ParseDecimal(s) == Some(n) {
      DecimalOfDigitsValue(s);
    }
    if s == Decimal(n) {
      ParseDecimalOfDecimal(n);
    }
  }
}
