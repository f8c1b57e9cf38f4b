/**
 * Character-level helpers shared by the model: digits in base 10 and 16,
 * rendering of naturals as decimal and fixed-width hexadecimal text and
 * reading them back, and ASCII case folding.
 */
module Text {

  /** Value of a lower-case hexadecimal digit character, or -1 for any other character. */
  function DigitValue(c: char): int {
    if '0' <= c <= '9' then c as int - '0' as int
    else if 'a' <= c <= 'f' then c as int - 'a' as int + 10
    else -1
  }

  /** The lower-case digit character for `d`. */
  function DigitChar(d: nat): (c: char)
    requires d < 16
    ensures DigitValue(c) == d
  {
    if d < 10 then ('0' as int + d) as char else ('a' as int + d - 10) as char
  }

  /** A digit character is the character of its own value. */
  lemma DigitCharOfValue(c: char)
    requires 0 <= DigitValue(c) < 16
    ensures DigitChar(DigitValue(c)) == c
  {}

  predicate AllDigits(s: string, base: nat) {
    forall i :: 0 <= i < |s| ==> 0 <= DigitValue(s[i]) < base
  }

  /** The natural number a string of digits denotes, most significant digit first. */
  function ValueOf(s: string, base: nat): nat
    requires AllDigits(s, base)
  {
    if s == [] then 0 else ValueOf(s[..|s| - 1], base) * base + DigitValue(s[|s| - 1])
  }

  function Pow(b: nat, e: nat): (r: nat)
    requires b > 0
    ensures r > 0
  {
    if e == 0 then 1 else b * Pow(b, e - 1)
  }

  /** b^(m+n) = b^m * b^n. */
  lemma {:induction false} PowAdd(b: nat, m: nat, n: nat)
    requires b > 0
    ensures Pow(b, m + n) == Pow(b, m) * Pow(b, n)
  {
    if m > 0 {
      PowAdd(b, m - 1, n);
      assert Pow(b, m + n) == b * Pow(b, m - 1 + n);
    }
  }

  /** A string of `width` digits in base `base` denotes a number below base^width. */
  lemma {:induction false} ValueOfBound(s: string, base: nat)
    requires base > 0 && AllDigits(s, base)
    ensures ValueOf(s, base) < Pow(base, |s|)
  {
    if s != [] {
      var p := s[..|s| - 1];
      ValueOfBound(p, base);
      AppendDigitBound(ValueOf(p, base), DigitValue(s[|s| - 1]), base, Pow(base, |p|));
    }
  }

  /** Appending a digit to a number below `bound` gives one below `bound * base`. */
  lemma AppendDigitBound(v: nat, d: nat, base: nat, bound: nat)
    requires v < bound && d < base
    ensures v * base + d < base * bound
  {
    MulMono(v + 1, bound, base);
  }

  lemma MulMono(a: nat, b: nat, c: nat)
    requires a <= b
    ensures a * c <= b * c
  {}

  /** Decimal rendering without leading zeros, as Python's `str` of an int. */
  function Decimal(n: nat): (r: string)
    ensures |r| >= 1 && AllDigits(r, 10)
  {
    if n < 10 then [DigitChar(n)] else Decimal(n / 10) + [DigitChar(n % 10)]
  }

  /** Reading the decimal rendering back gives the number. */
  lemma {:induction false} DecimalRoundTrip(n: nat)
    ensures ValueOf(Decimal(n), 10) == n
  {
    var s := Decimal(n);
    if n < 10 {
      assert s[..0] == [];
    } else {
      DecimalRoundTrip(n / 10);
      assert s[..|s| - 1] == Decimal(n / 10);
    }
  }

  /** Decimal rendering is injective. */
  lemma DecimalInjective(a: nat, b: nat)
    requires Decimal(a) == Decimal(b)
    ensures a == b
  {
    DecimalRoundTrip(a);
    DecimalRoundTrip(b);
  }

  /**
   * Fixed-width, zero-padded rendering in base 10 or 16 (lower-case digits),
   * as Python's `'%04d'` or `'%032x'`.
   */
  function Fixed(n: nat, width: nat, base: nat): (r: string)
    requires (base == 10 || base == 16) && n < Pow(base, width)
    ensures |r| == width && AllDigits(r, base)
  {
    if width == 0 then []
    else
      DivBound(n, base, Pow(base, width - 1));
      Fixed(n / base, width - 1, base) + [DigitChar(n % base)]
  }

  /** Dropping the last digit of a number below b * p leaves one below p. */
  lemma DivBound(n: nat, b: nat, p: nat)
    requires b > 0 && n < b * p
    ensures n / b < p
  {}

  /** Reading a fixed-width rendering back gives the number. */
  lemma {:induction false} FixedRoundTrip(n: nat, width: nat, base: nat)
    requires (base == 10 || base == 16) && n < Pow(base, width)
    ensures ValueOf(Fixed(n, width, base), base) == n
  {
    if width > 0 {
      DivBound(n, base, Pow(base, width - 1));
      var q, d := n / base, n % base;
      FixedRoundTrip(q, width - 1, base);
      var p := Fixed(q, width - 1, base);
      var s := Fixed(n, width, base);
      assert s == p + [DigitChar(d)];
      assert s[..|s| - 1] == p && DigitValue(s[|s| - 1]) == d;
      DivMod(n, base);
    }
  }

  /** Dividing `q * b + d` by `b` gives back `q` and the digit `d`. */
  lemma DivModOf(q: nat, d: nat, b: nat)
    requires (b == 10 || b == 16) && d < b
    ensures (q * b + d) / b == q && (q * b + d) % b == d
  {
    if b == 10 {
      assert (q * 10 + d) / 10 == q;
    } else {
      assert (q * 16 + d) / 16 == q;
    }
  }

  /** Euclid's division. */
  lemma DivMod(n: nat, b: nat)
    requires b > 0
    ensures n == (n / b) * b + n % b
  {}

  /** A string of digits is the fixed-width rendering of its own value. */
  lemma {:induction false} FixedOfValue(s: string, base: nat)
    requires (base == 10 || base == 16) && AllDigits(s, base)
    ensures ValueOf(s, base) < Pow(base, |s|)
    ensures Fixed(ValueOf(s, base), |s|, base) == s
  {
    ValueOfBound(s, base);
    if s != [] {
      var p, c := s[..|s| - 1], s[|s| - 1];
      FixedOfValue(p, base);
      FixedAppend(ValueOf(s, base), ValueOf(p, base), DigitValue(c), |s|, base);
      DigitCharOfValue(c);
      SplitLast(s);
    }
  }

  /** A non-empty string is its prefix followed by its last character. */
  lemma SplitLast(s: string)
    requires s != []
    ensures s == s[..|s| - 1] + [s[|s| - 1]]
  {}

  /** Appending digit `d` to `q` appends its character to the fixed-width rendering. */
  lemma FixedAppend(n: nat, q: nat, d: nat, width: nat, base: nat)
    requires (base == 10 || base == 16) && width > 0 && d < base && q < Pow(base, width - 1)
    requires n == q * base + d
    ensures n < Pow(base, width)
    ensures Fixed(n, width, base) == Fixed(q, width - 1, base) + [DigitChar(d)]
  {
    AppendDigitBound(q, d, base, Pow(base, width - 1));
    DivModOf(q, d, base);
  }

  /** ASCII lower-casing of one character. */
  function LowerChar(c: char): char {
    if 'A' <= c <= 'Z' then (c as int - 'A' as int + 'a' as int) as char else c
  }

  /** ASCII lower-casing; every other character is kept. */
  function LowerAscii(s: string): (r: string)
    ensures |r| == |s| && forall i :: 0 <= i < |s| ==> r[i] == LowerChar(s[i])
  {
    if s == [] then [] else [LowerChar(s[0])] + LowerAscii(s[1..])
  }

  /** The last occurrence is the one with no occurrence after it. */
  lemma LastIndexOfUnique(s: string, c: char, k: nat)
    requires k < |s| && s[k] == c
    requires forall j :: k < j < |s| ==> s[j] != c
    ensures LastIndexOf(s, c) == k
  {}

  /** Lower-casing twice is lower-casing once. */
  lemma LowerAsciiIdempotent(s: string)
    ensures LowerAscii(LowerAscii(s)) == LowerAscii(s)
  {
    var once := LowerAscii(s);
    assert forall i :: 0 <= i < |s| ==> LowerChar(once[i]) == once[i];
  }

  /** Lower-casing brings in no character that is not a letter already absent. */
  lemma LowerKeepsAbsent(s: string, c: char)
    requires c !in s && !('a' <= c <= 'z')
    ensures c !in LowerAscii(s)
  {
    var r := LowerAscii(s);
    forall j | 0 <= j < |r| ensures r[j] != c {
      assert r[j] == LowerChar(s[j]) && s[j] != c;
    }
  }

  /** Lower-casing keeps a non-blank character non-blank. */
  lemma LowerCharKeepsSpace(c: char)
    requires !IsSpace(c)
    ensures !IsSpace(LowerChar(c))
  {}

  /** Case-insensitive equality, as SQL's `iexact` on ASCII text. */
  predicate EqualsIgnoreCase(a: string, b: string) {
    LowerAscii(a) == LowerAscii(b)
  }

  /**
   * The ASCII characters for which Python's `str.isspace()` holds: space,
   * tab, line feed, vertical tab, form feed, carriage return and the four
   * information separators 0x1C-0x1F.
   */
  predicate IsSpace(c: char) {
    c == ' ' || c == '\t' || c == '\n' || c == '\r' || c == '\U{B}' || c == '\U{C}'
    || c == '\U{1C}' || c == '\U{1D}' || c == '\U{1E}' || c == '\U{1F}'
  }

  /** Python's `str.strip()` restricted to ASCII whitespace (`IsSpace`). */
  function Strip(s: string): (r: string)
    ensures |r| <= |s|
    ensures forall c :: c in r ==> c in s
    ensures forall c :: c in s && !IsSpace(c) ==> c in r
    ensures r != [] ==> !IsSpace(r[0]) && !IsSpace(r[|r| - 1])
    ensures s != [] && !IsSpace(s[0]) && !IsSpace(s[|s| - 1]) ==> r == s
  {
    if s != [] && IsSpace(s[0]) then Strip(s[1..])
    else if s != [] && IsSpace(s[|s| - 1]) then
      var r := Strip(s[..|s| - 1]);
      assert forall c :: c in s && !IsSpace(c) ==> c in s[..|s| - 1];
      r
    else s
  }

  /** Index of the last occurrence of `c` in `s`, or -1. */
  function LastIndexOf(s: string, c: char): (r: int)
    ensures -1 <= r < |s|
    ensures r >= 0 ==> s[r] == c && forall j :: r < j < |s| ==> s[j] != c
    ensures r == -1 ==> c !in s
  {
    if s == [] then -1
    else if s[|s| - 1] == c then |s| - 1
    else LastIndexOf(s[..|s| - 1], c)
  }
}
