/** Positional numerals: the digits that printf.c writes and the value that stdlib.c reads. */
module Numerals {
  import opened Common
  import opened Bits

  /** 0..9 and then A..Z. */
  function DigitChar(d: nat): char
    requires d < 36
  {
    if d < 10 then '0' + d as char else 'A' + (d - 10) as char
  }

  /** The digits of `n`, least significant first; none for 0. */
  function Lsd(n: nat, radix: nat): seq<char>
    requires 2 <= radix <= 36
  {
    if n == 0 then []
    else
      DivShrinks(n, radix);
      [DigitChar(n % radix)] + Lsd(n / radix, radix)
  }

  function Reverse(s: seq<char>): (r: seq<char>)
    ensures |r| == |s|
    ensures forall i :: 0 <= i < |s| ==> r[i] == s[|s| - 1 - i]
  {
    if s == [] then [] else Reverse(s[1..]) + [s[0]]
  }

  /** The usual numeral of `n`. */
  function Numeral(n: nat, radix: nat): (s: seq<char>)
    requires 2 <= radix <= 36
    ensures |s| >= 1
  {
    if n == 0 then "0" else Reverse(Lsd(n, radix))
  }

  predicate IsDigit(c: char) { '0' <= c <= '9' }
  predicate IsUpper(c: char) { 'A' <= c <= 'Z' }
  predicate IsAlnum(c: char) { '0' <= c <= '9' || 'A' <= c <= 'Z' || 'a' <= c <= 'z' }

  /** The value of an alphanumeric character as a digit. */
  function CharValue(c: char): (v: nat)
    requires IsAlnum(c)
    ensures v < 36
  {
    if IsDigit(c) then (c - '0') as int else if IsUpper(c) then (c - 'A') as int + 10 else (c - 'a') as int + 10
  }

  predicate DigitOf(c: char, base: nat) { IsAlnum(c) && CharValue(c) < base }

  predicate AllDigits(s: seq<char>, base: nat) { forall i :: 0 <= i < |s| ==> DigitOf(s[i], base) }

  function Value(s: seq<char>, base: nat): nat
    requires AllDigits(s, base)
  {
    if s == [] then 0 else Value(s[..|s| - 1], base) * base + CharValue(s[|s| - 1])
  }

  lemma ValueSnoc(s: seq<char>, c: char, base: nat)
    requires AllDigits(s, base) && DigitOf(c, base)
    ensures AllDigits(s + [c], base) && Value(s + [c], base) == Value(s, base) * base + CharValue(c)
  {
    assert (s + [c])[..|s|] == s;
  }

  lemma DigitCharValue(d: nat)
    requires d < 36
    ensures IsAlnum(DigitChar(d)) && CharValue(DigitChar(d)) == d && !('a' <= DigitChar(d) <= 'z')
  {
  }

  /** Reading a numeral gives back the number. */
  lemma {:induction false} NumeralValue(n: nat, radix: nat)
    requires 2 <= radix <= 36
    ensures AllDigits(Numeral(n, radix), radix) && Value(Numeral(n, radix), radix) == n
  {
    if n == 0 {
      assert Value("0"[..0], radix) == 0;
    } else {
      LsdValue(n, radix);
    }
  }

  lemma {:induction false} LsdValue(n: nat, radix: nat)
    requires 2 <= radix <= 36
    ensures var s := Reverse(Lsd(n, radix));
            AllDigits(s, radix) && Value(s, radix) == n
  {
    if n > 0 {
      DivShrinks(n, radix);
      var q, d := n / radix, n % radix;
      LsdValue(q, radix);
      LsdStep(n, radix, q, d);
      DigitCharValue(d);
      ValueSnoc(Reverse(Lsd(q, radix)), DigitChar(d), radix);
    }
  }

  lemma LsdStep(n: nat, radix: nat, q: nat, d: nat)
    requires 2 <= radix <= 36 && n > 0 && q == n / radix && d == n % radix
    ensures d < 36 && Reverse(Lsd(n, radix)) == Reverse(Lsd(q, radix)) + [DigitChar(d)]
  {
    var s := Lsd(n, radix);
    assert s[0] == DigitChar(d) && s[1..] == Lsd(q, radix);
  }

  /** The numeral of a positive number does not begin with 0. */
  lemma {:induction false} NoLeadingZero(n: nat, radix: nat)
    requires 2 <= radix <= 36 && n > 0
    ensures Lsd(n, radix) != [] && Lsd(n, radix)[|Lsd(n, radix)| - 1] != '0' && Numeral(n, radix)[0] != '0'
  {
    DivShrinks(n, radix);
    var q := n / radix;
    var d := LsdHead(n, radix, q);
    if q > 0 { NoLeadingZero(q, radix); } else { SmallQuotient(n, radix); }
  }

  lemma SmallQuotient(n: nat, radix: nat)
    requires 2 <= radix <= 36 && n > 0 && n / radix == 0
    ensures Lsd(n, radix) == [DigitChar(n)] && n < radix && DigitChar(n) != '0'
  {
    DivShrinks(n, radix);
    var q := n / radix;
    assert n % radix == n && Lsd(q, radix) == [];
  }

  /** Numerals use no lower-case letter and no NUL. */
  lemma {:induction false} LsdChars(n: nat, radix: nat)
    requires 2 <= radix <= 36
    ensures forall i :: 0 <= i < |Lsd(n, radix)| ==> '0' <= Lsd(n, radix)[i] <= 'Z'
  {
    if n > 0 {
      DivShrinks(n, radix);
      var q := n / radix;
      LsdChars(q, radix);
      var d := LsdHead(n, radix, q);
    }
  }

  lemma NumeralChars(n: nat, radix: nat)
    requires 2 <= radix <= 36
    ensures forall i :: 0 <= i < |Numeral(n, radix)| ==> '0' <= Numeral(n, radix)[i] <= 'Z'
  {
    LsdChars(n, radix);
  }

  lemma DivShrinks(n: nat, radix: nat)
    requires radix >= 2
    ensures n / radix <= n / 2 && n == n / radix * radix + n % radix
  {
    var q := n / radix;
    assert q * radix >= q * 2;
  }

  /** A 32-bit number has at most 32 digits. */
  lemma {:induction false} LsdLength(n: nat, radix: nat, k: nat)
    requires 2 <= radix <= 36 && n < Pow2(k)
    ensures |Lsd(n, radix)| <= k
  {
    if n > 0 {
      DivShrinks(n, radix);
      var q := n / radix;
      HalfBelow(n, q, Pow2(k - 1));
      LsdLength(q, radix, k - 1);
      var d := LsdHead(n, radix, q);
    }
  }

  /** One digit, and the digits of the quotient. */
  lemma LsdHead(n: nat, radix: nat, q: nat) returns (d: nat)
    requires 2 <= radix <= 36 && n > 0 && q == n / radix
    ensures d < 36 && Lsd(n, radix) == [DigitChar(d)] + Lsd(q, radix)
  {
    d := n % radix;
  }

  lemma HalfBelow(n: nat, q: nat, p: nat)
    requires q <= n / 2 && n < 2 * p
    ensures q < p
  {
  }

  lemma WordLength(n: nat, radix: nat)
    requires 2 <= radix <= 36 && n < TWO_32
    ensures |Lsd(n, radix)| <= 32 && |Numeral(n, radix)| <= 32
  {
    Pow2Of32();
    LsdLength(n, radix, 32);
  }

  /** Leading zeros change nothing. */
  lemma {:induction false} LeadingZeros(z: seq<char>, s: seq<char>, base: nat)
    requires base >= 1 && AllDigits(s, base) && forall i :: 0 <= i < |z| ==> z[i] == '0'
    ensures AllDigits(z + s, base) && Value(z + s, base) == Value(s, base)
    decreases |z| + |s|
  {
    if s != [] {
      var t := s[..|s| - 1];
      LeadingZeros(z, t, base);
      assert (z + s)[..|z + s| - 1] == z + t;
    } else if z != [] {
      var y := z[..|z| - 1];
      LeadingZeros(y, [], base);
      assert y + [] == y && z + [] == z;
    }
  }
}
