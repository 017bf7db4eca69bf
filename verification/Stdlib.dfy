/** The number parser of stdlib.c.  A string stands for the characters before its terminating NUL. */
module Stdlib {
  import opened Common
  import opened Numerals

  function SkipBlanks(s: seq<char>, i: nat): (j: nat)
    requires i <= |s|
    ensures i <= j <= |s| && (forall k :: i <= k < j ==> Blank(s[k])) && (j < |s| ==> !Blank(s[j]))
    decreases |s| - i
  {
    if i < |s| && Blank(s[i]) then SkipBlanks(s, i + 1) else i
  }

  /** What the characters before the digits decide: the base, the sign, and where the digits start. */
  datatype Head = Head(base: nat, neg: bool, at: nat)

  function HeadOf(s: seq<char>, base: nat): (h: Head)
    ensures h.at <= |s|
  {
    var i := SkipBlanks(s, 0);
    var base' := if base == 0 then 10 else base;
    if i + 1 < |s| && s[i] == '0' && (s[i + 1] == 'x' || s[i + 1] == 'X') && (base == 0 || base == 16)
    then Head(16, false, i + 2)
    else if i < |s| && s[i] == '-' then Head(base', true, i + 1)
    else Head(base', false, i)
  }

  function Signed(neg: bool, v: int): int { if neg then -v else v }

  /** The value of the digits, with its sign, modulo 2^32. */
  function Wrapped(digits: seq<char>, base: nat, neg: bool): nat
    requires AllDigits(digits, base)
  {
    Signed(neg, Value(digits, base)) % TWO_32
  }

  /** The value modulo 2^32 and the position where parsing stopped; (0, 0) for a malformed string. */
  function Parse(s: seq<char>, base: int): (nat, nat) {
    if base < 0 || base == 1 || base > 36 then (0, 0)
    else
      var h := HeadOf(s, base);
      if AllDigits(s[h.at..], h.base) then (Wrapped(s[h.at..], h.base, h.neg), |s|) else (0, 0)
  }

  // ---------- What the parser does not distinguish ----------

  function Capital(c: char): char { if 'a' <= c <= 'z' then c - 'a' + 'A' else c }

  /** A capital for each lower-case letter. */
  function Upper(s: seq<char>): (u: seq<char>)
    ensures Capitals(s, u)
  {
    seq(|s|, i requires 0 <= i < |s| => Capital(s[i]))
  }

  predicate Capitals(s: seq<char>, u: seq<char>) {
    |u| == |s| && forall i :: 0 <= i < |s| ==> u[i] == Capital(s[i])
  }

  predicate SameDigit(x: char, y: char) {
    (IsAlnum(x) <==> IsAlnum(y)) && (IsAlnum(x) ==> CharValue(x) == CharValue(y))
  }

  ghost predicate SameDigits(s: seq<char>, t: seq<char>, base: nat) {
    (AllDigits(s, base) <==> AllDigits(t, base)) && (AllDigits(s, base) ==> Value(s, base) == Value(t, base))
  }

  lemma SameDigitsSnoc(s: seq<char>, x: char, t: seq<char>, y: char, base: nat)
    requires SameDigits(s, t, base) && SameDigit(x, y)
    ensures SameDigits(s + [x], t + [y], base)
  {
    LastDigit(s, x, base);
    LastDigit(t, y, base);
    if AllDigits(s + [x], base) {
      ValueSnoc(s, x, base);
      ValueSnoc(t, y, base);
    }
  }

  lemma LastDigit(s: seq<char>, x: char, base: nat)
    ensures AllDigits(s + [x], base) <==> AllDigits(s, base) && DigitOf(x, base)
  {
    assert (s + [x])[|s|] == x;
    if AllDigits(s + [x], base) {
      forall i | 0 <= i < |s| ensures DigitOf(s[i], base) { assert (s + [x])[i] == s[i]; }
    }
  }

  lemma {:induction false} UpperValue(s: seq<char>, u: seq<char>, base: nat)
    requires Capitals(s, u)
    ensures SameDigits(s, u, base)
  {
    if s != [] {
      var n := |s| - 1;
      UpperValue(s[..n], u[..n], base);
      SameDigitsSnoc(s[..n], s[n], u[..n], Capital(s[n]), base);
      assert s == s[..n] + [s[n]] && u == u[..n] + [Capital(s[n])];
    }
  }

  lemma {:induction false} UpperBlanks(s: seq<char>, u: seq<char>, i: nat)
    requires Capitals(s, u) && i <= |s|
    ensures SkipBlanks(u, i) == SkipBlanks(s, i)
    decreases |s| - i
  {
    if i < |s| && Blank(s[i]) { UpperBlanks(s, u, i + 1); }
  }

  /** No mark that the head looks at is a letter but the X of the prefix. */
  lemma CapitalMarks(c: char)
    ensures (Capital(c) == '0' <==> c == '0') && (Capital(c) == '-' <==> c == '-')
    ensures Capital(c) == 'x' || Capital(c) == 'X' <==> c == 'x' || c == 'X'
  {
  }

  lemma UpperHead(s: seq<char>, u: seq<char>, base: nat)
    requires Capitals(s, u)
    ensures HeadOf(u, base) == HeadOf(s, base) && Capitals(s[HeadOf(s, base).at..], u[HeadOf(s, base).at..])
  {
    UpperBlanks(s, u, 0);
    var i := SkipBlanks(s, 0);
    if i < |s| { CapitalMarks(s[i]); }
    if i + 1 < |s| { CapitalMarks(s[i + 1]); }
  }

  lemma SameWrapped(s: seq<char>, t: seq<char>, base: nat, neg: bool)
    requires SameDigits(s, t, base) && AllDigits(s, base)
    ensures AllDigits(t, base) && Wrapped(s, base, neg) == Wrapped(t, base, neg)
  {
  }

  /** Capital and small letters are the same digits, in every base. */
  lemma ParseIgnoresCase(s: seq<char>, base: int)
    ensures Parse(Upper(s), base) == Parse(s, base)
  {
    if 0 <= base <= 36 && base != 1 {
      var h := HeadOf(s, base);
      var t := s[h.at..];
      var u := Upper(s)[h.at..];
      UpperHead(s, Upper(s), base);
      UpperValue(t, u, h.base);
      if AllDigits(t, h.base) { SameWrapped(t, u, h.base, h.neg); }
    }
  }

  /** Base 0 is 16 if a prefix follows the blanks, and 10 otherwise. */
  lemma ParseBaseZero(s: seq<char>)
    ensures var i := SkipBlanks(s, 0);
            var prefixed := i + 1 < |s| && s[i] == '0' && (s[i + 1] == 'x' || s[i + 1] == 'X');
            Parse(s, 0) == Parse(s, if prefixed then 16 else 10)
  {
  }

  /** One more blank at the front changes only where parsing ends. */
  lemma ParseSkipsBlank(b: char, s: seq<char>, base: int)
    requires Blank(b) && 0 <= base <= 36 && base != 1
    ensures Parse([b] + s, base) == if Parse(s, base).1 == |s| then (Parse(s, base).0, |s| + 1) else (0, 0)
  {
    HeadBehindBlank(b, s, base);
  }

  lemma HeadBehindBlank(b: char, s: seq<char>, base: nat)
    requires Blank(b)
    ensures var h := HeadOf(s, base);
            HeadOf([b] + s, base) == h.(at := h.at + 1) && ([b] + s)[h.at + 1..] == s[h.at..]
  {
    BlankAhead(b, s, 0);
    var i, t := SkipBlanks(s, 0), [b] + s;
    if i < |s| { assert t[i + 1] == s[i]; }
    if i + 1 < |s| { assert t[i + 2] == s[i + 1]; }
  }

  lemma {:induction false} BlankAhead(b: char, s: seq<char>, i: nat)
    requires Blank(b) && i <= |s|
    ensures SkipBlanks([b] + s, i + 1) == SkipBlanks(s, i) + 1 && SkipBlanks([b] + s, 0) == SkipBlanks([b] + s, 1)
    decreases |s| - i
  {
    if i < |s| && Blank(s[i]) { BlankAhead(b, s, i + 1); }
  }

  method Strtoul(str: seq<char>, base0: int) returns (rvalue: nat, end: nat)
    ensures (rvalue, end) == Parse(str, base0)
  {
    var base := base0;
    if base < 0 || base == 1 || base > 36 {
      return 0, 0;
    }
    var startp := 0;
    while startp < |str| && Blank(str[startp])
      invariant startp <= |str| && SkipBlanks(str, 0) == SkipBlanks(str, startp)
    {
      startp := startp + 1;
    }
    var neg := false;
    if startp < |str| {
      match str[startp]
      case '0' =>
        if startp + 1 < |str| && (str[startp + 1] == 'x' || str[startp + 1] == 'X') {
          if base == 0 || base == 16 {
            base, startp := 16, startp + 2;
          }
        }
      case '-' =>
        neg, startp := true, startp + 1;
      case _ =>
    }
    if base == 0 {
      base := 10;
    }
    assert HeadOf(str, base0) == Head(base, neg, startp);
    rvalue, end := Convert(str, startp, base, neg);
  }

  lemma NoDigit(str: seq<char>, startp: nat, i: nat, base: nat)
    requires startp <= i < |str|
    ensures !DigitOf(str[i], base) ==> !AllDigits(str[startp..], base)
  {
    assert str[startp..][i - startp] == str[i];
  }

  /** The digit loop, which gives up at the first character that is not a digit of the base. */
  method Convert(str: seq<char>, startp: nat, base: nat, neg: bool) returns (rvalue: nat, end: nat)
    requires startp <= |str|
    ensures if AllDigits(str[startp..], base)
            then rvalue == Wrapped(str[startp..], base, neg) && end == |str|
            else rvalue == 0 && end == 0
  {
    rvalue := 0;
    end := startp;
    while end < |str|
      invariant startp <= end <= |str|
      invariant AllDigits(str[startp..end], base)
      invariant rvalue == Wrapped(str[startp..end], base, neg)
    {
      ghost var s := str[startp..end];
      NoDigit(str, startp, end, base);
      assert str[startp..end + 1] == s + [str[end]];
      var ok;
      ok, rvalue := TakeDigit(str[end], base, neg, rvalue, s);
      if !ok {
        return 0, 0;
      }
      end := end + 1;
    }
    assert str[startp..end] == str[startp..];
  }

  /** Its body: the digit that the character stands for, if the base has it. */
  method TakeDigit(c: char, base: nat, neg: bool, rvalue0: nat, ghost s: seq<char>) returns (ok: bool, rvalue: nat)
    requires AllDigits(s, base) && rvalue0 == Wrapped(s, base, neg)
    ensures ok <==> DigitOf(c, base)
    ensures ok ==> AllDigits(s + [c], base) && rvalue == Wrapped(s + [c], base, neg)
  {
    if !IsAlnum(c) {
      return false, rvalue0;
    }
    var d := if IsDigit(c) then (c - '0') as int
             else if IsUpper(c) then (c - 'A') as int + 10
             else (c - 'a') as int + 10;
    if d >= base {
      return false, rvalue0;
    }
    ok := true;
    rvalue := AddDigit(rvalue0, base, d, neg, s, c);
  }

  /** One step of the accumulation, in 32-bit arithmetic. */
  method AddDigit(rvalue: nat, base: nat, d: nat, neg: bool, ghost s: seq<char>, ghost c: char) returns (r: nat)
    requires AllDigits(s, base) && DigitOf(c, base) && d == CharValue(c)
    requires rvalue == Wrapped(s, base, neg)
    ensures AllDigits(s + [c], base) && r == Wrapped(s + [c], base, neg)
  {
    r := (if neg then rvalue * base - d else rvalue * base + d) % TWO_32;
    ValueSnoc(s, c, base);
    ghost var v := Value(s, base);
    SignedStep(neg, v, base, d);
    ModStep(Signed(neg, v), base, Signed(neg, d));
  }

  lemma SignedStep(neg: bool, v: int, base: int, d: int)
    ensures Signed(neg, v) * base + Signed(neg, d) == Signed(neg, v * base + d)
  {
  }

  /** 32-bit wrap-around may be left to the end. */
  lemma ModStep(x: int, b: int, c: int)
    ensures (x % TWO_32 * b + c) % TWO_32 == (x * b + c) % TWO_32
  {
    var q, r := x / TWO_32, x % TWO_32;
    assert x * b + c == r * b + c + q * b * TWO_32;
    ModShift(r * b + c, q * b);
  }

  lemma ModShift(y: int, k: int)
    ensures (y + k * TWO_32) % TWO_32 == y % TWO_32
  {
  }

  /** `get_value` of uif.c succeeds exactly for a base that `strtoul` takes and a string, not empty, in which
      only digits of the base follow the head; none need follow, so blanks alone are the number 0. */
  method GetValue(s: seq<char>, base: int) returns (value: nat, success: bool)
    ensures success <==> 0 <= base <= 36 && base != 1 && s != []
                         && AllDigits(s[HeadOf(s, base).at..], HeadOf(s, base).base)
    ensures success ==> var h := HeadOf(s, base); value == Wrapped(s[h.at..], h.base, h.neg)
    ensures !success ==> value == 0
  {
    var p;
    value, p := Strtoul(s, base);
    if value == 0 && p == 0 {
      return 0, false;
    }
    return value, true;
  }
}
