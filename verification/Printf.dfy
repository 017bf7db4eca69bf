/** The formatter of printf.c.  A format stands for the characters before its terminating NUL, which
    `CharAt` supplies; output goes to a sink that only ever grows. */
module Printf {
  import opened Common
  import opened Bits
  import opened Numerals

  /** What the variable argument list holds for one conversion. */
  datatype Arg = Word(w: nat) | Text(s: Option<seq<char>>) | CountPtr

  datatype Flags = Flags(minus: bool, plus: bool, space: bool, zero: bool, pound: bool)

  const NO_FLAGS := Flags(false, false, false, false, false)

  /** A conversion: flags, minimum field width, and the position of its last character. */
  datatype Directive = Directive(flags: Flags, width: nat, at: nat)

  function Fill(c: char, n: int): (s: seq<char>)
    ensures |s| == (if n > 0 then n else 0) && forall i :: 0 <= i < |s| ==> s[i] == c
    decreases n
  {
    if n <= 0 then [] else Fill(c, n - 1) + [c]
  }

  function Max(a: int, b: int): int { if a > b then a else b }

  // ---------- What each conversion prints ----------

  function Magnitude(v: int): nat { if v < 0 then -v else v }

  /** A word as a 32-bit signed integer. */
  function AsSigned(w: nat): int { if w < 0x8000_0000 then w else w - TWO_32 }

  function Sign(f: Flags, v: int): seq<char> {
    if v < 0 then "-" else if f.plus then "+" else if f.space then " " else ""
  }

  function Prefix(f: Flags): seq<char> { if f.pound then "0x" else "" }

  /** What goes before the digits: padding and the sign. */
  function SignedHead(f: Flags, width: nat, sign: seq<char>, n: nat): seq<char> {
    var room := width - |sign| - n;
    if f.zero then sign + Fill('0', room) else if f.minus then sign else Fill(' ', room) + sign
  }

  /** What goes behind the digits: zero padding overrides left adjustment. */
  function Tail(f: Flags, room: int): seq<char> {
    if f.minus && !f.zero then Fill(' ', room) else []
  }

  /** %d and %i. */
  function SignedField(f: Flags, width: nat, v: int): seq<char> {
    var sign, digits := Sign(f, v), Numeral(Magnitude(v), 10);
    SignedHead(f, width, sign, |digits|) + digits + Tail(f, width - |sign| - |digits|)
  }

  /** %u, %o, %b and %p. */
  function UnsignedField(f: Flags, width: nat, digits: seq<char>): seq<char> {
    SignedHead(f, width, [], |digits|) + digits + Tail(f, width - |digits|)
  }

  /** As for a sign, but zero padding does not count the prefix. */
  function HexHead(f: Flags, width: nat, n: nat): seq<char> {
    if f.zero then Prefix(f) + Fill('0', width - n)
    else if f.minus then Prefix(f)
    else Fill(' ', width - |Prefix(f)| - n) + Prefix(f)
  }

  /** %x and %X: upper-case digits. */
  function HexField(f: Flags, width: nat, w: nat): seq<char> {
    var digits := Numeral(w, 16);
    HexHead(f, width, |digits|) + digits + Tail(f, width - |Prefix(f)| - |digits|)
  }

  function TextField(f: Flags, width: nat, s: seq<char>): seq<char> {
    if f.minus then s + Fill(' ', width - |s|) else Fill(' ', width - |s|) + s
  }

  predicate IsSignedConv(c: char) { c == 'd' || c == 'i' }
  predicate IsHexConv(c: char) { c == 'x' || c == 'X' }
  predicate IsUnsignedConv(c: char) { c == 'u' || c == 'o' || c == 'b' || c == 'p' }

  function Radix(c: char): nat {
    if c == 'o' then 8 else if c == 'b' then 2 else if c == 'p' || IsHexConv(c) then 16 else 10
  }

  predicate TakesWord(c: char) { IsSignedConv(c) || IsHexConv(c) || IsUnsignedConv(c) || c == 'c' }

  predicate Takes(c: char) { TakesWord(c) || c == 's' || c == 'n' }

  predicate Fits(c: char, a: Arg) {
    if TakesWord(c) then a.Word? && a.w < TWO_32 else if c == 's' then a.Text? else c == 'n' ==> a.CountPtr?
  }

  /** One integer conversion of the word `w`. */
  function IntegerField(c: char, f: Flags, width: nat, w: nat): seq<char> {
    if IsSignedConv(c) then SignedField(f, width, AsSigned(w))
    else if IsHexConv(c) then HexField(f, width, w)
    else UnsignedField(f, width, Numeral(w, Radix(c)))
  }

  /** What conversion `c` prints for argument `a`; a character that is no conversion prints itself. */
  function Field(c: char, f: Flags, width: nat, a: Arg): seq<char>
    requires Takes(c) ==> Fits(c, a)
  {
    if IsSignedConv(c) || IsHexConv(c) || IsUnsignedConv(c) then IntegerField(c, f, width, a.w)
    else if c == 'c' then [(a.w % 256) as char]
    else if c == 's' then (if a.s.None? then [] else TextField(f, width, a.s.value))
    else if c == 'n' then []
    else [c]
  }

  // Each integer conversion prints the larger of the width and its natural length, except that a
  // zero-padded prefixed hexadecimal prints the prefix on top of that.

  lemma LengthAround(f: Flags, width: nat, sign: seq<char>, digits: seq<char>)
    ensures |SignedHead(f, width, sign, |digits|) + digits + Tail(f, width - |sign| - |digits|)| ==
            Max(width, |sign| + |digits|)
  {
  }

  lemma SignedFieldLength(f: Flags, width: nat, v: int)
    ensures |SignedField(f, width, v)| == Max(width, |Sign(f, v)| + |Numeral(Magnitude(v), 10)|)
  {
    LengthAround(f, width, Sign(f, v), Numeral(Magnitude(v), 10));
  }

  lemma UnsignedFieldLength(f: Flags, width: nat, digits: seq<char>)
    ensures |UnsignedField(f, width, digits)| == Max(width, |digits|)
  {
    LengthAround(f, width, [], digits);
  }

  lemma HexFieldLength(f: Flags, width: nat, w: nat)
    ensures |HexField(f, width, w)| ==
            if f.pound && f.zero then 2 + Max(width, |Numeral(w, 16)|) else Max(width, |Prefix(f)| + |Numeral(w, 16)|)
  {
    var digits := Numeral(w, 16);
    assert |HexHead(f, width, |digits|)| == if f.zero then |Prefix(f)| + Max(0, width - |digits|)
                                            else if f.minus then |Prefix(f)|
                                            else Max(0, width - |Prefix(f)| - |digits|) + |Prefix(f)|;
  }

  // ---------- Parsing a format ----------

  function CharAt(fmt: seq<char>, p: nat): char { if p < |fmt| then fmt[p] else '\0' }

  function WithFlag(f: Flags, c: char): Flags {
    if c == '-' then f.(minus := true) else if c == '+' then f.(plus := true) else if c == ' ' then f.(space := true)
    else if c == '0' then f.(zero := true) else f.(pound := true)
  }

  predicate IsFlag(c: char) { c == '-' || c == '+' || c == ' ' || c == '0' || c == '#' }

  function FlagsFrom(fmt: seq<char>, p: nat, f: Flags): (Flags, nat)
    requires p <= |fmt|
    decreases |fmt| - p
  {
    if p < |fmt| && IsFlag(fmt[p]) then FlagsFrom(fmt, p + 1, WithFlag(f, fmt[p])) else (f, p)
  }

  function WidthFrom(fmt: seq<char>, p: nat, width: nat): (nat, nat)
    requires p <= |fmt|
    decreases |fmt| - p
  {
    if p < |fmt| && IsDigit(fmt[p]) then WidthFrom(fmt, p + 1, width * 10 + (fmt[p] - '0') as int) else (width, p)
  }

  /** The conversion whose flags start at `p`: flags, width, an ignored precision, an ignored length. */
  function DirectiveAt(fmt: seq<char>, p: nat): (d: Directive)
    requires p <= |fmt|
    ensures p <= d.at <= |fmt|
  {
    FlagsBound(fmt, p, NO_FLAGS);
    var (flags, p1) := FlagsFrom(fmt, p, NO_FLAGS);
    WidthBound(fmt, p1, 0);
    var (width, p2) := WidthFrom(fmt, p1, 0);
    if CharAt(fmt, p2) == '.' then
      WidthBound(fmt, p2 + 1, 0);
      Directive(flags, width, AfterLength(fmt, WidthFrom(fmt, p2 + 1, 0).1))
    else Directive(flags, width, AfterLength(fmt, p2))
  }

  function AfterLength(fmt: seq<char>, p: nat): (q: nat)
    requires p <= |fmt|
    ensures p <= q <= |fmt|
  {
    if CharAt(fmt, p) == 'h' || CharAt(fmt, p) == 'l' || CharAt(fmt, p) == 'L' then p + 1 else p
  }

  lemma {:induction false} FlagsBound(fmt: seq<char>, p: nat, f: Flags)
    requires p <= |fmt|
    ensures p <= FlagsFrom(fmt, p, f).1 <= |fmt|
    decreases |fmt| - p
  {
    if p < |fmt| && IsFlag(fmt[p]) { FlagsBound(fmt, p + 1, WithFlag(f, fmt[p])); }
  }

  lemma {:induction false} WidthBound(fmt: seq<char>, p: nat, width: nat)
    requires p <= |fmt|
    ensures p <= WidthFrom(fmt, p, width).1 <= |fmt|
    decreases |fmt| - p
  {
    if p < |fmt| && IsDigit(fmt[p]) { WidthBound(fmt, p + 1, width * 10 + (fmt[p] - '0') as int); }
  }

  /** From `p` on, no conversion is cut off by the end of the format, and the arguments fit. */
  predicate Formattable(fmt: seq<char>, p: nat, args: seq<Arg>)
    requires p <= |fmt|
    decreases |fmt| - p
  {
    if p == |fmt| then true
    else if fmt[p] != '%' then Formattable(fmt, p + 1, args)
    else
      var d := DirectiveAt(fmt, p + 1);
      d.at < |fmt| &&
      if Takes(fmt[d.at]) then args != [] && Fits(fmt[d.at], args[0]) && Formattable(fmt, d.at + 1, args[1..])
      else Formattable(fmt, d.at + 1, args)
  }

  /** The text of the format from `p` on. */
  function Formatted(fmt: seq<char>, p: nat, args: seq<Arg>): seq<char>
    requires p <= |fmt| && Formattable(fmt, p, args)
    decreases |fmt| - p
  {
    if p == |fmt| then []
    else if fmt[p] == '\n' then ['\r', '\n'] + Formatted(fmt, p + 1, args)
    else if fmt[p] != '%' then [fmt[p]] + Formatted(fmt, p + 1, args)
    else
      var d := DirectiveAt(fmt, p + 1);
      var c := fmt[d.at];
      if Takes(c) then Field(c, d.flags, d.width, args[0]) + Formatted(fmt, d.at + 1, args[1..])
      else [c] + Formatted(fmt, d.at + 1, args)
  }

  /** The counts that the %n conversions from `p` on store, when `count` characters precede. */
  function Stored(fmt: seq<char>, p: nat, args: seq<Arg>, count: nat): seq<nat>
    requires p <= |fmt| && Formattable(fmt, p, args)
    decreases |fmt| - p
  {
    if p == |fmt| then []
    else if fmt[p] != '%' then Stored(fmt, p + 1, args, count + if fmt[p] == '\n' then 2 else 1)
    else
      var d := DirectiveAt(fmt, p + 1);
      var c := fmt[d.at];
      if c == 'n' then [count] + Stored(fmt, d.at + 1, args[1..], count)
      else if Takes(c) then Stored(fmt, d.at + 1, args[1..], count + |Field(c, d.flags, d.width, args[0])|)
      else Stored(fmt, d.at + 1, args, count + 1)
  }

  /** The text and the stored counts of a conversion and of what follows it. */
  lemma ConversionStep(fmt: seq<char>, p: nat, args: seq<Arg>, count: nat)
    requires p < |fmt| && fmt[p] == '%' && Formattable(fmt, p, args)
    ensures var d := DirectiveAt(fmt, p + 1);
            d.at < |fmt|
    ensures var d := DirectiveAt(fmt, p + 1);
            var c := fmt[d.at];
            if Takes(c) then
              && args != [] && Fits(c, args[0]) && Formattable(fmt, d.at + 1, args[1..])
              && Formatted(fmt, p, args) == Field(c, d.flags, d.width, args[0]) + Formatted(fmt, d.at + 1, args[1..])
              && Stored(fmt, p, args, count) == (if c == 'n' then [count] else [])
                 + Stored(fmt, d.at + 1, args[1..], count + |Field(c, d.flags, d.width, args[0])|)
            else
              && Formattable(fmt, d.at + 1, args)
              && Formatted(fmt, p, args) == [c] + Formatted(fmt, d.at + 1, args)
              && Stored(fmt, p, args, count) == Stored(fmt, d.at + 1, args, count + 1)
  {
    var d := DirectiveAt(fmt, p + 1);
    var c := fmt[d.at];
    if Takes(c) {
      var rest := Stored(fmt, d.at + 1, args[1..], count + |Field(c, d.flags, d.width, args[0])|);
      assert [] + rest == rest;
    }
  }

  // ---------- The printer ----------

  /** `vstr` holds a NUL and then the digits of a numeral in reverse. */
  ghost predicate HoldsReversed(vstr: array<char>, digits: seq<char>)
    reads vstr
  {
    && |digits| < vstr.Length && vstr[0] == '\0'
    && forall i :: 1 <= i <= |digits| ==> vstr[i] == digits[|digits| - i] && vstr[i] != '\0'
  }

  /** `printk_mknumstr`: the digits of `value` go in reverse into a buffer of 33, which they never overrun. */
  method MkNumStr(numstr: array<char>, value: int, neg: bool, radix: nat) returns (nlen: nat)
    requires numstr.Length == 33
    requires if neg then radix == 10 && -0x8000_0000 <= value < 0x8000_0000 else 2 <= radix <= 16 && 0 <= value < TWO_32
    modifies numstr
    ensures nlen == |Numeral(Magnitude(value), radix)| && HoldsReversed(numstr, Numeral(Magnitude(value), radix))
  {
    numstr[0] := '\0';
    if value == 0 {
      numstr[1] := '0';
      return 1;
    }
    if neg {
      nlen := PutSigned(numstr, value);
    } else {
      nlen := PutUnsigned(numstr, value, radix);
    }
    NumeralChars(Magnitude(value), radix);
    ghost var digits := Numeral(Magnitude(value), radix);
    forall i | 1 <= i <= nlen ensures numstr[i] == digits[nlen - i] && numstr[i] != '\0' {
      assert numstr[i] == numstr[1..nlen + 1][i - 1] == Lsd(Magnitude(value), radix)[i - 1];
    }
  }

  /** Its two loops.  The signed one divides without making the number positive first, so that the
      most negative integer needs no special case. */
  method PutSigned(numstr: array<char>, value: int) returns (nlen: nat)
    requires numstr.Length == 33 && numstr[0] == '\0'
    requires -0x8000_0000 <= value < 0x8000_0000
    modifies numstr
    ensures nlen <= 32 && numstr[0] == '\0' && numstr[1..nlen + 1] == Lsd(Magnitude(value), 10)
  {
    nlen := 0;
    var a := value;
    ghost var all, qs := WordChain(Magnitude(value), 10);
    while a != 0
      invariant -0x8000_0000 <= a < 0x8000_0000 && nlen <= |all| && Magnitude(a) == qs[nlen]
      invariant numstr[0] == '\0' && numstr[1..nlen + 1] == all[..nlen]
      decreases Magnitude(a)
    {
      var b := if a >= 0 then a / 10 else -(-a / 10);
      var c := a - b * 10;
      QuotientDigit(a);
      assert Link(qs, all, 10, nlen);
      Append(numstr, nlen, if c < 0 then '0' + (-c) as char else '0' + c as char);
      a := b;
      nlen := nlen + 1;
    }
    assert nlen < |all| ==> Link(qs, all, 10, nlen);
  }

  /** The quotient, and the rest as the source computes it. */
  method Divide(n: nat, radix: nat) returns (q: nat, d: nat)
    requires radix >= 2
    ensures q == n / radix && d == n % radix && (n > 0 ==> q < n)
  {
    DivShrinks(n, radix);
    q := n / radix;
    d := n - q * radix;
  }

  method PutUnsigned(numstr: array<char>, value: nat, radix: nat) returns (nlen: nat)
    requires numstr.Length == 33 && numstr[0] == '\0'
    requires 2 <= radix <= 16 && value < TWO_32
    modifies numstr
    ensures nlen <= 32 && numstr[0] == '\0' && numstr[1..nlen + 1] == Lsd(value, radix)
  {
    nlen := 0;
    var ua: nat := value;
    ghost var all, qs := WordChain(value, radix);
    while ua != 0
      invariant nlen <= |all| && ua == qs[nlen]
      invariant numstr[0] == '\0' && numstr[1..nlen + 1] == all[..nlen]
      decreases |all| - nlen
    {
      assert Link(qs, all, radix, nlen);
      var ub, uc := Divide(ua, radix);
      Append(numstr, nlen, if uc < 10 then '0' + uc as char else 'A' + (uc - 10) as char);
      ua := ub;
      nlen := nlen + 1;
    }
    assert nlen < |all| ==> Link(qs, all, radix, nlen);
  }

  method Append(numstr: array<char>, nlen: nat, ch: char)
    requires nlen + 1 < numstr.Length
    modifies numstr
    ensures numstr[0] == old(numstr[0]) && numstr[1..nlen + 2] == old(numstr[1..nlen + 1]) + [ch]
  {
    numstr[nlen + 1] := ch;
  }

  /** Quotient `i` gives digit `i` and the next quotient. */
  ghost predicate Link(qs: seq<nat>, all: seq<char>, radix: nat, i: nat)
    requires 2 <= radix <= 36 && i < |all| == |qs| - 1
  {
    qs[i] > 0 && all[i] == DigitChar(qs[i] % radix) && qs[i + 1] == qs[i] / radix
  }

  /** The digits of a number, least significant first, and the quotients that they come from. */
  lemma DigitChain(n: nat, radix: nat) returns (all: seq<char>, qs: seq<nat>)
    requires 2 <= radix <= 36
    ensures all == Lsd(n, radix) && |qs| == |all| + 1 && qs[0] == n && qs[|all|] == 0
    ensures forall i :: 0 <= i < |all| ==> Link(qs, all, radix, i)
  {
    if n == 0 {
      all, qs := [], [0];
    } else {
      DivShrinks(n, radix);
      var q, d := n / radix, n % radix;
      var rest, qs' := DigitChain(q, radix);
      all, qs := [DigitChar(d)] + rest, [n] + qs';
      forall i | 0 <= i < |all| ensures Link(qs, all, radix, i) {
        if i > 0 { assert Link(qs', rest, radix, i - 1); }
      }
    }
  }

  lemma WordChain(n: nat, radix: nat) returns (all: seq<char>, qs: seq<nat>)
    requires 2 <= radix <= 36 && n < TWO_32
    ensures all == Lsd(n, radix) && |all| <= 32 && |qs| == |all| + 1 && qs[0] == n && qs[|all|] == 0
    ensures forall i :: 0 <= i < |all| ==> Link(qs, all, radix, i)
  {
    WordLength(n, radix);
    all, qs := DigitChain(n, radix);
  }

  /** Truncating division, as the source divides negative numbers. */
  lemma QuotientDigit(a: int)
    requires a != 0
    ensures var b := if a >= 0 then a / 10 else -(-a / 10);
            && Magnitude(b) == Magnitude(a) / 10 && Magnitude(b) < Magnitude(a)
            && Magnitude(a - b * 10) == Magnitude(a) % 10
            && (if a > 0 then b >= 0 && a - b * 10 >= 0 else b <= 0 && a - b * 10 <= 0)
  {
  }

  class Printer {
    var out: seq<char>
    var count: nat
    var stored: seq<nat>

    constructor ()
      ensures out == [] && count == 0 && stored == []
    {
      out, count, stored := [], 0, [];
    }

    method PutC(c: char)
      modifies this`out, this`count
      ensures out == old(out) + [c] && count == old(count) + 1
    {
      out, count := out + [c], count + 1;
    }

    method Pad(c: char, curlen: int, width: int)
      modifies this`out, this`count
      ensures out == old(out) + Fill(c, width - curlen) && count == old(count) + |Fill(c, width - curlen)|
    {
      var i := curlen;
      while i < width
        invariant curlen <= i && (i <= width || i == curlen)
        invariant out == old(out) + Fill(c, i - curlen) && count == old(count) + |Fill(c, i - curlen)|
      {
        PutC(c);
        i := i + 1;
      }
    }

    /** The digits were built in reverse order: print them from the end down to the NUL. */
    method PutReversed(vstr: array<char>, vlen: nat, ghost digits: seq<char>)
      requires vlen == |digits| && HoldsReversed(vstr, digits)
      modifies this`out, this`count
      ensures out == old(out) + digits && count == old(count) + |digits|
    {
      var i := vlen;
      while vstr[i] != '\0'
        invariant 0 <= i <= vlen < vstr.Length && HoldsReversed(vstr, digits)
        invariant out == old(out) + digits[..vlen - i] && count == old(count) + vlen - i
        decreases i
      {
        PutC(vstr[i]);
        i := i - 1;
        assert digits[..vlen - i] == digits[..vlen - i - 1] + [digits[vlen - i - 1]];
      }
      assert digits[..vlen] == digits;
    }

    /** The digits and the padding behind them; `vlen` is the length so far without padding, or the
        width if there is nothing left to pad. */
    method PutDigits(f: Flags, width: nat, vstr: array<char>, vstrp: nat, vlen: int,
                     ghost digits: seq<char>, ghost room: int)
      requires vstrp == |digits| && HoldsReversed(vstr, digits)
      requires vlen == if f.zero then width else width - room
      modifies this`out, this`count
      ensures out == old(out) + digits + Tail(f, room) && count - old(count) == |out| - |old(out)|
    {
      PutReversed(vstr, vstrp, digits);
      if f.minus { Pad(' ', vlen, width); }
    }

    /** %d and %i: zero padding goes behind the sign, space padding before it. */
    method PutSignedHead(f: Flags, width: nat, schar: char, vlen0: int) returns (vlen: int)
      modifies this`out, this`count
      ensures var sign := if schar == '\0' then [] else [schar];
              forall n: nat :: vlen0 == |sign| + n ==>
                out == old(out) + SignedHead(f, width, sign, n)
      ensures count - old(count) == |out| - |old(out)|
      ensures vlen == if f.zero then width else vlen0
    {
      vlen := vlen0;
      var dschar := false;
      if f.zero {
        if schar != '\0' { PutC(schar); }
        dschar := true;
        Pad('0', vlen, width);
        vlen := width;
      } else if !f.minus {
        Pad(' ', vlen, width);
        if schar != '\0' { PutC(schar); }
        dschar := true;
      }
      if !dschar && schar != '\0' { PutC(schar); }
    }

    method ConvertSigned(f: Flags, width: nat, ival: int)
      requires -0x8000_0000 <= ival < 0x8000_0000
      modifies this`out, this`count
      ensures out == old(out) + SignedField(f, width, ival) && count - old(count) == |out| - |old(out)|
    {
      var vstr := new char[33];
      var vlen: int := MkNumStr(vstr, ival, true, 10);
      var vstrp := vlen;
      ghost var digits, sign := Numeral(Magnitude(ival), 10), Sign(f, ival);
      var schar := '\0';
      if ival < 0 {
        schar, vlen := '-', vlen + 1;
      } else if f.plus {
        schar, vlen := '+', vlen + 1;
      } else if f.space {
        schar, vlen := ' ', vlen + 1;
      }
      assert sign == if schar == '\0' then [] else [schar];
      vlen := PutSignedHead(f, width, schar, vlen);
      assert out == old(out) + SignedHead(f, width, sign, |digits|);
      PutDigits(f, width, vstr, vstrp, vlen, digits, width - |sign| - |digits|);
      Associative(old(out), SignedHead(f, width, sign, |digits|), digits);
      Associative(old(out), SignedHead(f, width, sign, |digits|) + digits, Tail(f, width - |sign| - |digits|));
    }

    /** %x and %X. */
    method PutHexHead(f: Flags, width: nat, vlen0: int) returns (vlen: int)
      modifies this`out, this`count
      ensures forall n: nat :: vlen0 == n ==> out == old(out) + HexHead(f, width, n)
      ensures count - old(count) == |out| - |old(out)|
      ensures vlen == if f.zero then width else vlen0 + |Prefix(f)|
    {
      vlen := vlen0;
      var dschar := false;
      if f.zero {
        if f.pound {
          PutC('0');
          PutC('x');
          dschar := true;
        }
        Pad('0', vlen, width);
        vlen := width;
      } else if !f.minus {
        if f.pound { vlen := vlen + 2; }
        Pad(' ', vlen, width);
        if f.pound {
          PutC('0');
          PutC('x');
          dschar := true;
        }
      }
      if f.pound && !dschar {
        PutC('0');
        PutC('x');
        vlen := vlen + 2;
      }
    }

    method ConvertHex(f: Flags, width: nat, uval: nat)
      requires uval < TWO_32
      modifies this`out, this`count
      ensures out == old(out) + HexField(f, width, uval) && count - old(count) == |out| - |old(out)|
    {
      var vstr := new char[33];
      var vlen: int := MkNumStr(vstr, uval, false, 16);
      var vstrp := vlen;
      ghost var digits := Numeral(uval, 16);
      vlen := PutHexHead(f, width, vlen);
      assert out == old(out) + HexHead(f, width, |digits|);
      PutDigits(f, width, vstr, vstrp, vlen, digits, width - |Prefix(f)| - |digits|);
      Associative(old(out), HexHead(f, width, |digits|), digits);
      Associative(old(out), HexHead(f, width, |digits|) + digits, Tail(f, width - |Prefix(f)| - |digits|));
    }

    /** %o, %b, %p and %u. */
    method ConvertUnsigned(f: Flags, width: nat, uval: nat, radix: nat)
      requires uval < TWO_32 && 2 <= radix <= 16
      modifies this`out, this`count
      ensures out == old(out) + UnsignedField(f, width, Numeral(uval, radix))
      ensures count - old(count) == |out| - |old(out)|
    {
      var vstr := new char[33];
      var vlen: int := MkNumStr(vstr, uval, false, radix);
      var vstrp := vlen;
      ghost var digits := Numeral(uval, radix);
      vlen := PutSignedHead(f, width, '\0', vlen);
      assert out == old(out) + SignedHead(f, width, [], |digits|);
      PutDigits(f, width, vstr, vstrp, vlen, digits, width - |digits|);
      Associative(old(out), SignedHead(f, width, [], |digits|), digits);
      Associative(old(out), SignedHead(f, width, [], |digits|) + digits, Tail(f, width - |digits|));
    }

    method ConvertText(f: Flags, width: nat, s: seq<char>)
      modifies this`out, this`count
      ensures out == old(out) + TextField(f, width, s) && count - old(count) == |out| - |old(out)|
    {
      if !f.minus { Pad(' ', |s|, width); }
      var i := 0;
      ghost var before := out;
      while i < |s|
        invariant i <= |s| && out == before + s[..i] && count - old(count) == |out| - |old(out)|
      {
        PutC(s[i]);
        i := i + 1;
      }
      assert s[..i] == s;
      if f.minus { Pad(' ', |s|, width); }
    }

    /** One conversion. */
    method Convert(c: char, f: Flags, width: nat, a: Arg)
      requires Takes(c) ==> Fits(c, a)
      modifies this
      ensures out == old(out) + Field(c, f, width, a) && count - old(count) == |out| - |old(out)|
      ensures stored == old(stored) + if c == 'n' then [old(count)] else []
    {
      if c == 'd' || c == 'i' {
        ConvertSigned(f, width, AsSigned(a.w));
      } else if c == 'x' || c == 'X' {
        ConvertHex(f, width, a.w);
      } else if c == 'o' {
        ConvertUnsigned(f, width, a.w, 8);
      } else if c == 'b' {
        ConvertUnsigned(f, width, a.w, 2);
      } else if c == 'p' {
        ConvertUnsigned(f, width, a.w, 16);
      } else if c == 'u' {
        ConvertUnsigned(f, width, a.w, 10);
      } else if c == 'c' {
        PutC((a.w % 256) as char);
      } else if c == 's' {
        if a.s.Some? { ConvertText(f, width, a.s.value); }
      } else if c == 'n' {
        stored := stored + [count];
      } else {
        PutC(c);
      }
    }

    /** Flags, width, precision and length of the conversion behind the '%' at p - 1; each loop steps
        back from the first character that it does not take. */
    method ReadDirective(fmt: seq<char>, p: nat) returns (d: Directive)
      requires p <= |fmt|
      ensures d == DirectiveAt(fmt, p)
    {
      FlagsBound(fmt, p, NO_FLAGS);
      var q: nat, flags := p, NO_FLAGS;
      while IsFlag(CharAt(fmt, q))
        invariant q <= |fmt| && FlagsFrom(fmt, q, flags) == FlagsFrom(fmt, p, NO_FLAGS)
        decreases |fmt| - q
      {
        flags, q := WithFlag(flags, fmt[q]), q + 1;
      }
      ghost var p1 := q;
      WidthBound(fmt, p1, 0);
      var width: nat := 0;
      while IsDigit(CharAt(fmt, q))
        invariant p1 <= q <= |fmt| && WidthFrom(fmt, q, width) == WidthFrom(fmt, p1, 0)
        decreases |fmt| - q
      {
        width, q := width * 10 + (fmt[q] - '0') as int, q + 1;
      }
      if CharAt(fmt, q) == '.' {
        q := q + 1;
        ghost var p3 := q;
        WidthBound(fmt, p3, 0);
        ghost var precision: nat := 0;
        while IsDigit(CharAt(fmt, q))
          invariant p3 <= q <= |fmt| && WidthFrom(fmt, q, precision) == WidthFrom(fmt, p3, 0)
          decreases |fmt| - q
        {
          precision := precision * 10 + (fmt[q] - '0') as int;
          q := q + 1;
        }
      }
      if CharAt(fmt, q) == 'h' || CharAt(fmt, q) == 'l' || CharAt(fmt, q) == 'L' {
        q := q + 1;
      }
      return Directive(flags, width, q);
    }

    /** The formatter: what it prints and stores, and that its result counts what it printed. */
    method Printk(fmt: seq<char>, args: seq<Arg>) returns (result: nat)
      requires Formattable(fmt, 0, args)
      modifies this
      ensures out == old(out) + Formatted(fmt, 0, args)
      ensures result == |Formatted(fmt, 0, args)|
      ensures stored == old(stored) + Stored(fmt, 0, args, 0)
    {
      count := 0;
      var p: nat, ap := 0, args;
      while p < |fmt|
        invariant p <= |fmt| && Formattable(fmt, p, ap)
        invariant out + Formatted(fmt, p, ap) == old(out) + Formatted(fmt, 0, args)
        invariant stored + Stored(fmt, p, ap, count) == old(stored) + Stored(fmt, 0, args, 0)
        invariant count == |out| - |old(out)|
        decreases |fmt| - p
      {
        if fmt[p] != '%' {
          PutPlain(fmt, p, ap);
          p := p + 1;
        } else {
          p, ap := PutConversion(fmt, p, ap);
        }
      }
      return count;
    }

    /** A character that is no conversion; a line feed becomes CR LF. */
    method PutPlain(fmt: seq<char>, p: nat, ghost ap: seq<Arg>)
      requires p < |fmt| && Formattable(fmt, p, ap) && fmt[p] != '%'
      modifies this
      ensures out + Formatted(fmt, p + 1, ap) == old(out) + Formatted(fmt, p, ap)
      ensures stored == old(stored) && Stored(fmt, p + 1, ap, count) == Stored(fmt, p, ap, old(count))
      ensures count - old(count) == |out| - |old(out)|
    {
      if fmt[p] != '\n' {
        PutC(fmt[p]);
        Associative(old(out), [fmt[p]], Formatted(fmt, p + 1, ap));
      } else {
        PutC('\r');
        PutC('\n');
        assert out == old(out) + ['\r', '\n'];
        Associative(old(out), ['\r', '\n'], Formatted(fmt, p + 1, ap));
      }
    }

    /** The conversion at p, with its argument. */
    method PutConversion(fmt: seq<char>, p: nat, ap: seq<Arg>) returns (p': nat, ap': seq<Arg>)
      requires p < |fmt| && Formattable(fmt, p, ap) && fmt[p] == '%'
      modifies this
      ensures p < p' <= |fmt| && Formattable(fmt, p', ap')
      ensures out + Formatted(fmt, p', ap') == old(out) + Formatted(fmt, p, ap)
      ensures stored + Stored(fmt, p', ap', count) == old(stored) + Stored(fmt, p, ap, old(count))
      ensures count - old(count) == |out| - |old(out)|
    {
      var d := ReadDirective(fmt, p + 1);
      ConversionStep(fmt, p, ap, count);
      var c := fmt[d.at];
      p' := d.at + 1;
      if Takes(c) {
        ap' := ap[1..];
        ghost var field, put := Field(c, d.flags, d.width, ap[0]), if c == 'n' then [count] else [];
        Convert(c, d.flags, d.width, ap[0]);
        Associative(old(out), field, Formatted(fmt, p', ap'));
        Associative(old(stored), put, Stored(fmt, p', ap', count));
      } else {
        ap' := ap;
        PutC(c);
        Associative(old(out), [c], Formatted(fmt, p', ap'));
      }
    }
  }
}
