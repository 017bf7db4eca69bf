/** Printing and parsing undo each other. */
module PrintParse {
  import opened Common
  import opened Numerals
  import opened Stdlib
  import opened Printf
  import opened Formats

  predicate IsInteger(c: char) { IsSignedConv(c) || IsHexConv(c) || IsUnsignedConv(c) }

  /** The length without padding. */
  function Natural(c: char, f: Flags, w: nat): nat {
    if IsSignedConv(c) then |Sign(f, AsSigned(w))| + |Numeral(Magnitude(AsSigned(w)), 10)|
    else if IsHexConv(c) then |Prefix(f)| + |Numeral(w, 16)|
    else |Numeral(w, Radix(c))|
  }

  /** `strtoul` takes neither a plus sign nor spaces behind the digits. */
  predicate Readable(c: char, f: Flags, width: nat, w: nat) {
    && !(IsSignedConv(c) && f.plus && AsSigned(w) >= 0)
    && !(f.minus && !f.zero && width > Natural(c, f, w))
  }

  /** For every word, conversion, flags and width: the printed text is read back, as the same word and
      to its end, exactly if it is readable; otherwise parsing fails, which returns 0. */
  lemma RoundTrip(c: char, f: Flags, width: nat, w: nat)
    requires IsInteger(c) && w < TWO_32
    ensures var s := IntegerField(c, f, width, w);
            && Parse(s, Radix(c)) == (if Readable(c, f, width, w) then (w, |s|) else (0, 0))
            && (Parse(s, Radix(c)).0 == w <==> Readable(c, f, width, w) || w == 0)
  {
    var s, ok := IntegerField(c, f, width, w), Readable(c, f, width, w);
    if IsSignedConv(c) {
      RoundTripSigned(c, f, width, w, s, ok);
    } else if IsHexConv(c) {
      RoundTripHex(c, f, width, w, s, ok);
    } else if c == 'o' {
      RoundTripUnsigned(c, f, width, w, s, 8, ok);
    } else if c == 'b' {
      RoundTripUnsigned(c, f, width, w, s, 2, ok);
    } else if c == 'p' {
      RoundTripUnsigned(c, f, width, w, s, 16, ok);
    } else {
      RoundTripUnsigned(c, f, width, w, s, 10, ok);
    }
  }

  /** The base to read each conversion with. */
  predicate ReadIn(c: char, base: int) {
    match c
    case 'o' => base == 8
    case 'b' => base == 2
    case 'x' => base == 16
    case 'X' => base == 16
    case 'p' => base == 16
    case _ => base == 10 && (c == 'd' || c == 'i' || c == 'u')
  }

  lemma RoundTripBases(c: char, base: int, f: Flags, width: nat, w: nat)
    requires ReadIn(c, base) && w < TWO_32
    ensures var s := IntegerField(c, f, width, w);
            Parse(s, base) == if Readable(c, f, width, w) then (w, |s|) else (0, 0)
  {
    RoundTrip(c, f, width, w);
  }

  lemma RoundTripSigned(c: char, f: Flags, width: nat, w: nat, s: seq<char>, ok: bool)
    requires IsSignedConv(c) && w < TWO_32 && s == SignedField(f, width, AsSigned(w)) && ok == Readable(c, f, width, w)
    ensures Parse(s, 10) == if ok then (w, |s|) else (0, 0)
  {
    var n, sign := Magnitude(AsSigned(w)), Sign(f, AsSigned(w));
    var d := Numeral(n, 10);
    var room := width - |sign| - |d|;
    assert ok <==> !(sign == "+" || (f.minus && !f.zero && room > 0));
    assert Signed(sign == "-", n) % TWO_32 == w;
    assert s == SignedHead(f, width, sign, |d|) + d + Tail(f, room);
    SignedRoundTrip(f, width, sign, d, n);
  }

  lemma RoundTripHex(c: char, f: Flags, width: nat, w: nat, s: seq<char>, ok: bool)
    requires IsHexConv(c) && w < TWO_32 && s == HexField(f, width, w) && ok == Readable(c, f, width, w)
    ensures Parse(s, 16) == if ok then (w, |s|) else (0, 0)
  {
    var d := Numeral(w, 16);
    var bad := f.minus && !f.zero && width - |Prefix(f)| - |d| > 0;
    assert ok == !bad by { HexReadable(c, f, width, w); }
    HexRoundTrip(f, width, d, w, s, bad);
  }

  lemma HexReadable(c: char, f: Flags, width: nat, w: nat)
    requires IsHexConv(c)
    ensures Readable(c, f, width, w) <==> !(f.minus && !f.zero && width - |Prefix(f)| - |Numeral(w, 16)| > 0)
  {
  }

  lemma RoundTripUnsigned(c: char, f: Flags, width: nat, w: nat, s: seq<char>, base: nat, ok: bool)
    requires IsUnsignedConv(c) && w < TWO_32 && base == Radix(c)
    requires s == UnsignedField(f, width, Numeral(w, base)) && ok == Readable(c, f, width, w)
    ensures Parse(s, base) == if ok then (w, |s|) else (0, 0)
  {
    var d := Numeral(w, base);
    assert ok <==> !(f.minus && !f.zero && width > |d|);
    assert w % TWO_32 == w;
    UnsignedRoundTrip(f, width, d, w, base);
  }

  /** The same for `sprintf`: a format of one integer conversion. */
  lemma SprintfStrtoul(fmt: seq<char>, w: nat)
    requires w < TWO_32 && |fmt| >= 2 && fmt[0] == '%'
    requires DirectiveAt(fmt, 1).at == |fmt| - 1 && IsInteger(fmt[|fmt| - 1])
    ensures Formattable(fmt, 0, [Word(w)])
    ensures var c, d, s := fmt[|fmt| - 1], DirectiveAt(fmt, 1), Formatted(fmt, 0, [Word(w)]);
            && Parse(s, Radix(c)) == (if Readable(c, d.flags, d.width, w) then (w, |s|) else (0, 0))
            && (Parse(s, Radix(c)).0 == w <==> Readable(c, d.flags, d.width, w) || w == 0)
  {
    var c, d := fmt[|fmt| - 1], DirectiveAt(fmt, 1);
    OnePrints(fmt, d, c, Word(w), 0);
    RoundTrip(c, d.flags, d.width, w);
  }

  /** And for every conversion as it is written. */
  lemma WrittenRoundTrip(d: Written, c: char, base: int, w: nat)
    requires d.Valid() && ReadIn(c, base) && w < TWO_32
    ensures AllDigits(d.width, 10) && Formattable(Whole(d, c), 0, [Word(w)])
    ensures var s := Formatted(Whole(d, c), 0, [Word(w)]);
            Parse(s, base) ==
            if Readable(c, FlagsOf(d.flags), Value(d.width, 10), w) then (w, |s|) else (0, 0)
  {
    ConversionPrints(d, c, Word(w), 0);
    RoundTripBases(c, base, FlagsOf(d.flags), Value(d.width, 10), w);
  }

  // ---------- The shapes of a printed number ----------

  ghost predicate AllAre(s: seq<char>, c: char) { forall i :: 0 <= i < |s| ==> s[i] == c }

  lemma {:induction false} SkipsBlanks(pre: seq<char>, core: seq<char>, i: nat)
    requires AllAre(pre, ' ') && i <= |pre| && core != [] && !Blank(core[0])
    ensures SkipBlanks(pre + core, i) == |pre|
    decreases |pre| - i
  {
    if i < |pre| {
      assert (pre + core)[i] == ' ';
      SkipsBlanks(pre, core, i + 1);
    } else {
      assert (pre + core)[i] == core[0];
    }
  }

  /** Leading spaces, a minus sign or a prefix, and then no blank and nothing like a prefix. */
  lemma HeadOfShape(pre: seq<char>, mark: seq<char>, t: seq<char>, base: nat)
    requires AllAre(pre, ' ') && t != [] && '0' <= t[0] <= 'Z'
    requires base == 16 ==> forall i :: 0 <= i < |t| ==> t[i] != 'x' && t[i] != 'X'
    requires 2 <= base <= 36 && (mark == [] || mark == "-" || (mark == "0x" && base == 16))
    ensures var s := pre + (mark + t);
            HeadOf(s, base) == Head(base, mark == "-", |pre| + |mark|) && s[|pre| + |mark|..] == t
  {
    var core := mark + t;
    var s := pre + core;
    assert core[0] == if mark == [] then t[0] else mark[0];
    SkipsBlanks(pre, core, 0);
    assert s[|pre|] == core[0];
    assert |s| == |pre| + |core| && SkipBlanks(s, 0) == |pre|;
    if |core| > 1 {
      assert s[|pre| + 1] == core[1];
    }
    if mark == [] {
      assert core == t;
    } else if mark == "0x" {
      assert core[0] == '0' && core[1] == 'x';
    }
    assert s[|pre| + |mark|..] == t;
  }

  /** A text of digits with the value `n`, and with no letter that could be taken for a prefix. */
  ghost predicate Denotes(d: seq<char>, n: nat, base: nat) {
    && d != [] && AllDigits(d, base) && Value(d, base) == n
    && (forall i :: 0 <= i < |d| ==> '0' <= d[i] <= 'Z')
    && (base == 16 ==> forall i :: 0 <= i < |d| ==> d[i] != 'x' && d[i] != 'X')
  }

  lemma NumeralDenotes(n: nat, base: nat)
    requires 2 <= base <= 36
    ensures Denotes(Numeral(n, base), n, base)
  {
    var d := Numeral(n, base);
    NumeralChars(n, base);
    NumeralValue(n, base);
    if base == 16 {
      forall i | 0 <= i < |d| ensures d[i] != 'x' && d[i] != 'X' {
        assert DigitOf(d[i], 16);
      }
    }
  }

  /** Padding, a minus sign or a prefix, zeros, digits, padding. */
  lemma ParsesShape(pre: seq<char>, mark: seq<char>, z: seq<char>, d: seq<char>, n: nat, tail: seq<char>, base: nat)
    requires AllAre(pre, ' ') && AllAre(z, '0') && AllAre(tail, ' ') && Denotes(d, n, base)
    requires 2 <= base <= 36 && (mark == [] || mark == "-" || (mark == "0x" && base == 16))
    ensures var s := pre + (mark + (z + d + tail));
            Parse(s, base) == if tail == [] then (Signed(mark == "-", n) % TWO_32, |s|) else (0, 0)
  {
    var t := z + d + tail;
    ShapeChars(z, d, n, tail, base);
    HeadOfShape(pre, mark, t, base);
    ShapeValue(z, d, n, tail, base);
  }

  lemma ShapeChars(z: seq<char>, d: seq<char>, n: nat, tail: seq<char>, base: nat)
    requires AllAre(z, '0') && AllAre(tail, ' ') && Denotes(d, n, base)
    ensures var t := z + d + tail;
            && t != [] && '0' <= t[0] <= 'Z'
            && (base == 16 ==> forall i :: 0 <= i < |t| ==> t[i] != 'x' && t[i] != 'X')
  {
    var t := z + d + tail;
    assert t[0] == if z == [] then d[0] else z[0];
    if base == 16 {
      forall i | 0 <= i < |t| ensures t[i] != 'x' && t[i] != 'X' {
        assert t[i] == if i < |z| then z[i] else if i < |z| + |d| then d[i - |z|] else tail[i - |z| - |d|];
      }
    }
  }

  lemma ShapeValue(z: seq<char>, d: seq<char>, n: nat, tail: seq<char>, base: nat)
    requires AllAre(z, '0') && AllAre(tail, ' ') && 2 <= base <= 36 && Denotes(d, n, base)
    ensures var t := z + d + tail;
            if tail == [] then AllDigits(t, base) && Value(t, base) == n else !AllDigits(t, base)
  {
    var t := z + d + tail;
    if tail == [] {
      LeadingZeros(z, d, base);
      assert t == z + d;
    } else {
      assert t[|t| - 1] == ' ';
    }
  }

  /** A plus sign stops the parser. */
  lemma PlusFails(pre: seq<char>, rest: seq<char>, base: nat)
    requires AllAre(pre, ' ') && 2 <= base <= 36
    ensures Parse(pre + ("+" + rest), base) == (0, 0)
  {
    var core := "+" + rest;
    var s := pre + core;
    SkipsBlanks(pre, core, 0);
    assert s[|pre|] == '+';
    assert s[|pre|..][0] == '+';
  }

  function Lead(f: Flags, room: int): seq<char> { if f.zero || f.minus then [] else Fill(' ', room) }

  function Zeros(f: Flags, room: int): seq<char> { if f.zero then Fill('0', room) else [] }

  /** Padding, sign and digits in the order of the fields above. */
  lemma HeadShape(f: Flags, width: nat, sign: seq<char>, d: seq<char>, tail: seq<char>)
    ensures var room := width - |sign| - |d|;
            SignedHead(f, width, sign, |d|) + d + tail == Lead(f, room) + (sign + (Zeros(f, room) + d + tail))
  {
  }

  lemma HexHeadShape(f: Flags, width: nat, d: seq<char>, tail: seq<char>)
    ensures HexHead(f, width, |d|) + d + tail ==
            Lead(f, width - |Prefix(f)| - |d|) + (Prefix(f) + (Zeros(f, width - |d|) + d + tail))
  {
  }

  lemma Paddings(f: Flags, room: int, room': int)
    ensures AllAre(Lead(f, room), ' ') && AllAre(Zeros(f, room'), '0') && AllAre(Tail(f, room), ' ')
    ensures Tail(f, room) == [] <==> !(f.minus && !f.zero && room > 0)
  {
  }

  /** A space for a sign is one more leading space. */
  lemma SpaceShape(lead: seq<char>, t: seq<char>)
    requires AllAre(lead, ' ')
    ensures lead + (" " + t) == (lead + " ") + ([] + t) && AllAre(lead + " ", ' ')
  {
  }

  lemma SignedShapeParses(f: Flags, width: nat, sign: seq<char>, d: seq<char>, n: nat)
    requires Denotes(d, n, 10) && (sign == [] || sign == "-" || sign == "+" || sign == " ")
    ensures var room := width - |sign| - |d|;
            var s := SignedHead(f, width, sign, |d|) + d + Tail(f, room);
            Parse(s, 10) == if sign == "+" || (f.minus && !f.zero && room > 0) then (0, 0)
                            else (Signed(sign == "-", n) % TWO_32, |s|)
  {
    var room := width - |sign| - |d|;
    var lead, z, tail := Lead(f, room), Zeros(f, room), Tail(f, room);
    HeadShape(f, width, sign, d, tail);
    Paddings(f, room, room);
    if sign == "+" {
      PlusFails(lead, z + d + tail, 10);
    } else if sign == " " {
      SpaceShape(lead, z + d + tail);
      ParsesShape(lead + " ", [], z, d, n, tail, 10);
    } else {
      ParsesShape(lead, sign, z, d, n, tail, 10);
    }
  }

  lemma UnsignedShapeParses(f: Flags, width: nat, d: seq<char>, n: nat, base: nat)
    requires 2 <= base <= 36 && Denotes(d, n, base)
    ensures var s := UnsignedField(f, width, d);
            Parse(s, base) == if f.minus && !f.zero && width > |d| then (0, 0) else (n % TWO_32, |s|)
  {
    var room := width - |d|;
    var lead, z, tail := Lead(f, room), Zeros(f, room), Tail(f, room);
    HeadShape(f, width, [], d, tail);
    Paddings(f, room, room);
    ParsesShape(lead, [], z, d, n, tail, base);
  }

  lemma HexShapeParses(f: Flags, width: nat, d: seq<char>, n: nat)
    requires Denotes(d, n, 16)
    ensures var room := width - |Prefix(f)| - |d|;
            var s := HexHead(f, width, |d|) + d + Tail(f, room);
            Parse(s, 16) == if f.minus && !f.zero && room > 0 then (0, 0) else (n % TWO_32, |s|)
  {
    var room := width - |Prefix(f)| - |d|;
    var lead, z, tail := Lead(f, room), Zeros(f, width - |d|), Tail(f, room);
    HexHeadShape(f, width, d, tail);
    Paddings(f, room, width - |d|);
    if f.pound {
      ParsesShape(lead, "0x", z, d, n, tail, 16);
    } else {
      ParsesShape(lead, [], z, d, n, tail, 16);
    }
  }

  // The same for numerals, with nothing about their digits left in sight.

  lemma SignedRoundTrip(f: Flags, width: nat, sign: seq<char>, d: seq<char>, n: nat)
    requires d == Numeral(n, 10) && (sign == [] || sign == "-" || sign == "+" || sign == " ")
    ensures var room := width - |sign| - |d|;
            var s := SignedHead(f, width, sign, |d|) + d + Tail(f, room);
            Parse(s, 10) == if sign == "+" || (f.minus && !f.zero && room > 0) then (0, 0)
                            else (Signed(sign == "-", n) % TWO_32, |s|)
  {
    NumeralDenotes(n, 10);
    SignedShapeParses(f, width, sign, d, n);
  }

  lemma UnsignedRoundTrip(f: Flags, width: nat, d: seq<char>, n: nat, base: nat)
    requires 2 <= base <= 36 && d == Numeral(n, base)
    ensures var s := UnsignedField(f, width, d);
            Parse(s, base) == if f.minus && !f.zero && width > |d| then (0, 0) else (n % TWO_32, |s|)
  {
    NumeralDenotes(n, base);
    UnsignedShapeParses(f, width, d, n, base);
  }

  lemma HexRoundTrip(f: Flags, width: nat, d: seq<char>, n: nat, s: seq<char>, bad: bool)
    requires n < TWO_32 && d == Numeral(n, 16)
    requires s == HexHead(f, width, |d|) + d + Tail(f, width - |Prefix(f)| - |d|)
    requires bad == (f.minus && !f.zero && width - |Prefix(f)| - |d| > 0)
    ensures Parse(s, 16) == if bad then (0, 0) else (n, |s|)
  {
    NumeralDenotes(n, 16);
    assert n % TWO_32 == n;
    HexShapeParses(f, width, d, n);
  }
}
