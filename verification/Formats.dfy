/** How a format is read: each conversion by itself, formats one after the other, and where a field has its
    padding. */
module Formats {
  import opened Common
  import opened Numerals
  import opened Printf

  // ---------- One conversion ----------

  ghost predicate AllFlags(s: seq<char>) { forall i :: 0 <= i < |s| ==> IsFlag(s[i]) }

  ghost predicate Decimal(s: seq<char>) { forall i :: 0 <= i < |s| ==> IsDigit(s[i]) }

  predicate IsLength(c: char) { c == 'h' || c == 'l' || c == 'L' }

  /** A conversion as it is written: flags, a width that does not begin with 0, a precision, a length. */
  datatype Written = Written(flags: seq<char>, width: seq<char>, precision: Option<seq<char>>, length: Option<char>) {
    ghost predicate Valid() {
      && AllFlags(flags) && Decimal(width) && (width != [] ==> width[0] != '0')
      && (precision.Some? ==> Decimal(precision.value)) && (length.Some? ==> IsLength(length.value))
    }

    function Dot(): seq<char> { if precision.Some? then "." + precision.value else [] }

    function Size(): seq<char> { if length.Some? then [length.value] else [] }

    function Text(): seq<char> { flags + width + Dot() + Size() }

    /** The character `c` behind it does not continue it. */
    predicate EndsAt(c: char) {
      length.None? ==>
        && !IsDigit(c) && !IsLength(c)
        && (precision.None? ==> c != '.' && (width == [] ==> !IsFlag(c)))
    }
  }

  /** The flags that occur in `s`, in any order and any number. */
  function FlagsOf(s: seq<char>): Flags { Flags('-' in s, '+' in s, ' ' in s, '0' in s, '#' in s) }

  function Both(f: Flags, g: Flags): Flags {
    Flags(f.minus || g.minus, f.plus || g.plus, f.space || g.space, f.zero || g.zero, f.pound || g.pound)
  }

  /** `s` stands at position `p` of the format. */
  ghost predicate StandsAt(fmt: seq<char>, p: nat, s: seq<char>) {
    p + |s| <= |fmt| && fmt[p..p + |s|] == s
  }

  lemma {:induction false} FlagsRead(fmt: seq<char>, p: nat, s: seq<char>, f: Flags)
    requires StandsAt(fmt, p, s) && AllFlags(s) && !IsFlag(CharAt(fmt, p + |s|))
    ensures FlagsFrom(fmt, p, f) == (Both(f, FlagsOf(s)), p + |s|)
    decreases |s|
  {
    if s != [] {
      assert fmt[p] == s[0] && fmt[p + 1..p + |s|] == s[1..];
      FlagsRead(fmt, p + 1, s[1..], WithFlag(f, s[0]));
      OneMoreFlag(s, f);
    }
  }

  lemma OneMoreFlag(s: seq<char>, f: Flags)
    requires s != [] && IsFlag(s[0])
    ensures Both(WithFlag(f, s[0]), FlagsOf(s[1..])) == Both(f, FlagsOf(s))
  {
    assert s == [s[0]] + s[1..];
  }

  lemma DecimalValue(s: seq<char>)
    requires Decimal(s)
    ensures AllDigits(s, 10)
  {
  }

  lemma {:induction false} WidthRead(fmt: seq<char>, p: nat, s: seq<char>, k: nat)
    requires StandsAt(fmt, p, s) && Decimal(s) && k <= |s| && !IsDigit(CharAt(fmt, p + |s|))
    requires AllDigits(s, 10)
    ensures WidthFrom(fmt, p + k, Value(s[..k], 10)) == (Value(s, 10), p + |s|)
    decreases |s| - k
  {
    if k < |s| {
      assert fmt[p + k] == s[k];
      assert s[..k + 1] == s[..k] + [s[k]];
      ValueSnoc(s[..k], s[k], 10);
      WidthRead(fmt, p, s, k + 1);
    } else {
      assert s[..k] == s;
    }
  }

  lemma NumberRead(fmt: seq<char>, p: nat, s: seq<char>)
    requires StandsAt(fmt, p, s) && Decimal(s) && !IsDigit(CharAt(fmt, p + |s|))
    ensures AllDigits(s, 10) && WidthFrom(fmt, p, 0) == (Value(s, 10), p + |s|)
  {
    DecimalValue(s);
    WidthRead(fmt, p, s, 0);
  }

  /** Flags and width stand at `p`, and both end there. */
  ghost predicate FrontAt(fmt: seq<char>, p: nat, d: Written) {
    && StandsAt(fmt, p, d.flags) && !IsFlag(CharAt(fmt, p + |d.flags|))
    && StandsAt(fmt, p + |d.flags|, d.width) && !IsDigit(CharAt(fmt, p + |d.flags| + |d.width|))
  }

  lemma FrontReads(fmt: seq<char>, p: nat, d: Written)
    requires d.Valid() && FrontAt(fmt, p, d)
    ensures AllDigits(d.width, 10) && p + |d.flags| + |d.width| <= |fmt|
    ensures FlagsFrom(fmt, p, NO_FLAGS) == (FlagsOf(d.flags), p + |d.flags|)
    ensures WidthFrom(fmt, p + |d.flags|, 0) == (Value(d.width, 10), p + |d.flags| + |d.width|)
  {
    FlagsRead(fmt, p, d.flags, NO_FLAGS);
    NumberRead(fmt, p + |d.flags|, d.width);
  }

  /** Precision and length stand at `p`. */
  ghost predicate BackAt(fmt: seq<char>, p: nat, d: Written) {
    match d.precision
    case None => CharAt(fmt, p) != '.' && LengthAt(fmt, p, d.length)
    case Some(s) =>
      && CharAt(fmt, p) == '.' && StandsAt(fmt, p + 1, s) && !IsDigit(CharAt(fmt, p + 1 + |s|))
      && LengthAt(fmt, p + 1 + |s|, d.length)
  }

  ghost predicate LengthAt(fmt: seq<char>, p: nat, length: Option<char>) {
    p <= |fmt| && (IsLength(CharAt(fmt, p)) <==> length.Some?)
  }

  /** Where the conversion character is. */
  function BackEnd(fmt: seq<char>, p: nat): nat
    requires p <= |fmt|
  {
    if CharAt(fmt, p) == '.' then
      WidthBound(fmt, p + 1, 0);
      AfterLength(fmt, WidthFrom(fmt, p + 1, 0).1)
    else AfterLength(fmt, p)
  }

  lemma BackReads(fmt: seq<char>, p: nat, d: Written)
    requires p <= |fmt| && d.Valid() && BackAt(fmt, p, d)
    ensures BackEnd(fmt, p) == p + |d.Dot()| + |d.Size()|
  {
    if d.precision.Some? { NumberRead(fmt, p + 1, d.precision.value); }
  }

  lemma PartsRead(fmt: seq<char>, p: nat, f: Flags, p1: nat, width: nat, p2: nat)
    requires p <= |fmt| && p1 <= |fmt| && p2 <= |fmt|
    requires FlagsFrom(fmt, p, NO_FLAGS) == (f, p1) && WidthFrom(fmt, p1, 0) == (width, p2)
    ensures DirectiveAt(fmt, p) == Directive(f, width, BackEnd(fmt, p2))
  {
  }

  // The parts one behind the other; each ends where the next begins.

  /** What is written at `p`, and the character behind it. */
  lemma Stands(fmt: seq<char>, p: nat, a: seq<char>, s: seq<char>, b: seq<char>)
    requires fmt == a + s + b && |a| == p && b != []
    ensures StandsAt(fmt, p, s) && CharAt(fmt, p + |s|) == b[0]
  {
  }

  lemma WrittenFront(fmt: seq<char>, pre: seq<char>, d: Written, b: seq<char>)
    requires fmt == pre + d.flags + d.width + b
    requires d.Valid() && b != [] && !IsDigit(b[0]) && (d.width == [] ==> !IsFlag(b[0]))
    ensures FrontAt(fmt, |pre|, d)
  {
    var a, t := pre + d.flags, d.width + b;
    assert fmt == pre + d.flags + t by { Associative(a, d.width, b); }
    assert t[0] == if d.width != [] then d.width[0] else b[0];
    Stands(fmt, |pre|, pre, d.flags, t);
    Stands(fmt, |a|, a, d.width, b);
  }

  lemma WrittenBack(fmt: seq<char>, p: nat, a: seq<char>, d: Written, t: seq<char>)
    requires fmt == a + d.Dot() + t && p == |a| && d.Valid() && t != []
    requires IsLength(t[0]) <==> d.length.Some?
    requires if d.precision.Some? then !IsDigit(t[0]) else t[0] != '.'
    ensures BackAt(fmt, p, d)
  {
    if d.precision.Some? {
      var s := d.precision.value;
      assert a + ("." + s) + t == (a + ".") + s + t;
      Stands(fmt, p + 1, a + ".", s, t);
    } else {
      assert a + [] + t == a + t;
    }
  }

  /** What is written, in two parts: up to the width, and from the length on. */
  lemma Regroup(fmt: seq<char>, pre: seq<char>, d: Written, b: seq<char>) returns (a: seq<char>, t: seq<char>)
    requires fmt == pre + d.Text() + b && d.Valid() && b != [] && d.EndsAt(b[0])
    ensures a == pre + d.flags + d.width && |a| == |pre| + |d.flags| + |d.width| && fmt == a + d.Dot() + t
    ensures t != [] && (IsLength(t[0]) <==> d.length.Some?) && !IsDigit(t[0])
    ensures d.precision.None? ==> t[0] != '.' && (d.width == [] ==> !IsFlag(t[0]))
  {
    a, t := pre + d.flags + d.width, d.Size() + b;
  }

  lemma DotStart(d: Written, t: seq<char>)
    requires d.Valid() && t != [] && !IsDigit(t[0]) && (d.precision.None? && d.width == [] ==> !IsFlag(t[0]))
    ensures var u := d.Dot() + t;
            u != [] && !IsDigit(u[0]) && (d.width == [] ==> !IsFlag(u[0]))
  {
  }

  lemma WrittenAt(fmt: seq<char>, pre: seq<char>, d: Written, a: seq<char>, t: seq<char>)
    requires a == pre + d.flags + d.width && fmt == a + d.Dot() + t && d.Valid()
    requires t != [] && !IsDigit(t[0]) && (IsLength(t[0]) <==> d.length.Some?)
    requires d.precision.None? ==> t[0] != '.' && (d.width == [] ==> !IsFlag(t[0]))
    ensures FrontAt(fmt, |pre|, d) && BackAt(fmt, |a|, d)
  {
    WrittenBack(fmt, |a|, a, d, t);
    DotStart(d, t);
    Associative(a, d.Dot(), t);
    WrittenFront(fmt, pre, d, d.Dot() + t);
  }

  /** Every conversion is read as it is written: exactly the flags that occur in it, its width as a decimal
      number, and up to the character behind the length. */
  lemma DirectiveReads(pre: seq<char>, d: Written, c: char, rest: seq<char>)
    requires d.Valid() && d.EndsAt(c)
    ensures AllDigits(d.width, 10)
    ensures DirectiveAt(pre + d.Text() + ([c] + rest), |pre|) ==
            Directive(FlagsOf(d.flags), Value(d.width, 10), |pre| + |d.Text()|)
  {
    ReadsAt(pre + d.Text() + ([c] + rest), pre, d, [c] + rest);
  }

  lemma ReadsAt(fmt: seq<char>, pre: seq<char>, d: Written, b: seq<char>)
    requires fmt == pre + d.Text() + b && d.Valid() && b != [] && d.EndsAt(b[0])
    ensures AllDigits(d.width, 10)
    ensures DirectiveAt(fmt, |pre|) == Directive(FlagsOf(d.flags), Value(d.width, 10), |pre| + |d.Text()|)
  {
    var a, t := Regroup(fmt, pre, d, b);
    WrittenAt(fmt, pre, d, a, t);
    WrittenReads(fmt, |pre|, d);
  }

  lemma WrittenReads(fmt: seq<char>, p: nat, d: Written)
    requires d.Valid() && FrontAt(fmt, p, d) && BackAt(fmt, p + |d.flags| + |d.width|, d)
    ensures AllDigits(d.width, 10)
    ensures DirectiveAt(fmt, p) == Directive(FlagsOf(d.flags), Value(d.width, 10), p + |d.Text()|)
  {
    var p1 := p + |d.flags|;
    var p2 := p1 + |d.width|;
    FrontReads(fmt, p, d);
    BackReads(fmt, p2, d);
    PartsRead(fmt, p, FlagsOf(d.flags), p1, Value(d.width, 10), p2);
  }

  /** So every width but 0 can be written: as its usual numeral. */
  lemma WidthNumeral(w: nat)
    requires w > 0
    ensures var s := Numeral(w, 10);
            Decimal(s) && s[0] != '0' && AllDigits(s, 10) && Value(s, 10) == w
  {
    var s := Numeral(w, 10);
    NumeralValue(w, 10);
    NoLeadingZero(w, 10);
    forall i | 0 <= i < |s| ensures IsDigit(s[i]) { assert DigitOf(s[i], 10); }
  }


  // ---------- Formats one after the other ----------

  /** The arguments that the conversions from `p` on leave. */
  function Left(fmt: seq<char>, p: nat, args: seq<Arg>): seq<Arg>
    requires p <= |fmt| && Formattable(fmt, p, args)
    decreases |fmt| - p
  {
    if p == |fmt| then args
    else if fmt[p] != '%' then Left(fmt, p + 1, args)
    else
      var d := DirectiveAt(fmt, p + 1);
      Left(fmt, d.at + 1, if Takes(fmt[d.at]) then args[1..] else args)
  }

  // Nothing but the characters of the two formats matters: `a` is the front of the whole, and `b` is what is
  // behind position `n` of it.

  ghost predicate InFront(a: seq<char>, whole: seq<char>) {
    |a| <= |whole| && forall i :: 0 <= i < |a| ==> whole[i] == a[i]
  }

  ghost predicate Behind(b: seq<char>, whole: seq<char>, n: nat) {
    |whole| == n + |b| && forall i :: 0 <= i < |b| ==> whole[n + i] == b[i]
  }

  lemma {:induction false} FlagsInFront(a: seq<char>, whole: seq<char>, p: nat, f: Flags)
    requires InFront(a, whole) && p <= |a| && FlagsFrom(a, p, f).1 < |a|
    ensures FlagsFrom(whole, p, f) == FlagsFrom(a, p, f)
    decreases |a| - p
  {
    if p < |a| && IsFlag(a[p]) { FlagsInFront(a, whole, p + 1, WithFlag(f, a[p])); }
  }

  lemma {:induction false} WidthInFront(a: seq<char>, whole: seq<char>, p: nat, w: nat)
    requires InFront(a, whole) && p <= |a| && WidthFrom(a, p, w).1 < |a|
    ensures WidthFrom(whole, p, w) == WidthFrom(a, p, w)
    decreases |a| - p
  {
    if p < |a| && IsDigit(a[p]) { WidthInFront(a, whole, p + 1, w * 10 + (a[p] - '0') as int); }
  }

  /** What follows a conversion does not change how it is read. */
  lemma DirectiveInFront(a: seq<char>, whole: seq<char>, p: nat)
    requires InFront(a, whole) && p <= |a| && DirectiveAt(a, p).at < |a|
    ensures DirectiveAt(whole, p) == DirectiveAt(a, p)
  {
    FlagsBound(a, p, NO_FLAGS);
    var (f, p1) := FlagsFrom(a, p, NO_FLAGS);
    WidthBound(a, p1, 0);
    var (w, p2) := WidthFrom(a, p1, 0);
    PartsRead(a, p, f, p1, w, p2);
    BackInFront(a, whole, p2);
    WidthInFront(a, whole, p1, 0);
    FlagsInFront(a, whole, p, NO_FLAGS);
    PartsRead(whole, p, f, p1, w, p2);
  }

  lemma BackInFront(a: seq<char>, whole: seq<char>, p: nat)
    requires InFront(a, whole) && p <= |a| && BackEnd(a, p) < |a|
    ensures p < |a| && BackEnd(whole, p) == BackEnd(a, p)
  {
    if CharAt(a, p) == '.' {
      WidthBound(a, p + 1, 0);
      WidthInFront(a, whole, p + 1, 0);
    }
  }

  lemma {:induction false} FlagsBehind(b: seq<char>, whole: seq<char>, n: nat, p: nat, f: Flags)
    requires Behind(b, whole, n) && p <= |b|
    ensures FlagsFrom(whole, n + p, f) == (FlagsFrom(b, p, f).0, n + FlagsFrom(b, p, f).1)
    decreases |b| - p
  {
    if p < |b| && IsFlag(b[p]) { FlagsBehind(b, whole, n, p + 1, WithFlag(f, b[p])); }
  }

  lemma {:induction false} WidthBehind(b: seq<char>, whole: seq<char>, n: nat, p: nat, w: nat)
    requires Behind(b, whole, n) && p <= |b|
    ensures WidthFrom(whole, n + p, w) == (WidthFrom(b, p, w).0, n + WidthFrom(b, p, w).1)
    decreases |b| - p
  {
    if p < |b| && IsDigit(b[p]) { WidthBehind(b, whole, n, p + 1, w * 10 + (b[p] - '0') as int); }
  }

  lemma DirectiveBehind(b: seq<char>, whole: seq<char>, n: nat, p: nat)
    requires Behind(b, whole, n) && p <= |b|
    ensures var d := DirectiveAt(b, p);
            DirectiveAt(whole, n + p) == Directive(d.flags, d.width, n + d.at)
  {
    FlagsBound(b, p, NO_FLAGS);
    var (f, p1) := FlagsFrom(b, p, NO_FLAGS);
    WidthBound(b, p1, 0);
    var (w, p2) := WidthFrom(b, p1, 0);
    PartsRead(b, p, f, p1, w, p2);
    FlagsBehind(b, whole, n, p, NO_FLAGS);
    WidthBehind(b, whole, n, p1, 0);
    BackBehind(b, whole, n, p2);
    PartsRead(whole, n + p, f, n + p1, w, n + p2);
  }

  lemma BackBehind(b: seq<char>, whole: seq<char>, n: nat, p: nat)
    requires Behind(b, whole, n) && p <= |b|
    ensures BackEnd(whole, n + p) == n + BackEnd(b, p)
  {
    if CharAt(b, p) == '.' {
      WidthBound(b, p + 1, 0);
      WidthBehind(b, whole, n, p + 1, 0);
    }
  }

  /** One part of a format: from `p` to `q` it prints `text`, stores `puts`, and leaves the arguments `rest`. */
  ghost predicate Part(fmt: seq<char>, p: nat, q: nat, args: seq<Arg>, rest: seq<Arg>, count: nat,
                       text: seq<char>, puts: seq<nat>)
  {
    && p < q <= |fmt|
    && (Formattable(fmt, p, args) <==> Formattable(fmt, q, rest))
    && (Formattable(fmt, q, rest) ==>
          && Formatted(fmt, p, args) == text + Formatted(fmt, q, rest)
          && Stored(fmt, p, args, count) == puts + Stored(fmt, q, rest, count + |text|)
          && Left(fmt, p, args) == Left(fmt, q, rest))
  }

  lemma NothingStored(fmt: seq<char>, p: nat, args: seq<Arg>, count: nat)
    requires p <= |fmt| && Formattable(fmt, p, args)
    ensures Stored(fmt, p, args, count) == [] + Stored(fmt, p, args, count)
  {
  }

  function PlainText(c: char): seq<char> { if c == '\n' then ['\r', '\n'] else [c] }

  lemma PlainPart(fmt: seq<char>, p: nat, args: seq<Arg>, count: nat, text: seq<char>)
    requires p < |fmt| && fmt[p] != '%' && text == PlainText(fmt[p])
    ensures Part(fmt, p, p + 1, args, args, count, text, [])
  {
    if Formattable(fmt, p, args) { NothingStored(fmt, p, args, count); }
  }

  /** A conversion without argument. */
  predicate OtherAt(fmt: seq<char>, p: nat, d: Directive, c: char) {
    p < |fmt| && fmt[p] == '%' && d == DirectiveAt(fmt, p + 1) && d.at < |fmt| && fmt[d.at] == c && !Takes(c)
  }

  lemma OtherFormattable(fmt: seq<char>, p: nat, d: Directive, c: char, args: seq<Arg>)
    requires OtherAt(fmt, p, d, c)
    ensures Formattable(fmt, p, args) <==> Formattable(fmt, d.at + 1, args)
  {
  }

  lemma OtherLeaves(fmt: seq<char>, p: nat, d: Directive, c: char, args: seq<Arg>)
    requires OtherAt(fmt, p, d, c) && Formattable(fmt, p, args) && Formattable(fmt, d.at + 1, args)
    ensures Left(fmt, p, args) == Left(fmt, d.at + 1, args)
  {
  }

  lemma OtherPart(fmt: seq<char>, p: nat, d: Directive, c: char, args: seq<Arg>, count: nat, text: seq<char>)
    requires OtherAt(fmt, p, d, c) && text == [c]
    ensures Part(fmt, p, d.at + 1, args, args, count, text, [])
  {
    OtherFormattable(fmt, p, d, c, args);
    if Formattable(fmt, p, args) {
      ConversionStep(fmt, p, args, count);
      OtherLeaves(fmt, p, d, c, args);
      NothingStored(fmt, p, args, count);
    }
  }

  /** One that takes an argument. */
  predicate TakesAt(fmt: seq<char>, p: nat, d: Directive, c: char, args: seq<Arg>) {
    && p < |fmt| && fmt[p] == '%' && d == DirectiveAt(fmt, p + 1) && d.at < |fmt| && fmt[d.at] == c
    && Takes(c) && args != [] && Fits(c, args[0])
  }

  lemma TakingFormattable(fmt: seq<char>, p: nat, d: Directive, c: char, args: seq<Arg>)
    requires TakesAt(fmt, p, d, c, args)
    ensures Formattable(fmt, p, args) <==> Formattable(fmt, d.at + 1, args[1..])
  {
  }

  lemma TakingLeaves(fmt: seq<char>, p: nat, d: Directive, c: char, args: seq<Arg>)
    requires TakesAt(fmt, p, d, c, args) && Formattable(fmt, p, args) && Formattable(fmt, d.at + 1, args[1..])
    ensures Left(fmt, p, args) == Left(fmt, d.at + 1, args[1..])
  {
  }

  lemma TakingPart(fmt: seq<char>, p: nat, d: Directive, c: char, args: seq<Arg>, count: nat, field: seq<char>)
    requires TakesAt(fmt, p, d, c, args) && field == Field(c, d.flags, d.width, args[0])
    ensures Part(fmt, p, d.at + 1, args, args[1..], count, field, if c == 'n' then [count] else [])
  {
    TakingFormattable(fmt, p, d, c, args);
    if Formattable(fmt, p, args) {
      ConversionStep(fmt, p, args, count);
      TakingLeaves(fmt, p, d, c, args);
    }
  }

  /** From these positions on, both formats do the same with the same arguments. */
  ghost predicate Same(a: seq<char>, p: nat, b: seq<char>, q: nat, args: seq<Arg>, count: nat) {
    && p <= |a| && q <= |b| && (Formattable(a, p, args) <==> Formattable(b, q, args))
    && (Formattable(a, p, args) ==>
          Formatted(a, p, args) == Formatted(b, q, args) && Stored(a, p, args, count) == Stored(b, q, args, count))
  }

  lemma SameParts(a: seq<char>, p: nat, p': nat, b: seq<char>, q: nat, q': nat, args: seq<Arg>, rest: seq<Arg>,
                  count: nat, text: seq<char>, puts: seq<nat>)
    requires Part(a, p, p', args, rest, count, text, puts) && Part(b, q, q', args, rest, count, text, puts)
    requires Same(a, p', b, q', rest, count + |text|)
    ensures Same(a, p, b, q, args, count)
  {
  }

  lemma SameTaking(a: seq<char>, p: nat, d: Directive, b: seq<char>, q: nat, e: Directive, c: char,
                   args: seq<Arg>, count: nat, field: seq<char>)
    requires TakesAt(a, p, d, c, args) && TakesAt(b, q, e, c, args)
    requires field == Field(c, d.flags, d.width, args[0]) == Field(c, e.flags, e.width, args[0])
    requires Same(a, d.at + 1, b, e.at + 1, args[1..], count + |field|)
    ensures Same(a, p, b, q, args, count)
  {
    TakingPart(a, p, d, c, args, count, field);
    TakingPart(b, q, e, c, args, count, field);
    SameParts(a, p, d.at + 1, b, q, e.at + 1, args, args[1..], count, field, if c == 'n' then [count] else []);
  }

  lemma SamePlain(a: seq<char>, p: nat, b: seq<char>, q: nat, args: seq<Arg>, count: nat, text: seq<char>)
    requires p < |a| && q < |b| && a[p] == b[q] != '%' && text == PlainText(a[p])
    requires Same(a, p + 1, b, q + 1, args, count + |text|)
    ensures Same(a, p, b, q, args, count)
  {
    PlainPart(a, p, args, count, text);
    PlainPart(b, q, args, count, text);
    SameParts(a, p, p + 1, b, q, q + 1, args, args, count, text, []);
  }

  lemma SameOther(a: seq<char>, p: nat, d: Directive, b: seq<char>, q: nat, e: Directive, c: char,
                  args: seq<Arg>, count: nat, text: seq<char>)
    requires OtherAt(a, p, d, c) && OtherAt(b, q, e, c) && text == [c]
    requires Same(a, d.at + 1, b, e.at + 1, args, count + |text|)
    ensures Same(a, p, b, q, args, count)
  {
    OtherPart(a, p, d, c, args, count, text);
    OtherPart(b, q, e, c, args, count, text);
    SameParts(a, p, d.at + 1, b, q, e.at + 1, args, args, count, text, []);
  }

  /** What precedes a format does not change it. */
  lemma {:induction false} FormatBehind(b: seq<char>, whole: seq<char>, n: nat, p: nat, args: seq<Arg>, count: nat)
    requires Behind(b, whole, n) && p <= |b|
    ensures Same(b, p, whole, n + p, args, count)
    decreases |b| - p, 2
  {
    if p < |b| {
      if b[p] != '%' {
        FormatBehind(b, whole, n, p + 1, args, count + |PlainText(b[p])|);
        SamePlain(b, p, whole, n + p, args, count, PlainText(b[p]));
      } else {
        DirectiveBehind(b, whole, n, p + 1);
        if DirectiveAt(b, p + 1).at < |b| {
          ConversionBehind(b, whole, n, p, DirectiveAt(b, p + 1), args, count);
        }
      }
    }
  }

  lemma ConversionBehind(b: seq<char>, whole: seq<char>, n: nat, p: nat, d: Directive, args: seq<Arg>, count: nat)
    requires Behind(b, whole, n) && p < |b| && b[p] == '%' && d == DirectiveAt(b, p + 1) && d.at < |b|
    requires DirectiveAt(whole, n + p + 1) == Directive(d.flags, d.width, n + d.at)
    ensures Same(b, p, whole, n + p, args, count)
    decreases |b| - p, 1
  {
    var c, e := b[d.at], Directive(d.flags, d.width, n + d.at);
    if !Takes(c) {
      FormatBehind(b, whole, n, d.at + 1, args, count + 1);
      SameOther(b, p, d, whole, n + p, e, c, args, count, [c]);
    } else if args != [] && Fits(c, args[0]) {
      TakingBehind(b, whole, n, p, d, e, c, args, count);
    }
  }

  lemma TakingBehind(b: seq<char>, whole: seq<char>, n: nat, p: nat, d: Directive, e: Directive, c: char,
                     args: seq<Arg>, count: nat)
    requires Behind(b, whole, n) && TakesAt(b, p, d, c, args) && TakesAt(whole, n + p, e, c, args)
    requires e == Directive(d.flags, d.width, n + d.at)
    ensures Same(b, p, whole, n + p, args, count)
    decreases |b| - p, 0
  {
    var field := Field(c, d.flags, d.width, args[0]);
    FormatBehind(b, whole, n, d.at + 1, args[1..], count + |field|);
    SameTaking(b, p, d, whole, n + p, e, c, args, count, field);
  }

  /** From `p` on, `ab` prints what `a` prints and then what `b` prints with the arguments that are left;
      and the counts that `b` stores include the text of `a`. */
  ghost predicate Joined(a: seq<char>, b: seq<char>, ab: seq<char>, p: nat, args: seq<Arg>, count: nat)
    requires p <= |a| && Formattable(a, p, args)
  {
    var left := Left(a, p, args);
    && p <= |ab| && (Formattable(ab, p, args) <==> Formattable(b, 0, left))
    && (Formattable(b, 0, left) ==>
          && Formatted(ab, p, args) == Formatted(a, p, args) + Formatted(b, 0, left)
          && Stored(ab, p, args, count)
             == Stored(a, p, args, count) + Stored(b, 0, left, count + |Formatted(a, p, args)|))
  }

  lemma JoinedParts(a: seq<char>, b: seq<char>, ab: seq<char>, p: nat, q: nat, args: seq<Arg>, rest: seq<Arg>,
                    count: nat, text: seq<char>, puts: seq<nat>)
    requires Part(a, p, q, args, rest, count, text, puts) && Part(ab, p, q, args, rest, count, text, puts)
    requires Formattable(a, p, args) && Joined(a, b, ab, q, rest, count + |text|)
    ensures Joined(a, b, ab, p, args, count)
  {
    var left := Left(a, q, rest);
    if Formattable(b, 0, left) {
      var n := count + |text|;
      Associative(text, Formatted(a, q, rest), Formatted(b, 0, left));
      Associative(puts, Stored(a, q, rest, n), Stored(b, 0, left, n + |Formatted(a, q, rest)|));
    }
  }

  lemma JoinedEnd(a: seq<char>, b: seq<char>, ab: seq<char>, args: seq<Arg>, count: nat)
    requires Same(b, 0, ab, |a|, args, count)
    ensures Joined(a, b, ab, |a|, args, count)
  {
    assert Formatted(a, |a|, args) == [] && Stored(a, |a|, args, count) == [];
  }

  lemma JoinedPlain(a: seq<char>, b: seq<char>, ab: seq<char>, p: nat, args: seq<Arg>, count: nat, text: seq<char>)
    requires p < |a| && p < |ab| && a[p] == ab[p] != '%' && text == PlainText(a[p])
    requires Formattable(a, p, args) && Formattable(a, p + 1, args)
    requires Joined(a, b, ab, p + 1, args, count + |text|)
    ensures Joined(a, b, ab, p, args, count)
  {
    PlainPart(a, p, args, count, text);
    PlainPart(ab, p, args, count, text);
    JoinedParts(a, b, ab, p, p + 1, args, args, count, text, []);
  }

  lemma JoinedTaking(a: seq<char>, b: seq<char>, ab: seq<char>, p: nat, d: Directive, c: char,
                     args: seq<Arg>, count: nat, field: seq<char>)
    requires TakesAt(a, p, d, c, args) && TakesAt(ab, p, d, c, args) && field == Field(c, d.flags, d.width, args[0])
    requires Formattable(a, p, args) && Formattable(a, d.at + 1, args[1..])
    requires Joined(a, b, ab, d.at + 1, args[1..], count + |field|)
    ensures Joined(a, b, ab, p, args, count)
  {
    TakingPart(a, p, d, c, args, count, field);
    TakingPart(ab, p, d, c, args, count, field);
    JoinedParts(a, b, ab, p, d.at + 1, args, args[1..], count, field, if c == 'n' then [count] else []);
  }

  lemma JoinedOther(a: seq<char>, b: seq<char>, ab: seq<char>, p: nat, d: Directive, c: char,
                    args: seq<Arg>, count: nat, text: seq<char>)
    requires OtherAt(a, p, d, c) && OtherAt(ab, p, d, c) && text == [c]
    requires Formattable(a, p, args) && Formattable(a, d.at + 1, args)
    requires Joined(a, b, ab, d.at + 1, args, count + |text|)
    ensures Joined(a, b, ab, p, args, count)
  {
    OtherPart(a, p, d, c, args, count, text);
    OtherPart(ab, p, d, c, args, count, text);
    JoinedParts(a, b, ab, p, d.at + 1, args, args, count, text, []);
  }

  lemma {:induction false} JoinsFrom(a: seq<char>, b: seq<char>, ab: seq<char>, p: nat, args: seq<Arg>, count: nat)
    requires InFront(a, ab) && Behind(b, ab, |a|) && p <= |a| && Formattable(a, p, args)
    ensures Joined(a, b, ab, p, args, count)
    decreases |a| - p, 2
  {
    if p == |a| {
      FormatBehind(b, ab, |a|, 0, args, count);
      JoinedEnd(a, b, ab, args, count);
    } else if a[p] != '%' {
      PlainJoins(a, b, ab, p, args, count, PlainText(a[p]));
    } else {
      DirectiveInFront(a, ab, p + 1);
      ConversionJoins(a, b, ab, p, DirectiveAt(a, p + 1), args, count);
    }
  }

  lemma PlainJoins(a: seq<char>, b: seq<char>, ab: seq<char>, p: nat, args: seq<Arg>, count: nat, text: seq<char>)
    requires InFront(a, ab) && Behind(b, ab, |a|) && p < |a| && a[p] != '%' && Formattable(a, p, args)
    requires text == PlainText(a[p])
    ensures Joined(a, b, ab, p, args, count)
    decreases |a| - p, 1
  {
    JoinsFrom(a, b, ab, p + 1, args, count + |text|);
    JoinedPlain(a, b, ab, p, args, count, text);
  }

  lemma ConversionJoins(a: seq<char>, b: seq<char>, ab: seq<char>, p: nat, d: Directive, args: seq<Arg>, count: nat)
    requires InFront(a, ab) && Behind(b, ab, |a|)
    requires p < |a| && a[p] == '%' && d == DirectiveAt(a, p + 1) == DirectiveAt(ab, p + 1) && d.at < |a|
    requires Formattable(a, p, args)
    ensures Joined(a, b, ab, p, args, count)
    decreases |a| - p, 1
  {
    if Takes(a[d.at]) {
      TakingJoins(a, b, ab, p, d, a[d.at], args, count);
    } else {
      OtherJoins(a, b, ab, p, d, a[d.at], args, count);
    }
  }

  lemma TakingJoins(a: seq<char>, b: seq<char>, ab: seq<char>, p: nat, d: Directive, c: char,
                    args: seq<Arg>, count: nat)
    requires InFront(a, ab) && Behind(b, ab, |a|) && TakesAt(a, p, d, c, args) && TakesAt(ab, p, d, c, args)
    requires Formattable(a, p, args)
    ensures Joined(a, b, ab, p, args, count)
    decreases |a| - p, 0
  {
    var field := Field(c, d.flags, d.width, args[0]);
    TakingFormattable(a, p, d, c, args);
    JoinsFrom(a, b, ab, d.at + 1, args[1..], count + |field|);
    JoinedTaking(a, b, ab, p, d, c, args, count, field);
  }

  lemma OtherJoins(a: seq<char>, b: seq<char>, ab: seq<char>, p: nat, d: Directive, c: char,
                   args: seq<Arg>, count: nat)
    requires InFront(a, ab) && Behind(b, ab, |a|) && OtherAt(a, p, d, c) && OtherAt(ab, p, d, c)
    requires Formattable(a, p, args)
    ensures Joined(a, b, ab, p, args, count)
    decreases |a| - p, 0
  {
    OtherFormattable(a, p, d, c, args);
    JoinsFrom(a, b, ab, d.at + 1, args, count + 1);
    JoinedOther(a, b, ab, p, d, c, args, count, [c]);
  }

  /** Two formats behind one another print one text behind the other. */
  lemma FormatsJoin(a: seq<char>, b: seq<char>, args: seq<Arg>, count: nat)
    requires Formattable(a, 0, args)
    ensures Joined(a, b, a + b, 0, args, count)
  {
    JoinsFrom(a, b, a + b, 0, args, count);
  }

  // ---------- What a format of one part prints ----------

  function Whole(d: Written, c: char): seq<char> { "%" + d.Text() + [c] }

  lemma WholeReads(d: Written, c: char)
    requires d.Valid() && d.EndsAt(c)
    ensures var fmt := Whole(d, c);
            && |fmt| == |d.Text()| + 2 && fmt[0] == '%' && fmt[|fmt| - 1] == c && AllDigits(d.width, 10)
            && DirectiveAt(fmt, 1) == Directive(FlagsOf(d.flags), Value(d.width, 10), |fmt| - 1)
  {
    DirectiveReads("%", d, c, []);
    assert "%" + d.Text() + ([c] + []) == Whole(d, c);
  }

  /** A conversion prints its argument with the flags and the width that are written; one without argument
      prints its last character, whatever is written before it. */
  lemma ConversionPrints(d: Written, c: char, a: Arg, count: nat)
    requires d.Valid() && d.EndsAt(c) && (Takes(c) ==> Fits(c, a))
    ensures var fmt, args := Whole(d, c), if Takes(c) then [a] else [];
            && AllDigits(d.width, 10) && Formattable(fmt, 0, args) && Left(fmt, 0, args) == []
            && Formatted(fmt, 0, args) == Field(c, FlagsOf(d.flags), Value(d.width, 10), a)
            && Stored(fmt, 0, args, count) == if c == 'n' then [count] else []
  {
    WholeReads(d, c);
    OnePrints(Whole(d, c), DirectiveAt(Whole(d, c), 1), c, a, count);
  }

  lemma OnePrints(fmt: seq<char>, d: Directive, c: char, a: Arg, count: nat)
    requires |fmt| >= 2 && fmt[0] == '%' && DirectiveAt(fmt, 1) == d && d.at == |fmt| - 1 && fmt[d.at] == c
    requires Takes(c) ==> Fits(c, a)
    ensures var args := if Takes(c) then [a] else [];
            && Formattable(fmt, 0, args) && Left(fmt, 0, args) == []
            && Formatted(fmt, 0, args) == Field(c, d.flags, d.width, a)
            && Stored(fmt, 0, args, count) == if c == 'n' then [count] else []
  {
    assert Formattable(fmt, |fmt|, []) && Formatted(fmt, |fmt|, []) == [];
    if Takes(c) {
      var field := Field(c, d.flags, d.width, a);
      assert [a][1..] == [];
      TakingPart(fmt, 0, d, c, [a], count, field);
      assert field + [] == field;
    } else {
      OtherPart(fmt, 0, d, c, [], count, [c]);
    }
  }

  /** Any other character prints itself, a line feed with a carriage return before it. */
  lemma CharacterPrints(c: char, args: seq<Arg>, count: nat)
    requires c != '%'
    ensures Formattable([c], 0, args) && Left([c], 0, args) == args && Stored([c], 0, args, count) == []
    ensures Formatted([c], 0, args) == if c == '\n' then ['\r', '\n'] else [c]
  {
    assert Formattable([c], 1, args) && Formatted([c], 1, args) == [];
  }

  // ---------- Where the padding is ----------

  /** `s` ends with `core` and is otherwise blank, or begins with it. */
  ghost predicate AtRight(s: seq<char>, core: seq<char>) {
    && |s| >= |core| && s[|s| - |core|..] == core
    && forall i :: 0 <= i < |s| - |core| ==> s[i] == ' '
  }

  ghost predicate AtLeft(s: seq<char>, core: seq<char>) {
    && |s| >= |core| && s[..|core|] == core
    && forall i :: |core| <= i < |s| ==> s[i] == ' '
  }

  /** Zeros between the sign or prefix and the digits. */
  ghost predicate ZeroFilled(s: seq<char>, head: seq<char>, digits: seq<char>) {
    && |s| >= |head| + |digits| && s[..|head|] == head && s[|s| - |digits|..] == digits
    && forall i :: |head| <= i < |s| - |digits| ==> s[i] == '0'
  }

  ghost predicate Filled(s: seq<char>, f: Flags, head: seq<char>, digits: seq<char>) {
    if f.zero then ZeroFilled(s, head, digits)
    else if f.minus then AtLeft(s, head + digits)
    else AtRight(s, head + digits)
  }

  lemma ZerosBetween(head: seq<char>, n: int, digits: seq<char>)
    ensures ZeroFilled(head + Fill('0', n) + digits + [], head, digits)
  {
  }

  lemma BlanksBehind(head: seq<char>, digits: seq<char>, n: int)
    ensures AtLeft(head + digits + Fill(' ', n), head + digits)
  {
  }

  lemma BlanksBefore(head: seq<char>, digits: seq<char>, n: int)
    ensures AtRight(Fill(' ', n) + head + digits + [], head + digits)
  {
    assert Fill(' ', n) + head + digits + [] == Fill(' ', n) + (head + digits);
  }

  lemma AroundFilled(f: Flags, width: nat, sign: seq<char>, digits: seq<char>)
    ensures Filled(SignedHead(f, width, sign, |digits|) + digits + Tail(f, width - |sign| - |digits|), f, sign, digits)
  {
    var room := width - |sign| - |digits|;
    ZerosBetween(sign, room, digits);
    BlanksBehind(sign, digits, room);
    BlanksBefore(sign, digits, room);
  }

  lemma HexAroundFilled(f: Flags, width: nat, digits: seq<char>)
    ensures Filled(HexHead(f, width, |digits|) + digits + Tail(f, width - |Prefix(f)| - |digits|), f, Prefix(f), digits)
  {
    var room := width - |Prefix(f)| - |digits|;
    ZerosBetween(Prefix(f), width - |digits|, digits);
    BlanksBehind(Prefix(f), digits, room);
    BlanksBefore(Prefix(f), digits, room);
  }

  /** %d and %i: the sign of the number, else the one asked for, a plus before a space. */
  lemma SignedFilled(c: char, f: Flags, width: nat, w: nat)
    requires (c == 'd' || c == 'i') && w < TWO_32
    ensures var s := IntegerField(c, f, width, w);
            if w >= 0x8000_0000 then Filled(s, f, "-", Numeral(0x1_0000_0000 - w, 10))
            else Filled(s, f, if f.plus then "+" else if f.space then " " else "", Numeral(w, 10))
  {
    AroundFilled(f, width, Sign(f, AsSigned(w)), Numeral(Magnitude(AsSigned(w)), 10));
  }

  // The unsigned conversions in their bases, without any prefix.

  lemma DecimalFilled(f: Flags, width: nat, w: nat)
    ensures Filled(IntegerField('u', f, width, w), f, "", Numeral(w, 10))
  {
    AroundFilled(f, width, [], Numeral(w, 10));
  }

  lemma OctalFilled(f: Flags, width: nat, w: nat)
    ensures Filled(IntegerField('o', f, width, w), f, "", Numeral(w, 8))
  {
    AroundFilled(f, width, [], Numeral(w, 8));
  }

  lemma BinaryFilled(f: Flags, width: nat, w: nat)
    ensures Filled(IntegerField('b', f, width, w), f, "", Numeral(w, 2))
  {
    AroundFilled(f, width, [], Numeral(w, 2));
  }

  lemma PointerFilled(f: Flags, width: nat, w: nat)
    ensures Filled(IntegerField('p', f, width, w), f, "", Numeral(w, 16))
  {
    AroundFilled(f, width, [], Numeral(w, 16));
  }

  /** %x and %X with a prefix on demand. */
  lemma HexFilled(c: char, f: Flags, width: nat, w: nat)
    requires c == 'x' || c == 'X'
    ensures Filled(IntegerField(c, f, width, w), f, if f.pound then "0x" else "", Numeral(w, 16))
  {
    HexAroundFilled(f, width, Numeral(w, 16));
  }

  /** %c prints the low byte, and %n and a null string print nothing, in any width. */
  lemma CharacterField(f: Flags, width: nat, w: nat)
    requires w < TWO_32
    ensures w < 256 ==> Field('c', f, width, Word(w)) == [w as char]
    ensures Field('c', f, width, Word(w)) == Field('c', f, width, Word(w % 256))
    ensures Field('n', f, width, CountPtr) == [] == Field('s', f, width, Text(None))
  {
  }

  /** %s: zero padding is not for text. */
  lemma TextFilled(f: Flags, width: nat, s: seq<char>)
    ensures var t := TextField(f, width, s);
            |t| == Max(width, |s|) && if f.minus then AtLeft(t, s) else AtRight(t, s)
  {
  }
}
