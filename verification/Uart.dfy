/** The baud rate search of `uart0_init` in uart.c: choose the oversampling ratio, then the divider. */
module Uart {
  import opened Common

  /** Floor division of the clock by baud * osr: the divider for that oversampling ratio. */
  function Sbr(clk: nat, baud: nat, osr: nat): nat
    requires baud > 0 && osr > 0
  {
    clk / (baud * osr)
  }

  predicate InRange(clk: nat, baud: nat) { baud > 0 && 32 * baud <= clk }

  function Actual(clk: nat, baud: nat, osr: nat): nat
    requires InRange(clk, baud) && 4 <= osr <= 32
  {
    Floor(clk, PerBit(clk, baud, osr))
  }

  function Floor(x: nat, y: nat): nat
    requires y > 0
  {
    x / y
  }

  /** Clock cycles for one bit. */
  function PerBit(clk: nat, baud: nat, osr: nat): (cycles: nat)
    requires InRange(clk, baud) && 4 <= osr <= 32
    ensures cycles > 0
  {
    SbrPositive(clk, baud, osr);
    osr * Sbr(clk, baud, osr)
  }

  function Error(clk: nat, baud: nat, osr: nat): nat
    requires InRange(clk, baud) && 4 <= osr <= 32
  {
    NeverBelow(clk, baud, osr);
    Actual(clk, baud, osr) - baud
  }

  // ---------- Floor divisions ----------

  lemma DivBounds(x: nat, y: nat)
    requires y > 0
    ensures x / y * y <= x < (x / y + 1) * y
  {
  }

  /** q is at most x / y exactly if q * y is at most x. */
  lemma DivAtLeast(x: nat, y: nat, q: nat)
    requires y > 0
    ensures q * y <= x <==> q <= x / y
  {
    DivBounds(x, y);
    if q <= x / y {
      MulMonotonic(q, x / y, y);
    } else {
      MulMonotonic(x / y + 1, q, y);
    }
  }

  lemma MulMonotonic(a: int, b: int, c: nat)
    requires a <= b
    ensures a * c <= b * c
  {
    assert b * c - a * c == (b - a) * c;
  }

  lemma SbrPositive(clk: nat, baud: nat, osr: nat)
    requires InRange(clk, baud) && 4 <= osr <= 32
    ensures baud * osr > 0 && Sbr(clk, baud, osr) >= 1 && osr * Sbr(clk, baud, osr) > 0
  {
    MulMonotonic(osr, 32, baud);
    assert baud * osr >= osr;
    DivAtLeast(clk, baud * osr, 1);
  }

  /** The computed baud rate never undershoots the request. */
  lemma NeverBelow(clk: nat, baud: nat, osr: nat)
    requires InRange(clk, baud) && 4 <= osr <= 32
    ensures baud <= Actual(clk, baud, osr)
  {
    SbrPositive(clk, baud, osr);
    var sbr := Sbr(clk, baud, osr);
    DivAtLeast(clk, baud * osr, sbr);
    assert sbr * (baud * osr) == baud * (osr * sbr);
    DivAtLeast(clk, osr * sbr, baud);
  }

  /** It overshoots by less than one part in SBR. */
  lemma ErrorBelow(clk: nat, baud: nat, osr: nat)
    requires InRange(clk, baud) && 4 <= osr <= 32
    ensures Error(clk, baud, osr) * Sbr(clk, baud, osr) < baud
  {
    SbrPositive(clk, baud, osr);
    NeverBelow(clk, baud, osr);
    var sbr, act := Sbr(clk, baud, osr), Actual(clk, baud, osr);
    DivBounds(clk, baud * osr);
    DivBounds(clk, osr * sbr);
    ErrorCore(act, sbr, osr, baud, clk);
  }

  lemma ErrorCore(act: nat, sbr: nat, osr: nat, baud: nat, clk: nat)
    requires act * (osr * sbr) <= clk < (sbr + 1) * (baud * osr) && osr > 0
    ensures (act - baud) * sbr < baud
  {
    Regroup(act, osr, sbr);
    Regroup(sbr + 1, osr, baud);
    assert act * (osr * sbr) == act * sbr * osr;
    assert (sbr + 1) * (baud * osr) == (sbr + 1) * baud * osr;
    Cancel(act * sbr, (sbr + 1) * baud, osr);
    Distribute(act, sbr, baud);
  }

  lemma Regroup(a: int, b: int, c: int)
    ensures a * (b * c) == a * c * b && a * (c * b) == a * c * b
  {
  }

  lemma Distribute(a: int, s: int, b: int)
    ensures (a - b) * s == a * s - b * s && (s + 1) * b == b * s + b
  {
  }

  lemma Cancel(a: int, b: int, c: nat)
    requires a * c < b * c
    ensures a < b
  {
    if b <= a { MulMonotonic(b, a, c); }
  }

  // ---------- The search ----------

  /** The largest of the oversampling ratios 4..32 with the least error. */
  ghost predicate BestRatio(clk: nat, baud: nat, osr: nat)
    requires InRange(clk, baud)
  {
    && 4 <= osr <= 32
    && (forall i :: 4 <= i <= 32 ==> Error(clk, baud, osr) <= Error(clk, baud, i))
    && (forall i :: osr < i <= 32 ==> Error(clk, baud, osr) < Error(clk, baud, i))
  }

  method BestOsr(uart0clk: nat, baud: nat) returns (osr: nat, diff: nat)
    requires InRange(uart0clk, baud) && uart0clk < TWO_32
    ensures BestRatio(uart0clk, baud, osr) && diff == Error(uart0clk, baud, osr)
  {
    diff := Measure(uart0clk, baud, 4);
    osr := 4;
    var i := 5;
    while i <= 32
      invariant 5 <= i <= 33 && 4 <= osr < i && diff == Error(uart0clk, baud, osr)
      invariant forall k :: 4 <= k < i ==> diff <= Error(uart0clk, baud, k)
      invariant forall k :: osr < k < i ==> diff < Error(uart0clk, baud, k)
    {
      var temp := Measure(uart0clk, baud, i);
      if temp <= diff {
        diff, osr := temp, i;
      }
      i := i + 1;
    }
  }

  /** The absolute difference between the requested and the computed baud rate. */
  method Measure(uart0clk: nat, baud: nat, i: nat) returns (diff: nat)
    requires InRange(uart0clk, baud) && uart0clk < TWO_32 && 4 <= i <= 32
    ensures diff == Error(uart0clk, baud, i)
  {
    SbrPositive(uart0clk, baud, i);
    NeverBelow(uart0clk, baud, i);
    var sbr := uart0clk / (baud * i);
    var calculated := uart0clk / (i * sbr);
    diff := if calculated > baud then calculated - baud else baud - calculated;
  }

  // ---------- Configuration ----------

  const C2_TE_RE: bv8 := 0x0C
  const C4_OSR: bv8 := 0x1F
  const C5_BOTHEDGE: bv8 := 0x02
  const BDH_SBR: bv8 := 0x1F

  function Ratio(c4: bv8): nat { (c4 & C4_OSR) as int + 1 }

  function Divider(bdh: bv8, bdl: Byte): nat { (bdh & BDH_SBR) as int * 256 + bdl }

  /** The source's error limit: less than three whole hundredths of the baud rate. */
  predicate Acceptable(clk: nat, baud: nat, osr: nat)
    requires InRange(clk, baud) && 4 <= osr <= 32
  {
    Error(clk, baud, osr) < baud / 100 * 3
  }

  /** An accepted rate is less than 3 percent too high; and one that is less than 3 percent too high for a rate
      of 99 baud less is accepted. */
  lemma AcceptableBelow(clk: nat, baud: nat, osr: nat)
    requires InRange(clk, baud) && 4 <= osr <= 32
    ensures Acceptable(clk, baud, osr) ==> 100 * Error(clk, baud, osr) < 3 * baud
    ensures 100 * Error(clk, baud, osr) < 3 * (baud - 99) ==> Acceptable(clk, baud, osr)
  {
    Hundredths(Error(clk, baud, osr), baud);
  }

  lemma Hundredths(e: nat, baud: nat)
    ensures e < baud / 100 * 3 ==> 100 * e < 3 * baud
    ensures 100 * e < 3 * (baud - 99) ==> e < baud / 100 * 3
  {
  }

  class Uart0 {
    var BDH: bv8
    var BDL: Byte
    var C2: bv8
    var C4: bv8
    var C5: bv8

    constructor (bdh: bv8, bdl: Byte, c2: bv8, c4: bv8, c5: bv8)
      ensures BDH == bdh && BDL == bdl && C2 == c2 && C4 == c4 && C5 == c5
    {
      BDH, BDL, C2, C4, C5 := bdh, bdl, c2, c4, c5;
    }

    /** Configure for `baud` from a clock of `sysclk` kHz; `osr` is the ratio chosen, or 0.  Where the
        source stays in an endless loop the result is false: the transceiver is then off and nothing
        else is configured. */
    method Init(sysclk: int, baud: int) returns (ok: bool, osr: nat)
      requires baud > 0 && (32 <= sysclk <= 50000 ==> InRange(sysclk * 1000, baud))
      modifies this
      ensures !ok ==> C2 == old(C2) & !C2_TE_RE && unchanged(`BDH, `BDL, `C4, `C5)
      ensures if 32 <= sysclk <= 50000
              then BestRatio(sysclk * 1000, baud, osr) && (ok <==> Acceptable(sysclk * 1000, baud, osr))
              else !ok
      ensures ok ==>
                && Ratio(C4) == osr && C4 & !C4_OSR == old(C4) & !C4_OSR
                && Divider(BDH, BDL) == Sbr(sysclk * 1000, baud, osr) % 8192 && BDH & !BDH_SBR == old(BDH) & !BDH_SBR
                && C5 == (if osr < 9 then old(C5) | C5_BOTHEDGE else old(C5))
                && C2 == old(C2) | C2_TE_RE
      ensures ok ==> (Divider(BDH, BDL) == Sbr(sysclk * 1000, baud, osr) <==> sysclk * 1000 < 8192 * baud * osr)
    {
      C2 := C2 & !C2_TE_RE;
      EnableBits(old(C2));
      if sysclk > 50000 || sysclk < 32 {
        return false, 0;
      }
      var uart0clk := sysclk * 1000;
      var diff;
      osr, diff := BestOsr(uart0clk, baud);
      if diff >= baud / 100 * 3 {
        return false, osr;
      }
      SetRatio(osr);
      var sbr := DividerFor(uart0clk, baud);
      SetDivider(sbr);
      DividerFits(uart0clk, baud, osr);
      C2 := C2 | C2_TE_RE;
      return true, osr;
    }

    /** Below 9 samples per bit both clock edges must be sampled. */
    method SetRatio(osr: nat)
      requires 4 <= osr <= 32
      modifies `C4, `C5
      ensures Ratio(C4) == osr && C4 & !C4_OSR == old(C4) & !C4_OSR
      ensures C5 == (if osr < 9 then old(C5) | C5_BOTHEDGE else old(C5))
    {
      if osr > 3 && osr < 9 {
        C5 := C5 | C5_BOTHEDGE;
      }
      FieldReads(C4, osr - 1);
      C4 := WithField(C4, osr - 1);
    }

    /** The divider for the oversampling ratio that C4 now holds. */
    method DividerFor(uart0clk: nat, baud: nat) returns (sbr: nat)
      requires InRange(uart0clk, baud) && 4 <= Ratio(C4) <= 32
      ensures sbr == Sbr(uart0clk, baud, Ratio(C4))
    {
      SbrPositive(uart0clk, baud, Ratio(C4));
      sbr := uart0clk / (baud * Ratio(C4));
    }

    method SetDivider(sbr: nat)
      modifies `BDH, `BDL
      ensures Divider(BDH, BDL) == sbr % 8192 && BDH & !BDH_SBR == old(BDH) & !BDH_SBR
    {
      DividerReads(BDH, sbr);
      BDH := WithField(BDH, sbr / 256 % 32);
      BDL := sbr % 256;
    }
  }

  lemma EnableBits(c2: bv8)
    ensures (c2 & !C2_TE_RE) | C2_TE_RE == c2 | C2_TE_RE
  {
  }

  /** Replace the low five bits of a register. */
  function WithField(r: bv8, x: int): bv8
    requires 0 <= x < 32
  {
    (r & !0x1F) | (x as bv8 & 0x1F)
  }

  lemma FieldReads(r: bv8, x: int)
    requires 0 <= x < 32
    ensures (WithField(r, x) & 0x1F) as int == x && WithField(r, x) & !0x1F == r & !0x1F
  {
    var v := x as bv8;
    assert v < 32 && v as int == x;
    assert ((r & !0x1F) | (v & 0x1F)) & 0x1F == v;
  }

  lemma DividerReads(bdh: bv8, sbr: nat)
    ensures var h := WithField(bdh, sbr / 256 % 32);
            Divider(h, sbr % 256) == sbr % 8192 && h & !BDH_SBR == bdh & !BDH_SBR
  {
    FieldReads(bdh, sbr / 256 % 32);
    SplitBytes(sbr);
  }

  lemma SplitBytes(sbr: nat)
    ensures sbr / 256 % 32 * 256 + sbr % 256 == sbr % 8192
  {
    var h, q := sbr / 256, sbr / 256 / 32;
    assert sbr == 256 * h + sbr % 256 && h == 32 * q + h % 32;
    assert sbr == 8192 * q + (256 * (h % 32) + sbr % 256);
  }

  lemma BestIsUnique(clk: nat, baud: nat)
    requires InRange(clk, baud)
    ensures forall a, b :: BestRatio(clk, baud, a) && BestRatio(clk, baud, b) ==> a == b
  {
    forall a, b | BestRatio(clk, baud, a) && BestRatio(clk, baud, b) ensures a == b {
      assert Error(clk, baud, a) == Error(clk, baud, b);
    }
  }

  // ---------- What the search guarantees ----------

  /** A baud rate that is a multiple of 100 and at most 1/136 of the clock (so that the divider for the
      lowest ratio is at least 34) is always accepted. */
  lemma CommonRatesAccepted(clk: nat, baud: nat)
    requires 0 < baud && 136 * baud <= clk && baud % 100 == 0
    ensures InRange(clk, baud) && Sbr(clk, baud, 4) >= 34
    ensures forall osr :: BestRatio(clk, baud, osr) ==> Acceptable(clk, baud, osr)
  {
    DivAtLeast(clk, baud * 4, 34);
    ErrorBelow(clk, baud, 4);
    var e, sbr := Error(clk, baud, 4), Sbr(clk, baud, 4);
    MulMonotonic(34, sbr, e);
    assert e * sbr == sbr * e && e * 34 < baud;
    forall osr | BestRatio(clk, baud, osr) ensures Acceptable(clk, baud, osr) {
      assert Error(clk, baud, osr) <= e;
    }
  }

  /** A baud rate below 100 is never accepted, however exact: its hundredth is 0. */
  lemma LowRatesRejected(clk: nat, baud: nat, osr: nat)
    requires InRange(clk, baud) && 4 <= osr <= 32 && baud < 100
    ensures !Acceptable(clk, baud, osr)
  {
  }

  /** When the divider fits the 13 bits of the registers: the condition on the call, and the baud rates
      for which it always or never does, whatever ratio is chosen. */
  lemma DividerFits(clk: nat, baud: nat, osr: nat)
    requires InRange(clk, baud) && 4 <= osr <= 32
    ensures Sbr(clk, baud, osr) < 8192 <==> clk < 8192 * baud * osr
    ensures clk >= 262144 * baud ==> Sbr(clk, baud, osr) >= 8192
    ensures clk < 32768 * baud ==> Sbr(clk, baud, osr) < 8192
  {
    SbrPositive(clk, baud, osr);
    DivAtLeast(clk, baud * osr, 8192);
    MulMonotonic(osr, 32, baud);
    MulMonotonic(4, osr, baud);
    assert 8192 * (baud * osr) == 8192 * (osr * baud) == 8192 * baud * osr;
  }

  /** A call that is accepted and loses its divider: 100 baud at 50 MHz. */
  method DividerLost(uart: Uart0) returns (ok: bool, osr: nat)
    modifies uart
    ensures ok && 4 <= osr <= 32 && Divider(uart.BDH, uart.BDL) != Sbr(50000000, 100, osr)
  {
    CommonRatesAccepted(50000000, 100);
    ok, osr := uart.Init(50000, 100);
  }
}
