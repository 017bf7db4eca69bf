/** The control registers of the clock generator by their fields, the argument checks of mcg.c, and the
    output frequency that a register setting stands for. */
module McgRegs {
  import Bits
  import opened Common

  // values of register fields of 2, 3 and 5 bits
  type Field2 = x: int | 0 <= x < 4
  type Field3 = x: int | 0 <= x < 8
  type Field5 = x: int | 0 <= x < 32

  datatype C1Reg = C1Reg(clks: bv2, frdiv: Field3, irefs: bool, low: bv2)
  datatype C2Reg = C2Reg(locre: bool, bit6: bool, range: bv2, hgo: bool, erefs: bool, lp: bool, ircs: bool)
  datatype C4Reg = C4Reg(dmx32: bool, drs: Field2, trim: bv5)
  datatype C5Reg = C5Reg(high: bv3, prdiv: Field5)
  datatype C6Reg = C6Reg(lolie: bool, plls: bool, cme: bool, vdiv: Field5)
  datatype ScReg = ScReg(high: bv4, fcrdiv: Field3, low: bv1)
  datatype Regs = Regs(c1: C1Reg, c2: C2Reg, c4: C4Reg, c5: C5Reg, c6: C6Reg, sc: ScReg)

  function PrDiv(c5: C5Reg): int { c5.prdiv + 1 }
  function VDiv(c6: C6Reg): int { c6.vdiv + 24 }

  /** What FRDIV and FCRDIV divide by, 1 << k. */
  function Divisor(k: Field3): (p: int)
    ensures 1 <= p <= 128
  {
    [1, 2, 4, 8, 16, 32, 64, 128][k]
  }

  lemma DivisorIsPow2(k: Field3)
    ensures Divisor(k) == Bits.Pow2(k)
  {
    assert Bits.Pow2(3) == 8;
    if k >= 4 { assert Bits.Pow2(7) == 128; }
  }

  // ---------- C arithmetic ----------

  /** Division that truncates toward zero. */
  function CDiv(x: int, y: int): int
    requires y > 0
  {
    if x >= 0 then x / y else -(-x / y)
  }

  function Int32(x: int): int {
    var m := x % TWO_32;
    if m < 0x8000_0000 then m else m - TWO_32
  }

  function Int16(x: int): int {
    var m := x % 0x1_0000;
    if m < 0x8000 then m else m - 0x1_0000
  }

  // ---------- Register values written by the transitions ----------

  /** Select the oscillator: RANGE, HGO and EREFS are cleared and set.  The source shifts `erefs` into
      place without limiting it to 1, so a larger argument spills into the fields above EREFS0. */
  function OscC2(c2: C2Reg, range: bv2, hgo: bv8, erefs: bv8): C2Reg {
    c2.(range := range | (if erefs & 0x08 != 0 then 2 else 0) | (if erefs & 0x04 != 0 then 1 else 0),
        hgo := hgo > 0 || erefs & 0x02 != 0,
        erefs := erefs & 0x01 != 0,
        bit6 := c2.bit6 || erefs & 0x10 != 0,
        locre := c2.locre || erefs & 0x20 != 0)
  }

  function ExtC1(c1: C1Reg, clks: bv2, frdiv: Field3): C1Reg {
    c1.(clks := clks, frdiv := frdiv, irefs := false)
  }

  function PrdivC5(c5: C5Reg, prdiv: int): C5Reg
    requires 1 <= prdiv <= 32
  {
    c5.(prdiv := prdiv - 1)
  }

  function VdivC6(c6: C6Reg, vdiv: int): C6Reg
    requires 24 <= vdiv <= 55
  {
    c6.(plls := true, vdiv := vdiv - 24)
  }

  function RangeFor(crystal: int): bv2 {
    if crystal <= 40000 then 0 else if crystal <= 8000000 then 1 else 2
  }

  function FrdivFor(crystal: int): Field3 {
    if crystal <= 1250000 then 0 else if crystal <= 2500000 then 1 else if crystal <= 5000000 then 2
    else if crystal <= 10000000 then 3 else if crystal <= 20000000 then 4 else 5
  }

  // ---------- Argument checks: 0, or the error code returned ----------

  function OscCheck(crystal: int, erefs: bv8): int {
    if crystal > 50000000 then 0x21
    else if erefs != 0 && (crystal < 30000 || 40000 < crystal < 3000000 || crystal > 32000000) then 0x22
    else 0
  }

  function PllOscCheck(crystal: int, erefs: bv8): int {
    if crystal > 50000000 then 0x21
    else if erefs != 0 && (crystal < 3000000 || crystal > 32000000) then 0x22
    else 0
  }

  function RefCheck(crystal: int, prdiv: int, vdiv: int): (code: int)
    ensures code == 0 ==> 1 <= prdiv <= 25 && 24 <= vdiv <= 50
  {
    if prdiv < 1 || prdiv > 25 then 0x41
    else if vdiv < 24 || vdiv > 50 then 0x42
    else if CDiv(crystal, prdiv) < 2000000 || CDiv(crystal, prdiv) > 4000000 then 0x43
    else 0
  }

  function PllHz(crystal: int, prdiv: int, vdiv: int): int
    requires prdiv > 0
  {
    CDiv(crystal, prdiv) * vdiv
  }

  function PllCheck(crystal: int, prdiv: int, vdiv: int): (code: int)
    ensures code == 0 ==> 1 <= prdiv <= 25 && 24 <= vdiv <= 50
  {
    var code := RefCheck(crystal, prdiv, vdiv);
    if code != 0 then code
    else if PllHz(crystal, prdiv, vdiv) < 48000000 || PllHz(crystal, prdiv, vdiv) > 100000000 then 0x45
    else 0
  }

  function IrcCheck(irc: int, fast: bool): int {
    if !fast && (irc < 31250 || irc > 39063) then 0x31
    else if fast && (irc < 3000000 || irc > 5000000) then 0x32
    else 0
  }

  /** What each code says is wrong with a crystal and PLL dividers. */
  predicate Wrong(code: int, crystal: int, erefs: bv8, prdiv: int, vdiv: int) {
    if code == 0x21 then crystal > 50000000
    else if code == 0x22 then erefs != 0 && !(3000000 <= crystal <= 32000000)
    else if code == 0x41 then !(1 <= prdiv <= 25)
    else if code == 0x42 then !(24 <= vdiv <= 50)
    else if code == 0x43 then !(2000000 * prdiv <= crystal < 4000001 * prdiv)
    else if code == 0x45 then prdiv > 0 && !(48000000 <= crystal / prdiv * vdiv <= 100000000)
    else false
  }

  /** The dividers are in range, and so is the reference, rounded down. */
  predicate DividersFit(crystal: int, prdiv: int, vdiv: int) {
    1 <= prdiv <= 25 && 24 <= vdiv <= 50 && 2000000 * prdiv <= crystal < 4000001 * prdiv
  }

  /** And the PLL output. */
  predicate PllFits(crystal: int, prdiv: int, vdiv: int) {
    DividersFit(crystal, prdiv, vdiv) && 48000000 <= crystal / prdiv * vdiv <= 100000000
  }

  /** And the crystal of an oscillator, or the external clock. */
  predicate PllArguments(crystal: int, erefs: bv8, prdiv: int, vdiv: int) {
    PllFits(crystal, prdiv, vdiv) && crystal <= 50000000 && (erefs != 0 ==> 3000000 <= crystal <= 32000000)
  }

  /** One of three bands for an oscillator, or an external clock. */
  predicate OscFits(crystal: int, erefs: bv8) {
    if erefs == 0 then crystal <= 50000000
    else 30000 <= crystal <= 40000 || 3000000 <= crystal <= 32000000
  }

  predicate IrcFits(irc: int, fast: bool) {
    if fast then 3000000 <= irc <= 5000000 else 31250 <= irc <= 39063
  }

  lemma QuotientBelow(x: int, y: int, q: int, m: int, bound: int)
    requires x == q * y + m && 0 <= m < y
    ensures q < bound <==> x < bound * y
  {
    if q < bound { TimesMonotonic(q + 1, bound, y); } else { TimesMonotonic(bound, q, y); }
  }

  lemma TimesMonotonic(a: int, b: int, y: int)
    requires a <= b && y > 0
    ensures a * y <= b * y
  {
  }

  /** A quotient is in range exactly when the number is in the range times the divisor. */
  lemma QuotientIn(crystal: int, prdiv: int)
    requires prdiv > 0
    ensures CDiv(crystal, prdiv) < 2000000 <==> crystal < 2000000 * prdiv
    ensures CDiv(crystal, prdiv) > 4000000 <==> crystal >= 4000001 * prdiv
  {
    if crystal >= 0 {
      var q, m := crystal / prdiv, crystal % prdiv;
      QuotientBelow(crystal, prdiv, q, m, 2000000);
      QuotientBelow(crystal, prdiv, q, m, 4000001);
    }
  }

  /** `code` is the lowest in the range that tells what is wrong, or 0 if none does. */
  ghost predicate Lowest(code: int, first: int, last: int, crystal: int, erefs: bv8, prdiv: int, vdiv: int) {
    if code == 0 then forall k :: first <= k <= last ==> !Wrong(k, crystal, erefs, prdiv, vdiv)
    else
      && first <= code <= last && Wrong(code, crystal, erefs, prdiv, vdiv)
      && forall k :: first <= k < code ==> !Wrong(k, crystal, erefs, prdiv, vdiv)
  }

  /** The dividers are accepted for exactly these crystals; otherwise the code is the lowest one that tells
      what is wrong. */
  lemma RefCheckAccepts(crystal: int, erefs: bv8, prdiv: int, vdiv: int)
    ensures RefCheck(crystal, prdiv, vdiv) == 0 <==> DividersFit(crystal, prdiv, vdiv)
    ensures Lowest(RefCheck(crystal, prdiv, vdiv), 0x41, 0x43, crystal, erefs, prdiv, vdiv)
  {
    if prdiv > 0 { QuotientIn(crystal, prdiv); }
  }

  lemma PllCheckAccepts(crystal: int, erefs: bv8, prdiv: int, vdiv: int)
    ensures PllCheck(crystal, prdiv, vdiv) == 0 <==> PllFits(crystal, prdiv, vdiv)
    ensures Lowest(PllCheck(crystal, prdiv, vdiv), 0x41, 0x45, crystal, erefs, prdiv, vdiv)
  {
    RefCheckAccepts(crystal, erefs, prdiv, vdiv);
    var code := RefCheck(crystal, prdiv, vdiv);
    if code == 0 {
      assert PllHz(crystal, prdiv, vdiv) == crystal / prdiv * vdiv;
    }
  }

  lemma LowestOfAll(code: int, crystal: int, erefs: bv8, prdiv: int, vdiv: int)
    requires Lowest(code, 0x41, 0x45, crystal, erefs, prdiv, vdiv)
    requires !Wrong(0x21, crystal, erefs, prdiv, vdiv) && !Wrong(0x22, crystal, erefs, prdiv, vdiv)
    ensures Lowest(code, 0x21, 0x45, crystal, erefs, prdiv, vdiv)
  {
    assert forall k :: 0x22 < k < 0x41 ==> !Wrong(k, crystal, erefs, prdiv, vdiv);
  }

  /** RANGE is set for the band that the crystal is in. */
  lemma OscCheckAccepts(crystal: int, erefs: bv8)
    ensures OscCheck(crystal, erefs) == 0 <==> OscFits(crystal, erefs)
    ensures OscCheck(crystal, erefs) == 0 || OscCheck(crystal, erefs) == if crystal > 50000000 then 0x21 else 0x22
    ensures 30000 <= crystal <= 40000 ==> RangeFor(crystal) == 0
    ensures 3000000 <= crystal <= 8000000 ==> RangeFor(crystal) == 1
    ensures 8000001 <= crystal <= 32000000 ==> RangeFor(crystal) == 2
  {
  }

  lemma IrcCheckAccepts(irc: int, fast: bool)
    ensures IrcCheck(irc, fast) == 0 <==> IrcFits(irc, fast)
    ensures IrcCheck(irc, fast) == 0 || IrcCheck(irc, fast) == if fast then 0x32 else 0x31
  {
  }

  /** The checks of `blpe_pbe` only bound the PLL output by 200 MHz, and that bound is reached. */
  lemma BlpePbeRange(crystal: int, prdiv: int, vdiv: int)
    requires RefCheck(crystal, prdiv, vdiv) == 0
    ensures 48000000 <= PllHz(crystal, prdiv, vdiv) <= 200000000
    ensures RefCheck(8000000, 2, 50) == 0 && PllHz(8000000, 2, 50) == 200000000
  {
    var f := CDiv(crystal, prdiv);
    assert 2000000 * 24 <= f * vdiv <= 4000000 * 50;
  }

  /** What the comment in `blpe_pbe` takes for granted (in-spec dividers and reference give an in-spec
      PLL) holds of a multiplier for every reference exactly when the multiplier is at most 25. */
  lemma BlpePbeCommentHoldsIff(vdiv: int)
    requires 24 <= vdiv <= 50
    ensures (forall crystal, prdiv :: RefCheck(crystal, prdiv, vdiv) == 0 ==> PllCheck(crystal, prdiv, vdiv) == 0)
            <==> vdiv <= 25
  {
    if vdiv <= 25 {
      forall crystal, prdiv | RefCheck(crystal, prdiv, vdiv) == 0 ensures PllCheck(crystal, prdiv, vdiv) == 0 {
        var f := CDiv(crystal, prdiv);
        assert 2000000 * 24 <= f * vdiv <= 4000000 * 25;
      }
    } else {
      assert RefCheck(4000000, 1, vdiv) == 0 && PllCheck(4000000, 1, vdiv) == 0x45;
    }
  }

  // ---------- FLL ----------

  function Multiplier(c4: C4Reg): (m: int)
    ensures 640 <= m <= 2929
  {
    if c4.dmx32 then [732, 1464, 2197, 2929][c4.drs] else [640, 1280, 1920, 2560][c4.drs]
  }

  /** Without DMX32 each step of DRS adds 640; with it the output is 24 MHz per step, as near as a multiple of
      the 32768 Hz of a watch crystal comes from below. */
  lemma MultiplierSteps(c4: C4Reg)
    ensures if c4.dmx32 then Multiplier(c4) * 32768 <= 24000000 * (c4.drs + 1) < (Multiplier(c4) + 1) * 32768
            else Multiplier(c4) == 640 * (c4.drs + 1)
  {
    assert c4.drs == 0 || c4.drs == 1 || c4.drs == 2 || c4.drs == 3;
  }

  /** `fll_freq`: the FLL output for a reference, or an error code below 0x3C. */
  function FllFreq(c4: C4Reg, ref: int): int {
    if c4.drs > 1 then 0x3B
    else
      var hz := Int32(ref * Multiplier(c4));
      if c4.drs == 0 then (if hz < 20000000 then 0x33 else if hz > 25000000 then 0x34 else hz)
      else (if hz < 40000000 then 0x35 else if hz > 50000000 then 0x36 else hz)
  }

  /** An error code is never mistaken for a frequency, and an accepted frequency is the product. */
  lemma FllFreqAccepts(c4: C4Reg, ref: int)
    requires 0 <= ref <= 1000000
    ensures FllFreq(c4, ref) >= 0x3C <==>
              c4.drs <= 1 && (if c4.drs == 0 then 20000000 <= ref * Multiplier(c4) <= 25000000
                               else 40000000 <= ref * Multiplier(c4) <= 50000000)
    ensures FllFreq(c4, ref) >= 0x3C ==> FllFreq(c4, ref) == ref * Multiplier(c4) && 27322 <= ref <= 39063
    ensures FllFreq(c4, ref) < 0x3C ==>
              if c4.drs > 1 then FllFreq(c4, ref) == 0x3B
              else if ref * Multiplier(c4) < 20000000 * (c4.drs + 1) then FllFreq(c4, ref) == 0x33 + 2 * c4.drs
              else FllFreq(c4, ref) == 0x34 + 2 * c4.drs
  {
    var m := Multiplier(c4);
    if c4.drs <= 1 {
      assert m == 640 || m == 732 || m == 1280 || m == 1464;
      assert 0 <= ref * m <= 1000000 * 1464;
      Int32Small(ref * m);
    }
  }

  lemma Int32Small(x: int)
    requires 0 <= x < 0x8000_0000
    ensures Int32(x) == x
  {
  }

  // ---------- The output clock ----------

  /** The sources connected to the chip: external clock, slow and fast internal references, in Hz. */
  datatype Clocks = Clocks(xtal: int, slow: int, fast: int) {
    predicate Valid() { 0 < xtal < TWO_32 && 0 < slow < TWO_32 && 0 < fast < TWO_32 }
  }

  type Board = c: Clocks | c.Valid() witness Clocks(8000000, 32768, 4000000)

  function FllRef(r: Regs, clk: Clocks): int {
    if r.c1.irefs then clk.slow
    else clk.xtal / (if r.c2.range == 0 then Divisor(r.c1.frdiv) else 32 * Divisor(r.c1.frdiv))
  }

  /** MCGOUTCLK as the block diagram has it: CLKS picks FLL or PLL (by PLLS), internal, or external. */
  function McgOut(r: Regs, clk: Clocks): int {
    if r.c1.clks == 0 then
      if r.c6.plls then PllHz(clk.xtal, PrDiv(r.c5), VDiv(r.c6)) else FllRef(r, clk) * Multiplier(r.c4)
    else if r.c1.clks == 1 then
      if r.c2.ircs then clk.fast / Divisor(r.sc.fcrdiv) else clk.slow
    else clk.xtal
  }

  /** The divider that a transition chose for this crystal is the one in the registers. */
  predicate TunedTo(r: Regs, xtal: int) {
    && 0 < xtal <= 50000000
    && r.c1.frdiv == FrdivFor(xtal)
    && (r.c2.range == 0 ==> xtal <= 40000)
  }

  lemma TunedRef(r: Regs, clk: Clocks)
    requires TunedTo(r, clk.xtal) && !r.c1.irefs
    ensures 0 <= FllRef(r, clk) <= 48828
    ensures r.c2.range == 0 ==> FllRef(r, clk) == clk.xtal
  {
  }
}
