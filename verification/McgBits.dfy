/** The bytes behind the register fields: every mask expression of mcg.c is the field update that the
    model makes, and no field is lost in a byte. */
module McgBits {
  import opened McgRegs

  function MaskIf(b: bool, mask: bv8): bv8 { if b then mask else 0 }

  function C1Byte(c: C1Reg): bv8 {
    ((c.clks as bv8) << 6) | ((c.frdiv as bv8) << 3) | MaskIf(c.irefs, 0x04) | c.low as bv8
  }

  function C1Of(b: bv8): C1Reg {
    C1Reg((b >> 6) as bv2, ((b & 0x38) >> 3) as int, b & 0x04 != 0, (b & 0x03) as bv2)
  }

  function C2Byte(c: C2Reg): bv8 {
    MaskIf(c.locre, 0x80) | MaskIf(c.bit6, 0x40) | ((c.range as bv8) << 4) | MaskIf(c.hgo, 0x08) | MaskIf(c.erefs, 0x04)
    | MaskIf(c.lp, 0x02) | MaskIf(c.ircs, 0x01)
  }

  function C5Byte(c: C5Reg): bv8 { ((c.high as bv8) << 5) | c.prdiv as bv8 }

  function C6Byte(c: C6Reg): bv8 {
    MaskIf(c.lolie, 0x80) | MaskIf(c.plls, 0x40) | MaskIf(c.cme, 0x20) | c.vdiv as bv8
  }

  // ---------- C1 ----------

  lemma C1RoundTrip(c: C1Reg, b: bv8)
    ensures C1Of(C1Byte(c)) == c
    ensures C1Byte(C1Of(b)) == b
  {
    C1FieldsKept(c);
    C1ByteKept(b);
  }

  lemma C1FieldsKept(c: C1Reg)
    ensures C1Of(C1Byte(c)) == c
  {
    var f := c.frdiv as bv8;
    ThreeBits(c.frdiv);
    C1BitsKept(c.clks, f, c.irefs, c.low);
  }

  lemma C1BitsKept(clks: bv2, f: bv8, irefs: bool, low: bv2)
    requires f < 8
    ensures var b := ((clks as bv8) << 6) | (f << 3) | MaskIf(irefs, 0x04) | low as bv8;
            && (b >> 6) as bv2 == clks && (b & 0x38) >> 3 == f && (b & 0x04 != 0 <==> irefs)
            && (b & 0x03) as bv2 == low
  {
  }

  lemma C1ByteKept(b: bv8)
    ensures C1Byte(C1Of(b)) == b
  {
    var g := (b & 0x38) >> 3;
    assert g < 8;
    ThreeBitsBack(g);
    C1BitsJoined(b, g);
  }

  lemma C1BitsJoined(b: bv8, g: bv8)
    requires g == (b & 0x38) >> 3
    ensures (((b >> 6) as bv2 as bv8) << 6) | (g << 3) | MaskIf(b & 0x04 != 0, 0x04) | (b & 0x03) as bv2 as bv8 == b
  {
  }

  lemma ThreeBits(x: int)
    requires 0 <= x < 8
    ensures x as bv8 < 8 && (x as bv8) as int == x
  {
  }

  lemma ThreeBitsBack(g: bv8)
    requires g < 8
    ensures 0 <= g as int < 8 && (g as int) as bv8 == g
  {
  }

  /** CLKS is cleared, or new bits are or-ed in. */
  lemma ClksMasks(c: C1Reg, k: bv2)
    ensures C1Byte(c.(clks := c.clks | k)) == C1Byte(c) | (((k as bv8) << 6) & 0xC0)
    ensures C1Byte(c.(clks := k)) == (C1Byte(c) & !0xC0) | (((k as bv8) << 6) & 0xC0)
  {
    ThreeBits(c.frdiv);
    ClksBits(c.clks, k, ((c.frdiv as bv8) << 3) | MaskIf(c.irefs, 0x04) | c.low as bv8);
  }

  lemma ClksBits(clks: bv2, k: bv2, rest: bv8)
    requires rest & 0xC0 == 0
    ensures (((clks | k) as bv8) << 6) | rest == (((clks as bv8) << 6) | rest) | (((k as bv8) << 6) & 0xC0)
    ensures ((k as bv8) << 6) | rest == ((((clks as bv8) << 6) | rest) & !0xC0) | (((k as bv8) << 6) & 0xC0)
  {
  }

  lemma IrefsMasks(c: C1Reg)
    ensures C1Byte(c.(irefs := true)) == C1Byte(c) | 0x04
    ensures C1Byte(c) & 0xC0 == (c.clks as bv8) << 6 && (C1Byte(c) & 0x04 != 0 <==> c.irefs)
  {
    var f := c.frdiv as bv8;
    assert f < 8;
  }

  lemma ExtC1Mask(c: C1Reg, k: bv2, frdiv: Field3)
    ensures C1Byte(ExtC1(c, k, frdiv)) ==
            (C1Byte(c) & !(0xC0 | 0x38 | 0x04)) | (((k as bv8) << 6) & 0xC0) | (((frdiv as bv8) << 3) & 0x38)
  {
    var f, g := c.frdiv as bv8, frdiv as bv8;
    assert f < 8 && g < 8;
  }

  // ---------- C2 ----------

  /** The unclamped shift of `erefs`, with the bits that it drops and the fields that it spills into. */
  lemma OscC2Mask(c: C2Reg, range: bv2, hgo: bv8, erefs: bv8)
    ensures C2Byte(OscC2(c, range, hgo, erefs)) ==
            (C2Byte(c) & !(0x30 | 0x08 | 0x04))
            | ((((range as bv8) << 4) & 0x30) | ((if hgo > 0 then 1 else 0) << 3) | (erefs << 2))
  {
  }

  lemma C2Masks(c: C2Reg)
    ensures C2Byte(c.(lp := true)) == C2Byte(c) | 0x02 && C2Byte(c.(lp := false)) == C2Byte(c) & !0x02
    ensures C2Byte(c.(ircs := true)) == C2Byte(c) | 0x01 && C2Byte(c.(ircs := false)) == C2Byte(c) & !0x01
    ensures (C2Byte(c) & 0x30) >> 4 == c.range as bv8
  {
  }

  // ---------- C5 and C6: the PLL dividers ----------

  /** The divider fields hold what was written, for every divider the field can hold. */
  lemma PrdivMask(c: C5Reg, prdiv: int)
    requires 1 <= prdiv <= 32
    ensures C5Byte(PrdivC5(c, prdiv)) == (C5Byte(c) & !0x1F) | ((prdiv - 1) as bv8 & 0x1F)
  {
    FiveBits(prdiv - 1);
    FiveBits(c.prdiv);
    var high := (c.high as bv8) << 5;
    assert high & 0x1F == 0;
    FieldReplaced(high, c.prdiv as bv8, (prdiv - 1) as bv8);
  }

  lemma FiveBits(x: int)
    requires 0 <= x < 32
    ensures x as bv8 < 32 && (x as bv8) as int == x
  {
  }

  lemma FieldReplaced(high: bv8, w: bv8, v: bv8)
    requires high & 0x1F == 0 && w < 32 && v < 32
    ensures high | v == ((high | w) & !0x1F) | (v & 0x1F)
  {
  }

  lemma PrdivReads(c: C5Reg, prdiv: int)
    requires 1 <= prdiv <= 32
    ensures (C5Byte(PrdivC5(c, prdiv)) & 0x1F) as int + 1 == prdiv
  {
    var v := (prdiv - 1) as bv8;
    assert v < 32 && v as int == prdiv - 1;
    assert C5Byte(PrdivC5(c, prdiv)) & 0x1F == v;
  }

  lemma VdivMask(c: C6Reg, vdiv: int)
    requires 24 <= vdiv <= 55
    ensures C6Byte(VdivC6(c, vdiv)) == (C6Byte(c) & !0x1F) | (0x40 | ((vdiv - 24) as bv8 & 0x1F))
  {
    var v, w := (vdiv - 24) as bv8, c.vdiv as bv8;
    assert v < 32 && w < 32;
  }

  lemma VdivReads(c: C6Reg, vdiv: int)
    requires 24 <= vdiv <= 55
    ensures (C6Byte(VdivC6(c, vdiv)) & 0x1F) as int + 24 == vdiv
  {
    var v := (vdiv - 24) as bv8;
    assert v < 32 && v as int == vdiv - 24;
    assert C6Byte(VdivC6(c, vdiv)) & 0x1F == v;
  }

  lemma CmeSetMask(c: C6Reg)
    ensures C6Byte(c.(cme := true)) == C6Byte(c) | 0x20
  {
    var w := c.vdiv as bv8;
    assert w < 32;
  }

  lemma CmeClearMask(c: C6Reg)
    ensures C6Byte(c.(cme := false)) == C6Byte(c) & !0x20
  {
    var w := c.vdiv as bv8;
    assert w < 32;
  }

  lemma PllsMask(c: C6Reg)
    ensures C6Byte(c.(plls := false)) == C6Byte(c) & !0x40
  {
    var w := c.vdiv as bv8;
    assert w < 32;
  }
}
