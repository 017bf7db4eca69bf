/** Arbitrary sequences of clock mode transitions, and the clock decoder of system_MKL25Z4.c. */
module McgRuns {
  import opened Common
  import opened McgRegs
  import opened Mcg

  datatype Transition =
    | PllInit | NewPllFreq | PeePbe | PbePee | PbeFbe | FbePbe | PbeBlpe | BlpePbe | BlpeFbe | FbeBlpe
    | FbeFei | FeiFbe | FbeFee | FeeFbe | FbeFbi | FbiFbe | FbiBlpi | BlpiFbi | FbiFee | FeeFbi | FbiFei
    | FeiFbi | FeiFee | FeeFei

  /** A call with every argument that some transition takes. */
  datatype Call = Call(fn: Transition, crystal: int, hgo: bv8, erefs: bv8, prdiv: int, vdiv: int, mcgoutSelect: bv8,
                       irc: int, fast: bool)

  function Source(t: Transition): Mode {
    match t
    case PllInit => FEI case FeiFbe => FEI case FeiFbi => FEI case FeiFee => FEI
    case NewPllFreq => PEE case PeePbe => PEE
    case PbePee => PBE case PbeFbe => PBE case PbeBlpe => PBE
    case FbePbe => FBE case FbeBlpe => FBE case FbeFei => FBE case FbeFee => FBE case FbeFbi => FBE
    case BlpePbe => BLPE case BlpeFbe => BLPE
    case FeeFbe => FEE case FeeFbi => FEE case FeeFei => FEE
    case FbiFbe => FBI case FbiBlpi => FBI case FbiFee => FBI case FbiFei => FBI
    case BlpiFbi => BLPI
  }

  function Target(t: Transition): Mode {
    match t
    case PllInit => PEE case NewPllFreq => PEE case PbePee => PEE
    case PeePbe => PBE case FbePbe => PBE case BlpePbe => PBE
    case PbeFbe => FBE case BlpeFbe => FBE case FeiFbe => FBE case FeeFbe => FBE case FbiFbe => FBE
    case PbeBlpe => BLPE case FbeBlpe => BLPE
    case FbeFei => FEI case FbiFei => FEI case FeeFei => FEI
    case FbeFee => FEE case FbiFee => FEE case FeiFee => FEE
    case FbeFbi => FBI case FeeFbi => FBI case FeiFbi => FBI case BlpiFbi => FBI
    case FbiBlpi => BLPI
  }

  /** The arguments describe the clocks of the board; `fbi_blpi` and `blpi_fbi` must also be told which
      internal reference is selected. */
  predicate Matching(call: Call, clk: Clocks, ircs: bool) {
    match call.fn
    case FbeFei => call.irc == clk.slow
    case FbiFei => call.irc == clk.slow
    case FeeFei => call.irc == clk.slow
    case FbeFbi => call.irc == if call.fast then clk.fast else clk.slow
    case FeeFbi => call.irc == if call.fast then clk.fast else clk.slow
    case FeiFbi => call.irc == if call.fast then clk.fast else clk.slow
    case FbiBlpi => call.fast == ircs && call.irc == if call.fast then clk.fast else clk.slow
    case BlpiFbi => call.fast == ircs && call.irc == if call.fast then clk.fast else clk.slow
    case _ => call.crystal == clk.xtal
  }

  /** The code with which the arguments are rejected, or 0. */
  function Check(c: Call, r: Regs): int {
    match c.fn
    case PllInit => PllInitCheck(c.crystal, c.erefs, c.prdiv, c.vdiv)
    case NewPllFreq => PllCheck(c.crystal, c.prdiv, c.vdiv)
    case FbePbe => PllCheck(c.crystal, c.prdiv, c.vdiv)
    case BlpePbe => RefCheck(c.crystal, c.prdiv, c.vdiv)
    case FeiFbe => OscCheck(c.crystal, c.erefs)
    case FbiFbe => OscCheck(c.crystal, c.erefs)
    case FeiFee => OscCheck(c.crystal, c.erefs)
    case FbiFee => OscCheck(c.crystal, c.erefs)
    case FbeFee => FbeFeeCheck(r, c.crystal)
    case FbeFei => SlowFllCheck(r.c4, c.irc)
    case FbiFei => SlowFllCheck(r.c4, c.irc)
    case FeeFei => SlowFllCheck(r.c4, c.irc)
    case FbeFbi => IrcCheck(c.irc, c.fast)
    case FeeFbi => IrcCheck(c.irc, c.fast)
    case FeiFbi => IrcCheck(c.irc, c.fast)
    case _ => 0
  }

  /** The arguments that the source allows, by their ranges. */
  predicate Allowed(c: Call, r: Regs) {
    match c.fn
    case PllInit => PllArguments(c.crystal, c.erefs, c.prdiv, c.vdiv)
    case NewPllFreq => PllFits(c.crystal, c.prdiv, c.vdiv)
    case FbePbe => PllFits(c.crystal, c.prdiv, c.vdiv)
    case BlpePbe => DividersFit(c.crystal, c.prdiv, c.vdiv)
    case FeiFbe => OscFits(c.crystal, c.erefs)
    case FbiFbe => OscFits(c.crystal, c.erefs)
    case FeiFee => OscFits(c.crystal, c.erefs)
    case FbiFee => OscFits(c.crystal, c.erefs)
    case FbeFee => FllFreq(r.c4, FbeFeeRef(r, c.crystal)) >= 0x3C
    case FbeFei => SlowFits(r.c4, c.irc)
    case FbiFei => SlowFits(r.c4, c.irc)
    case FeeFei => SlowFits(r.c4, c.irc)
    case FbeFbi => IrcFits(c.irc, c.fast)
    case FeeFbi => IrcFits(c.irc, c.fast)
    case FeiFbi => IrcFits(c.irc, c.fast)
    case _ => true
  }

  /** Exactly these pass the checks of a call. */
  lemma ChecksAllow(c: Call, r: Regs)
    ensures Check(c, r) == 0 <==> Allowed(c, r)
  {
    PllInitAccepts(c.crystal, c.erefs, c.prdiv, c.vdiv);
    PllCheckAccepts(c.crystal, c.erefs, c.prdiv, c.vdiv);
    RefCheckAccepts(c.crystal, c.erefs, c.prdiv, c.vdiv);
    OscCheckAccepts(c.crystal, c.erefs);
    SlowFllAcceptsIff(r.c4, c.irc);
    IrcCheckAccepts(c.irc, c.fast);
    FllFreqCodes(r.c4, FbeFeeRef(r, c.crystal));
  }

  /** The calls that set the PLL dividers. */
  predicate SetsPll(t: Transition) { t == PllInit || t == NewPllFreq || t == FbePbe || t == BlpePbe }

  /** What a successful call does to the PLL dividers. */
  predicate Dividers(c: Call, before: Regs, after: Regs) {
    if SetsPll(c.fn) then
      && (if c.fn == BlpePbe then RefCheck(c.crystal, c.prdiv, c.vdiv) == 0
          else PllCheck(c.crystal, c.prdiv, c.vdiv) == 0)
      && PrDiv(after.c5) == c.prdiv && VDiv(after.c6) == c.vdiv
    else
      after.c5 == before.c5 && after.c6.vdiv == before.c6.vdiv
  }

  /** The contract of a call. */
  twostate predicate Done(g: Generator, c: Call, r: Result)
    reads g
  {
    && g.Moves(Source(c.fn), Target(c.fn), Check(c, old(g.R())), Matching(c, g.clk, old(g.C2.ircs)), r)
    && (r.Hz? ==> Dividers(c, old(g.R()), g.R()))
  }

  predicate IsPllCall(t: Transition) {
    SetsPll(t) || Source(t) == PBE || Source(t) == PEE || Source(t) == BLPE || Target(t) == BLPE
  }

  method Do(g: Generator, c: Call) returns (r: Result)
    requires g.Safe()
    modifies g`C1, g`C2, g`C5, g`C6, g`S, g`polls
    ensures Done(g, c, r)
  {
    if IsPllCall(c.fn) {
      r := DoPll(g, c);
    } else {
      r := DoFll(g, c);
    }
  }

  method DoPll(g: Generator, c: Call) returns (r: Result)
    requires g.Safe() && IsPllCall(c.fn)
    modifies g`C1, g`C2, g`C5, g`C6, g`S, g`polls
    ensures Done(g, c, r)
  {
    match c.fn
    case PllInit => r := g.PllInit(c.crystal, c.hgo, c.erefs, c.prdiv, c.vdiv, c.mcgoutSelect);
    case NewPllFreq => r := g.NewPllFreq(c.crystal, c.prdiv, c.vdiv);
    case PeePbe => r := g.PeePbe(c.crystal);
    case PbePee => r := g.PbePee(c.crystal);
    case PbeFbe => r := g.PbeFbe(c.crystal);
    case FbePbe => r := g.FbePbe(c.crystal, c.prdiv, c.vdiv);
    case PbeBlpe => r := g.PbeBlpe(c.crystal);
    case BlpePbe => r := g.BlpePbe(c.crystal, c.prdiv, c.vdiv);
    case BlpeFbe => r := g.BlpeFbe(c.crystal);
    case FbeBlpe => r := g.FbeBlpe(c.crystal);
  }

  method DoFll(g: Generator, c: Call) returns (r: Result)
    requires g.Safe() && !IsPllCall(c.fn)
    modifies g`C1, g`C2, g`C6, g`S, g`polls
    ensures Done(g, c, r)
  {
    match c.fn
    case FbeFei => r := g.FbeFei(c.irc);
    case FeiFbe => r := g.FeiFbe(c.crystal, c.hgo, c.erefs);
    case FbeFee => r := g.FbeFee(c.crystal);
    case FeeFbe => r := g.FeeFbe(c.crystal);
    case FbeFbi => r := g.FbeFbi(c.irc, c.fast);
    case FbiFbe => r := g.FbiFbe(c.crystal, c.hgo, c.erefs);
    case FbiBlpi => r := g.FbiBlpi(c.irc, c.fast);
    case BlpiFbi => r := g.BlpiFbi(c.irc, c.fast);
    case FbiFee => r := g.FbiFee(c.crystal, c.hgo, c.erefs);
    case FeeFbi => r := g.FeeFbi(c.irc, c.fast);
    case FbiFei => r := g.FbiFei(c.irc);
    case FeiFbi => r := g.FeiFbi(c.irc, c.fast);
    case FeiFee => r := g.FeiFee(c.crystal, c.hgo, c.erefs);
    case FeeFei => r := g.FeeFei(c.irc);
  }

  /** Any sequence of calls, with any arguments and any number of rejections and time-outs, keeps the
      clock monitor off whenever an internal reference is selected: after each call by this loop, and
      at each register write by the preconditions of `WriteC1` and `WriteC6`. */
  method RunAny(g: Generator, calls: seq<Call>) returns (results: seq<Result>)
    requires g.Safe()
    modifies g`C1, g`C2, g`C5, g`C6, g`S, g`polls
    ensures g.Safe() && |results| == |calls|
    ensures g.C6.cme ==> !g.C1.irefs && g.C1.clks != 1
  {
    results := [];
    for i := 0 to |calls|
      invariant g.Safe() && |results| == i
    {
      var r := Do(g, calls[i]);
      results := results + [r];
    }
  }

  /** The modes do not depend on the arguments: from a settled FEI, if every call succeeds, on arguments
      that may have nothing to do with the board, each call was made in the mode in which the one before
      it ended, and the mode query names the target of the last. */
  method RunModes(g: Generator, calls: seq<Call>) returns (last: Result, mode: int)
    requires g.Safe() && Settled(FEI, g.R(), g.S) && calls != []
    modifies g`C1, g`C2, g`C5, g`C6, g`S, g`polls
    ensures g.Safe()
    ensures last.Hz? ==>
              var m := Target(calls[|calls| - 1].fn);
              Chained(FEI, calls) && Settled(m, g.R(), g.S) && mode == ModeCode(m)
  {
    ghost var m := FEI;
    last := Err(0);
    mode := 0;
    for i := 0 to |calls|
      invariant g.Safe() && Settled(m, g.R(), g.S) && m == EndMode(FEI, calls[..i]) && Chained(FEI, calls[..i])
      invariant i > 0 ==> last.Hz?
    {
      OneMode(m, Source(calls[i].fn), g.R(), g.S);
      last := Do(g, calls[i]);
      if last.Err? {
        return;
      }
      ChainStep(FEI, calls, i);
      m := Target(calls[i].fn);
    }
    assert calls[..|calls|] == calls;
    OneMode(m, m, g.R(), g.S);
    mode := g.WhatMode();
    OneMode(m, m, g.R(), g.S);
  }

  /** The last of the calls that set the PLL dividers. */
  function LastSetter(calls: seq<Call>): Option<Call> {
    if calls == [] then None
    else NextSetter(LastSetter(calls[..|calls| - 1]), calls[|calls| - 1])
  }

  function NextSetter(setter: Option<Call>, c: Call): Option<Call> {
    if SetsPll(c.fn) then Some(c) else setter
  }

  /** The dividers are those of that call, and passed its checks. */
  predicate SetBy(setter: Option<Call>, r: Regs, clk: Clocks) {
    setter.Some? ==>
      var c := setter.value;
      && PrDiv(r.c5) == c.prdiv && VDiv(r.c6) == c.vdiv && RefCheck(clk.xtal, c.prdiv, c.vdiv) == 0
      && (c.fn != BlpePbe ==> PllCheck(clk.xtal, c.prdiv, c.vdiv) == 0)
  }

  /** From a settled FEI, as long as every call succeeds on arguments that match the board: each call
      was made in its source mode, the generator is settled in the target mode of the last call, the
      mode query names that mode, and the clock decoder computes the frequency that the last call
      returned.  A PLL in use has the dividers of the last call that set them, and is between 48 and
      100 MHz unless that was `blpe_pbe` with a multiplier above 25. */
  method RunMatching(g: Generator, calls: seq<Call>, outdiv1: nat) returns (last: Result, mode: int)
    requires g.Safe() && g.At(FEI) && calls != [] && outdiv1 < 16
    modifies g
    ensures g.Safe()
    ensures last.Hz? ==>
              var m := Target(calls[|calls| - 1].fn);
              && Chained(FEI, calls)
              && g.At(m) && mode == ModeCode(m)
              && last.freq == McgOut(g.R(), g.clk)
              && g.coreClock == last.freq / (1 + outdiv1)
    ensures last.Hz? && Target(calls[|calls| - 1].fn) == PEE ==>
              var setter := LastSetter(calls);
              && setter.Some? && setter.value.prdiv > 0
              && last.freq == PllHz(g.clk.xtal, setter.value.prdiv, setter.value.vdiv)
              && 48000000 <= last.freq <= 200000000
              && (setter.value.fn != BlpePbe || setter.value.vdiv <= 25 ==> last.freq <= 100000000)
  {
    mode := 0;
    last := RunCalls(g, calls);
    if last.Hz? {
      ghost var m, setter := EndMode(FEI, calls), LastSetter(calls);
      mode := Observe(g, m, outdiv1);
      if m == PEE {
        PllOutput(g.R(), g.clk, setter.value);
      }
    }
  }

  method RunCalls(g: Generator, calls: seq<Call>) returns (last: Result)
    requires g.Safe() && g.At(FEI) && calls != []
    modifies g`C1, g`C2, g`C5, g`C6, g`S, g`polls
    ensures g.Safe()
    ensures last.Hz? ==>
              && Chained(FEI, calls) && g.At(EndMode(FEI, calls))
              && last.freq == McgOut(g.R(), g.clk) && 0 <= last.freq < TWO_32
    ensures last.Hz? ==> SetBy(LastSetter(calls), g.R(), g.clk)
    ensures last.Hz? && (EndMode(FEI, calls) == PBE || EndMode(FEI, calls) == PEE) ==> LastSetter(calls).Some?
  {
    ghost var m, setter := FEI, None;
    last := Err(0);
    for i := 0 to |calls|
      invariant g.Safe() && g.At(m) && m == EndMode(FEI, calls[..i]) && Chained(FEI, calls[..i])
      invariant i > 0 ==> last.Hz? && last.freq == McgOut(g.R(), g.clk) && 0 <= last.freq < TWO_32
      invariant setter == LastSetter(calls[..i]) && SetBy(setter, g.R(), g.clk)
      invariant m == PBE || m == PEE ==> setter.Some?
    {
      last := DoMatching(g, m, setter, calls[i]);
      if last.Err? {
        return;
      }
      ChainStep(FEI, calls, i);
      SetterStep(calls, i);
      m, setter := Target(calls[i].fn), NextSetter(setter, calls[i]);
    }
    assert calls[..|calls|] == calls;
  }

  lemma SetterStep(calls: seq<Call>, i: nat)
    requires i < |calls|
    ensures LastSetter(calls[..i + 1]) == NextSetter(LastSetter(calls[..i]), calls[i])
  {
    assert calls[..i + 1][..i] == calls[..i];
  }

  /** One such call.  It fails only if its arguments do not match the board or are not allowed, if it was made in
      the wrong mode, if the FLL would be out of range, or if a status was really not reached. */
  method DoMatching(g: Generator, ghost m: Mode, ghost setter: Option<Call>, c: Call) returns (r: Result)
    requires g.Safe() && g.At(m) && SetBy(setter, g.R(), g.clk)
    modifies g`C1, g`C2, g`C5, g`C6, g`S, g`polls
    ensures g.Safe()
    ensures r.Hz? ==> Source(c.fn) == m && g.At(Target(c.fn))
                      && r.freq == McgOut(g.R(), g.clk) && 0 <= r.freq < TWO_32
    ensures r.Hz? ==> SetBy(NextSetter(setter, c), g.R(), g.clk)
    ensures r.Hz? && (Target(c.fn) == PBE || Target(c.fn) == PEE) ==> SetsPll(c.fn) || m == PBE || m == PEE
    ensures r.Err? ==> || !Matching(c, g.clk, old(g.C2.ircs)) || !Allowed(c, old(g.R())) || Source(c.fn) != m
                       || FllError(r.code) || TimedOut(r.code, g.S)
  {
    if !Matching(c, g.clk, g.C2.ircs) {
      return Err(0);
    }
    OneMode(m, Source(c.fn), g.R(), g.S);
    ChecksAllow(c, g.R());
    r := Do(g, c);
  }

  /** The mode query and the decoder on a settled generator. */
  method Observe(g: Generator, ghost m: Mode, outdiv1: nat) returns (mode: int)
    requires g.Safe() && g.At(m) && outdiv1 < 16 && 0 <= McgOut(g.R(), g.clk) < TWO_32
    modifies g`S, g`polls, g`coreClock
    ensures g.Safe() && g.At(m) && mode == ModeCode(m)
    ensures g.coreClock == McgOut(g.R(), g.clk) / (1 + outdiv1)
  {
    OneMode(m, m, g.R(), g.S);
    mode := g.WhatMode();
    SystemCoreClockUpdate(g, outdiv1);
  }

  /** The PLL output for dividers that passed the checks of `c`. */
  lemma PllOutput(r: Regs, clk: Clocks, c: Call)
    requires r.c1.clks == 0 && r.c6.plls && SetBy(Some(c), r, clk)
    ensures c.prdiv > 0 && McgOut(r, clk) == PllHz(clk.xtal, c.prdiv, c.vdiv)
    ensures 48000000 <= McgOut(r, clk) <= 200000000
    ensures c.fn != BlpePbe || c.vdiv <= 25 ==> McgOut(r, clk) <= 100000000
  {
    BlpePbeRange(clk.xtal, c.prdiv, c.vdiv);
    if c.vdiv <= 25 { BlpePbeCommentHoldsIff(c.vdiv); }
  }

  function EndMode(m: Mode, calls: seq<Call>): Mode {
    if calls == [] then m else Target(calls[|calls| - 1].fn)
  }

  /** Each call starts in the mode in which the one before it ended. */
  ghost predicate Chained(m: Mode, calls: seq<Call>) {
    forall i :: 0 <= i < |calls| ==> Source(calls[i].fn) == EndMode(m, calls[..i])
  }

  lemma ChainStep(m: Mode, calls: seq<Call>, i: nat)
    requires i < |calls| && Chained(m, calls[..i]) && Source(calls[i].fn) == EndMode(m, calls[..i])
    ensures Chained(m, calls[..i + 1])
  {
    var c := calls[..i + 1];
    forall k | 0 <= k < |c| ensures Source(c[k].fn) == EndMode(m, c[..k]) {
      assert c[..k] == calls[..k];
      if k < i { assert calls[..i][..k] == calls[..k] && calls[..i][k] == calls[k]; }
    }
  }

  // ---------- SystemCoreClockUpdate ----------

  /** The register-to-frequency decoder, in 32-bit arithmetic; CLKS = 3 is left alone. */
  method SystemCoreClockUpdate(g: Generator, outdiv1: nat)
    requires outdiv1 < 16
    modifies g`coreClock
    ensures g.coreClock == if g.C1.clks == 3 then old(g.coreClock)
                           else McgOut(g.R(), g.clk) % TWO_32 / (1 + outdiv1)
  {
    var mcgOut: int;
    if g.C1.clks == 0 {
      if !g.C6.plls {
        mcgOut := FllClock(g);
      } else {
        mcgOut := PllClock(g);
      }
    } else if g.C1.clks == 1 {
      if !g.C2.ircs {
        mcgOut := g.clk.slow;
      } else {
        mcgOut := g.clk.fast / Divisor(g.SC.fcrdiv);
        FastIsWord(g.clk.fast, g.SC.fcrdiv);
      }
      assert mcgOut == McgOut(g.R(), g.clk) % TWO_32;
    } else if g.C1.clks == 2 {
      mcgOut := g.clk.xtal;
    } else {
      return;
    }
    g.coreClock := mcgOut / (1 + outdiv1);
  }

  /** Its PLL branch: the reference, then the multiplier. */
  method PllClock(g: Generator) returns (mcgOut: int)
    ensures mcgOut == PllHz(g.clk.xtal, PrDiv(g.C5), VDiv(g.C6)) % TWO_32
  {
    var divider := (1 + g.C5.prdiv) % 256;
    assert divider == PrDiv(g.C5);
    mcgOut := g.clk.xtal / divider;
    divider := (g.C6.vdiv + 24) % 256;
    assert divider == VDiv(g.C6);
    mcgOut := mcgOut * divider % TWO_32;
  }

  /** Its FLL branch: the reference, then the multiplier selected by DMX32 and DRST_DRS. */
  method FllClock(g: Generator) returns (mcgOut: int)
    ensures mcgOut == FllRef(g.R(), g.clk) * Multiplier(g.C4) % TWO_32
  {
    if !g.C1.irefs {
      mcgOut := g.clk.xtal;
      var divider := Divisor(g.C1.frdiv) % 256;
      DivideTwice(mcgOut, g.C1.frdiv);
      mcgOut := mcgOut / divider;
      if g.C2.range != 0 {
        mcgOut := mcgOut / 32;
      }
    } else {
      mcgOut := g.clk.slow;
    }
    if !g.C4.dmx32 {
      match g.C4.drs {
        case 0 => mcgOut := mcgOut * 640 % TWO_32;
        case 1 => mcgOut := mcgOut * 1280 % TWO_32;
        case 2 => mcgOut := mcgOut * 1920 % TWO_32;
        case _ => mcgOut := mcgOut * 2560 % TWO_32;
      }
    } else {
      match g.C4.drs {
        case 0 => mcgOut := mcgOut * 732 % TWO_32;
        case 1 => mcgOut := mcgOut * 1464 % TWO_32;
        case 2 => mcgOut := mcgOut * 2197 % TWO_32;
        case _ => mcgOut := mcgOut * 2929 % TWO_32;
      }
    }
  }

  lemma DivideTwice(x: int, k: Field3)
    requires x >= 0
    ensures x / Divisor(k) / 32 == x / (32 * Divisor(k))
  {
    var p := Divisor(k);
    if p == 1 { } else if p == 2 { } else if p == 4 { } else if p == 8 { }
    else if p == 16 { } else if p == 32 { } else if p == 64 { } else { assert p == 128; }
  }

  lemma FastIsWord(x: int, k: Field3)
    requires 0 <= x < TWO_32
    ensures 0 <= x / Divisor(k) < TWO_32
  {
  }

  // ---------- pll_init against the step-by-step route ----------

  /** On two equal generators, one call of `pll_init` and the sequence `fei_fbe`, `fbe_pbe`, `pbe_pee`: if
      both succeed they leave the same control registers and return the same frequency; arguments that
      one of them does not accept fail in the other; and from a settled FEI, with the crystal of the
      board and arguments that are accepted, either fails only if a status was not reached. */
  method PllInitIsSequence(g: Generator, h: Generator, crystal: int, hgo: bv8, erefs: bv8, prdiv: int, vdiv: int,
                           mcgoutSelect: bv8)
    returns (a: Result, b: Result)
    requires g != h && g.Safe() && h.Safe() && g.R() == h.R() && g.clk == h.clk
    modifies g`C1, g`C2, g`C5, g`C6, g`S, g`polls, h`C1, h`C2, h`C5, h`C6, h`S, h`polls
    ensures a.Hz? && b.Hz? ==> g.R() == h.R() && a == b
    ensures PllInitCheck(crystal, erefs, prdiv, vdiv) != 0 ==> a.Err? && b.Err?
    ensures old(g.At(FEI) && h.At(FEI)) && crystal == g.clk.xtal && PllInitCheck(crystal, erefs, prdiv, vdiv) == 0 ==>
              (a.Err? ==> TimedOut(a.code, g.S)) && (b.Err? ==> TimedOut(b.code, h.S))
  {
    SameChecks(crystal, erefs, prdiv, vdiv);
    a := g.PllInit(crystal, hgo, erefs, prdiv, vdiv, mcgoutSelect);
    b := StepByStep(h, crystal, hgo, erefs, prdiv, vdiv);
  }

  method StepByStep(h: Generator, crystal: int, hgo: bv8, erefs: bv8, prdiv: int, vdiv: int) returns (b: Result)
    requires h.Safe()
    modifies h`C1, h`C2, h`C5, h`C6, h`S, h`polls
    ensures b.Hz? ==>
              && OscCheck(crystal, erefs) == 0 && PllCheck(crystal, prdiv, vdiv) == 0
              && h.R() == PllInitStage(old(h.R()), crystal, hgo, erefs, prdiv, vdiv, 0)
              && b.freq == PllHz(crystal, PrDiv(h.C5), VDiv(h.C6))
    ensures old(h.At(FEI)) && crystal == h.clk.xtal && b.Err? ==>
              OscCheck(crystal, erefs) != 0 || PllCheck(crystal, prdiv, vdiv) != 0 || TimedOut(b.code, h.S)
  {
    b := h.FeiFbe(crystal, hgo, erefs);
    if b.Err? { return; }
    b := h.FbePbe(crystal, prdiv, vdiv);
    if b.Err? { return; }
    b := h.PbePee(crystal);
  }

  /** The two ranges of crystals differ, but a reference in range excludes the difference. */
  lemma SameChecks(crystal: int, erefs: bv8, prdiv: int, vdiv: int)
    ensures PllInitCheck(crystal, erefs, prdiv, vdiv) == 0
            <==> OscCheck(crystal, erefs) == 0 && PllCheck(crystal, prdiv, vdiv) == 0
  {
    if PllCheck(crystal, prdiv, vdiv) == 0 { assert crystal >= 2000000; }
  }

  /** Told the wrong reference, `fbi_blpi` returns a frequency that is not the output: a board with the
      usual clocks, slow reference selected, called for the fast one. */
  method WrongIrcSelect(g: Generator) returns (r: Result)
    requires g.Safe() && g.At(FBI) && g.clk == Clocks(8000000, 32768, 4000000) && !g.C2.ircs && g.SC.fcrdiv == 0
    modifies g`C2, g`S, g`polls
    ensures r == Hz(4000000) && McgOut(g.R(), g.clk) == 32768
  {
    r := g.FbiBlpi(4000000, true);
  }
}
