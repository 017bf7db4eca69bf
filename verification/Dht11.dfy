/** The sensor routines of dht11.c: the bit receiver and the infrared pulse stretcher. */
module Dht11 {
  import opened Bits
  import opened Common

  /** One read of the data pin, and the value of the tick counter at that moment. */
  datatype Sample = Sample(high: bool, tick: int)

  /** The counter difference as the source computes it: modulo 2^32, as a signed number. */
  function Elapsed(from: int, to: int): int {
    var d := (to - from) % TWO_32;
    if d < 0x8000_0000 then d else d - TWO_32
  }

  // ---------- Pulses in a stream of samples ----------

  /** The first position from `p` on whose level is `high`, or the end. */
  function Seek(w: seq<Sample>, p: nat, high: bool): (q: nat)
    requires p <= |w|
    ensures p <= q <= |w| && (q < |w| ==> w[q].high == high) && forall k :: p <= k < q ==> w[k].high != high
    decreases |w| - p
  {
    if p < |w| && w[p].high != high then Seek(w, p + 1, high) else p
  }

  /** Where the pulse that follows `p` begins and ends. */
  function Rise(w: seq<Sample>, p: nat): nat
    requires p <= |w|
  {
    Seek(w, p, true)
  }

  function Fall(w: seq<Sample>, p: nat): (q: nat)
    requires p <= |w|
    ensures p <= q <= |w|
  {
    Seek(w, Rise(w, p), false)
  }

  /** A pulse of more than 5 ticks is a one. */
  function PulseBit(w: seq<Sample>, p: nat): (bit: nat)
    requires p <= |w| && Fall(w, p) < |w|
    ensures bit < 2
  {
    if Elapsed(w[Rise(w, p)].tick, w[Fall(w, p)].tick) <= 5 then 0 else 1
  }

  /** Pulses follow one another without a break: number k is found from starts[k] on, and the read that
      sees its end is the last before starts[k + 1]. */
  ghost predicate Train(w: seq<Sample>, starts: seq<nat>) {
    && (forall k :: 0 <= k < |starts| ==> starts[k] <= |w|)
    && (forall k :: 0 <= k < |starts| - 1 ==> Follows(w, starts, k))
  }

  ghost predicate Follows(w: seq<Sample>, starts: seq<nat>, k: nat)
    requires k + 1 < |starts| && starts[k] <= |w|
  {
    Fall(w, starts[k]) < |w| && starts[k + 1] == Fall(w, starts[k]) + 1
  }

  /** Pulse number `k + j` is digit `j` of the byte `b`. */
  ghost predicate Sends(w: seq<Sample>, starts: seq<nat>, k: nat, b: nat, j: nat)
    requires Train(w, starts) && k + j + 1 < |starts| && j < 8
  {
    assert Follows(w, starts, k + j);
    PulseBit(w, starts[k + j]) == if Bit(b, 7 - j) then 1 else 0
  }

  /** The eight pulses from number `k` on carry `b`, most significant bit first. */
  ghost predicate CarriesByte(w: seq<Sample>, starts: seq<nat>, k: nat, b: nat)
    requires Train(w, starts)
  {
    && k + 8 < |starts| && b < 256
    && forall j :: 0 <= j < 8 ==> Sends(w, starts, k, b, j)
  }

  /** The 40 pulses carry the five bytes in order. */
  ghost predicate Carries(w: seq<Sample>, starts: seq<nat>, bytes: seq<nat>) {
    && Train(w, starts) && |bytes| == 5 && |starts| == 41
    && forall i :: 0 <= i < 5 ==> CarriesByte(w, starts, 8 * i, bytes[i])
  }

  // ---------- BitRec ----------

  class Sensor {
    var RecHumI: int
    var RecHumD: int
    var RecTI: int
    var RecTD: int
    var Rec: int
    /** The samples that the pin will deliver, and how many have been read. */
    const wave: seq<Sample>
    var pos: nat

    constructor (wave: seq<Sample>)
      ensures this.wave == wave && pos == 0
    {
      this.wave, pos := wave, 0;
      RecHumI, RecHumD, RecTI, RecTD, Rec := 0, 0, 0, 0, 0;
    }

    method ReadPin() returns (s: Sample)
      requires pos < |wave|
      modifies `pos
      ensures s == wave[old(pos)] && pos == old(pos) + 1
    {
      s := wave[pos];
      pos := pos + 1;
    }

    /** Wait for a pulse and measure it. */
    method MeasurePulse() returns (inter: int)
      requires pos <= |wave| && Fall(wave, pos) < |wave|
      modifies `pos
      ensures pos == Fall(wave, old(pos)) + 1
      ensures inter == Elapsed(wave[Rise(wave, old(pos))].tick, wave[Fall(wave, old(pos))].tick)
    {
      ghost var p := pos;
      var a := ReadPin();
      while !a.high
        invariant p < pos <= |wave| && a == wave[pos - 1]
        invariant Rise(wave, p) == Seek(wave, pos - 1, true)
        decreases |wave| - pos
      {
        a := ReadPin();
      }
      assert Rise(wave, p) == pos - 1;
      var begin := a.tick;
      while a.high
        invariant begin == wave[Rise(wave, p)].tick
        invariant Rise(wave, p) < pos <= |wave| && a == wave[pos - 1]
        invariant Fall(wave, p) == Seek(wave, pos - 1, false)
        decreases |wave| - pos
      {
        a := ReadPin();
      }
      assert Fall(wave, p) == pos - 1;
      inter := Elapsed(begin, a.tick);
    }

    /** Eight pulses, number `k` and after, go into Rec. */
    method ReadByte(ghost starts: seq<nat>, ghost k: nat, ghost b: nat)
      requires Train(wave, starts) && CarriesByte(wave, starts, k, b) && pos == starts[k]
      modifies `pos, `Rec
      ensures Rec == b && pos == starts[k + 8]
    {
      Rec := 0;
      assert Pow2(8) == 256;
      ShrAll(b, 8);
      var j := 0;
      while j <= 7
        invariant 0 <= j <= 8 && pos == starts[k + j] && Rec == Shr(b, 8 - j)
      {
        assert Sends(wave, starts, k, b, j) && Follows(wave, starts, k + j);
        ShrStep(b, 7 - j);
        var inter := MeasurePulse();
        if inter <= 0x05 {
          Rec := Rec * 2;
        } else {
          Rec := Rec * 2;
          Rec := Rec + 1;
        }
        j := j + 1;
      }
    }

    /** Whatever five bytes the waveform carries, the first four are stored in order and the result is 1
        exactly if their sum modulo 256 is the fifth. */
    method BitRec(ghost starts: seq<nat>, ghost bytes: seq<nat>) returns (ret: int)
      requires Carries(wave, starts, bytes) && pos == starts[0]
      modifies `pos, `Rec, `RecHumI, `RecHumD, `RecTI, `RecTD
      ensures [RecHumI, RecHumD, RecTI, RecTD] == bytes[..4]
      ensures ret == if (bytes[0] + bytes[1] + bytes[2] + bytes[3]) % 256 == bytes[4] then 1 else 0
      ensures pos == starts[40]
    {
      ret := 0;
      var i := 1;
      while i <= 5
        invariant 1 <= i <= 5 && pos == starts[8 * (i - 1)]
        invariant i > 1 ==> RecHumI == bytes[0]
        invariant i > 2 ==> RecHumD == bytes[1]
        invariant i > 3 ==> RecTI == bytes[2]
        invariant i > 4 ==> RecTD == bytes[3]
        decreases 5 - i
      {
        ReadByte(starts, 8 * (i - 1), bytes[i - 1]);
        if i == 1 { RecHumI := Rec; }
        else if i == 2 { RecHumD := Rec; }
        else if i == 3 { RecTI := Rec; }
        else if i == 4 { RecTD := Rec; }
        else {
          ret := Rec;
          var sum := RecHumI + RecHumD + RecTD + RecTI;
          sum := sum % 256;
          return if sum == ret then 1 else 0;
        }
        i := i + 1;
      }
    }
  }

  // ---------- Digits of a byte ----------

  function Shr(v: nat, k: nat): nat { if k == 0 then v else Shr(v / 2, k - 1) }

  lemma {:induction false} ShrStep(v: nat, k: nat)
    ensures Shr(v, k) == 2 * Shr(v, k + 1) + if Bit(v, k) then 1 else 0
  {
    if k > 0 { ShrStep(v / 2, k - 1); }
  }

  lemma {:induction false} ShrAll(v: nat, k: nat)
    requires v < Pow2(k)
    ensures Shr(v, k) == 0
  {
    if k > 0 { ShrAll(v / 2, k - 1); }
  }

  // ---------- Every train carries exactly one frame ----------

  /** The value of `n` pulses from number `k` on. */
  ghost function BitsValue(w: seq<Sample>, starts: seq<nat>, k: nat, n: nat): (v: nat)
    requires Train(w, starts) && k + n < |starts|
    ensures v < Pow2(n)
  {
    if n == 0 then 0 else
      assert Follows(w, starts, k + n - 1);
      2 * BitsValue(w, starts, k, n - 1) + PulseBit(w, starts[k + n - 1])
  }

  lemma {:induction false} BitsOfValue(w: seq<Sample>, starts: seq<nat>, k: nat, n: nat, j: nat)
    requires Train(w, starts) && k + n < |starts| && j < n
    ensures Follows(w, starts, k + j)
    ensures PulseBit(w, starts[k + j]) == if Bit(BitsValue(w, starts, k, n), n - 1 - j) then 1 else 0
  {
    assert Follows(w, starts, k + n - 1);
    var v, p := BitsValue(w, starts, k, n - 1), PulseBit(w, starts[k + n - 1]);
    assert BitsValue(w, starts, k, n) == 2 * v + p;
    AppendedBit(v, p, n - 1 - j);
    if j < n - 1 { BitsOfValue(w, starts, k, n - 1, j); }
  }

  lemma AppendedBit(v: nat, p: nat, m: nat)
    requires p < 2
    ensures Bit(2 * v + p, m) == if m == 0 then p == 1 else Bit(v, m - 1)
  {
    assert (2 * v + p) / 2 == v;
  }

  /** The receiver decodes any 40 pulses: they carry some frame ... */
  lemma EveryTrainCarries(w: seq<Sample>, starts: seq<nat>) returns (bytes: seq<nat>)
    requires Train(w, starts) && |starts| == 41
    ensures Carries(w, starts, bytes)
  {
    bytes := seq(5, i requires 0 <= i < 5 => BitsValue(w, starts, 8 * i, 8));
    forall i | 0 <= i < 5 ensures CarriesByte(w, starts, 8 * i, bytes[i]) {
      assert Pow2(8) == 256;
      forall j | 0 <= j < 8 ensures Sends(w, starts, 8 * i, bytes[i], j) {
        BitsOfValue(w, starts, 8 * i, 8, j);
      }
    }
  }

  /** ... and no other. */
  lemma OneFrame(w: seq<Sample>, starts: seq<nat>, a: seq<nat>, b: seq<nat>)
    requires Carries(w, starts, a) && Carries(w, starts, b)
    ensures a == b
  {
    forall i | 0 <= i < 5 ensures a[i] == b[i] {
      assert CarriesByte(w, starts, 8 * i, a[i]) && CarriesByte(w, starts, 8 * i, b[i]);
      forall j | 0 <= j < 8 ensures Bit(a[i], j) == Bit(b[i], j) {
        assert Sends(w, starts, 8 * i, a[i], 7 - j) && Sends(w, starts, 8 * i, b[i], 7 - j);
      }
      assert Pow2(8) == 256;
      SameBits(a[i], b[i], 8);
    }
  }

  /** A sensor's side: pulse number k begins at time rise[k] and lasts length[k] ticks, and all that the
      receiver sees of the time is a counter of 32 bits. */
  function Transmitted(rise: seq<int>, length: seq<nat>): (w: seq<Sample>)
    requires |rise| == |length| == 40
    ensures |w| == 80
  {
    seq(80, p requires 0 <= p < 80 =>
      if p % 2 == 0 then Sample(true, rise[p / 2] % TWO_32)
      else Sample(false, (rise[p / 2] + length[p / 2]) % TWO_32))
  }

  /** Each of its pulses takes two samples. */
  function PulseStarts(): (starts: seq<nat>)
    ensures |starts| == 41
  {
    seq(41, k requires 0 <= k < 41 => 2 * k)
  }

  /** The difference is the length of the pulse, wherever the counter wraps around, if that is less than half
      of the counter's range; a longer one looks negative. */
  lemma ElapsedWraps(t: int, length: nat)
    requires length < TWO_32
    ensures Elapsed(t % TWO_32, (t + length) % TWO_32) == if length < 0x8000_0000 then length else length - TWO_32
  {
    assert ((t + length) % TWO_32 - t % TWO_32) % TWO_32 == length by { DifferenceWraps(t, length); }
  }

  lemma DifferenceWraps(t: int, length: nat)
    requires length < TWO_32
    ensures ((t + length) % TWO_32 - t % TWO_32) % TWO_32 == length
  {
    var q, m := t / TWO_32, t % TWO_32;
    assert t == q * TWO_32 + m;
    if m + length < TWO_32 {
      assert (t + length) % TWO_32 == m + length;
    } else {
      assert t + length == (q + 1) * TWO_32 + (m + length - TWO_32);
      assert (t + length) % TWO_32 == m + length - TWO_32;
    }
  }

  /** Of what length the pulse for a one must be; any other stands for a zero. */
  predicate IsOne(length: nat) { 6 <= length < 0x8000_0000 }

  lemma TransmittedPulse(rise: seq<int>, length: seq<nat>, k: nat)
    requires |rise| == |length| == 40 && k < 40 && length[k] < TWO_32
    ensures Fall(Transmitted(rise, length), 2 * k) == 2 * k + 1
    ensures PulseBit(Transmitted(rise, length), 2 * k) == if IsOne(length[k]) then 1 else 0
  {
    var w := Transmitted(rise, length);
    assert (2 * k) / 2 == k && (2 * k + 1) / 2 == k;
    assert w[2 * k] == Sample(true, rise[k] % TWO_32);
    assert Rise(w, 2 * k) == 2 * k;
    assert w[2 * k + 1] == Sample(false, (rise[k] + length[k]) % TWO_32);
    assert Seek(w, 2 * k, false) == Seek(w, 2 * k + 1, false) == 2 * k + 1;
    ElapsedWraps(rise[k], length[k]);
  }

  lemma TransmittedTrain(rise: seq<int>, length: seq<nat>)
    requires |rise| == |length| == 40 && forall k :: 0 <= k < 40 ==> length[k] < TWO_32
    ensures Train(Transmitted(rise, length), PulseStarts())
  {
    forall k | 0 <= k < 40 ensures Follows(Transmitted(rise, length), PulseStarts(), k) {
      TransmittedPulse(rise, length, k);
    }
  }

  /** Pulse number k is as long as digit number k of the frame asks for. */
  predicate Encodes(length: seq<nat>, bytes: seq<nat>, k: nat)
    requires |length| == 40 && |bytes| == 5 && k < 40
  {
    IsOne(length[k]) <==> Bit(bytes[k / 8], 7 - k % 8)
  }

  lemma TransmittedSends(rise: seq<int>, length: seq<nat>, bytes: seq<nat>, i: nat, j: nat)
    requires |rise| == |length| == 40 && |bytes| == 5 && i < 5 && j < 8 && length[8 * i + j] < TWO_32
    requires Train(Transmitted(rise, length), PulseStarts())
    ensures Sends(Transmitted(rise, length), PulseStarts(), 8 * i, bytes[i], j) <==> Encodes(length, bytes, 8 * i + j)
  {
    var k := 8 * i + j;
    assert k / 8 == i && k % 8 == j && PulseStarts()[k] == 2 * k;
    assert Follows(Transmitted(rise, length), PulseStarts(), k);
    TransmittedPulse(rise, length, k);
  }

  /** What is received is what is sent, whenever the pulses come and wherever the counter wraps around,
      exactly if each pulse is as long as its digit asks for. */
  lemma TransmittedCarries(rise: seq<int>, length: seq<nat>, bytes: seq<nat>)
    requires |rise| == |length| == 40 && forall k :: 0 <= k < 40 ==> length[k] < TWO_32
    requires |bytes| == 5 && forall i :: 0 <= i < 5 ==> bytes[i] < 256
    ensures PulseStarts()[0] == 0
    ensures Carries(Transmitted(rise, length), PulseStarts(), bytes)
            <==> forall k :: 0 <= k < 40 ==> Encodes(length, bytes, k)
  {
    var w, starts := Transmitted(rise, length), PulseStarts();
    TransmittedTrain(rise, length);
    forall i, j | 0 <= i < 5 && 0 <= j < 8
      ensures Sends(w, starts, 8 * i, bytes[i], j) <==> Encodes(length, bytes, 8 * i + j)
    {
      TransmittedSends(rise, length, bytes, i, j);
    }
    if Carries(w, starts, bytes) {
      forall k | 0 <= k < 40 ensures Encodes(length, bytes, k) {
        assert CarriesByte(w, starts, 8 * (k / 8), bytes[k / 8]);
        assert Sends(w, starts, 8 * (k / 8), bytes[k / 8], k % 8);
      }
    }
  }

  // ---------- GetInfrared ----------

  /** The delay counter after a history of calls; each entry says whether all three samples were high. */
  function Counter(history: seq<bool>): (c: int)
    ensures 0 <= c <= 10
  {
    if history == [] then 0
    else if history[|history| - 1] then 0
    else
      var c := Counter(history[..|history| - 1]) + 1;
      if c < 10 then c else 10
  }

  class Infrared {
    var DelayCounter: int
    ghost var history: seq<bool>

    ghost predicate Valid()
      reads this
    {
      DelayCounter == Counter(history)
    }

    constructor ()
      ensures Valid() && history == []
    {
      DelayCounter, history := 0, [];
    }

    /** The pulse is stretched to ten calls: over every history of calls the result is 1 exactly if all
        three samples of one of the last ten calls were high, or there have been fewer than ten. */
    method GetInfrared(samples: seq<bool>) returns (r: int)
      requires Valid() && |samples| == 3
      modifies this
      ensures Valid() && history == old(history) + [samples == [true, true, true]]
      ensures r == if |history| < 10 || Triggered(history, 10) then 1 else 0
    {
      var j := 0;
      DelayCounter := DelayCounter + 1;
      var i := 0;
      while i < 3
        invariant 0 <= i <= 3 && 0 <= j <= i && (j == i <==> forall k :: 0 <= k < i ==> samples[k])
      {
        if samples[i] {
          j := j + 1;
        }
        i := i + 1;
      }
      if j > 2 {
        DelayCounter := 0;
      }
      history := history + [samples == [true, true, true]];
      assert history[..|history| - 1] == old(history);
      CounterBelow(history, 10);
      if DelayCounter < 10 {
        return 1;
      } else {
        DelayCounter := 10;
        return 0;
      }
    }
  }

  /** One of the last `d` calls saw all three samples high. */
  ghost predicate Triggered(history: seq<bool>, d: nat) {
    exists k :: |history| - d <= k < |history| && 0 <= k && history[k]
  }

  lemma {:induction false} CounterBelow(history: seq<bool>, d: nat)
    requires d <= 10
    ensures Counter(history) < d <==> |history| < d || Triggered(history, d)
  {
    if history != [] && d > 0 {
      var n := |history| - 1;
      var before := history[..n];
      CounterBelow(before, d - 1);
      if history[n] {
        assert Triggered(history, d);
      } else {
        if Triggered(before, d - 1) {
          var k :| |before| - (d - 1) <= k < |before| && 0 <= k && before[k];
          assert history[k];
        }
        if Triggered(history, d) {
          var k :| |history| - d <= k < |history| && 0 <= k && history[k];
          assert before[k];
        }
      }
    }
  }
}
