/** The arithmetic of the audio player (src/ts/player.ts): the triangle wave used as a stereo
    pan, the two-tone envelopes of the FAD steering aid, and the normalisation of the
    echo gains of a ping. `Math.pow` is supplied by the caller; the Web Audio graph is not
    modelled. */
module Player {
  import Core
  import opened Wrappers

  /** `Math.PI`. */
  const Pi: real := Core.Pi

  const FADBaseGain: real := 0.05
  const FADExponent: real := 1.5

  /** `triangleWave(x)`: a wave of period 2π through 0 at 0, 1 at π/2 and -1 at 3π/2. */
  function TriangleWave(x: real): real
  {
    var delta := x / (2.0 * Pi) + 0.25;
    var phase := delta - delta.Floor as real;
    1.0 - 4.0 * Abs(phase - 0.5)
  }

  function Abs(a: real): (r: real)
    ensures 0.0 <= r && (r == a || r == -a)
  {
    if a < 0.0 then -a else a
  }

  /** The wave stays within [-1, 1]: the phase is reduced into [0, 1). */
  lemma TriangleWaveRange(x: real)
    ensures -1.0 <= TriangleWave(x) <= 1.0
  {
    var delta := x / (2.0 * Pi) + 0.25;
    assert delta.Floor as real <= delta < delta.Floor as real + 1.0;
  }

  /** Shifting the phase by a whole turn does not change its fractional part. */
  lemma FloorShift(d: real)
    ensures (d + 1.0).Floor == d.Floor + 1 && (d - 1.0).Floor == d.Floor - 1
  {
  }

  /** The wave repeats every 2π, forwards and backwards. */
  lemma TriangleWavePeriodic(x: real)
    ensures TriangleWave(x + 2.0 * Pi) == TriangleWave(x)
    ensures TriangleWave(x - 2.0 * Pi) == TriangleWave(x)
  {
    var delta := x / (2.0 * Pi) + 0.25;
    assert (x + 2.0 * Pi) / (2.0 * Pi) + 0.25 == delta + 1.0;
    assert (x - 2.0 * Pi) / (2.0 * Pi) + 0.25 == delta - 1.0;
    FloorShift(delta);
  }

  /** The sample points 0, π/4, π/2, π and 3π/2 give 0, 0.5, 1, 0 and -1. */
  lemma TriangleWaveSamples()
    ensures TriangleWave(0.0) == 0.0
    ensures TriangleWave(Pi / 4.0) == 0.5
    ensures TriangleWave(Pi / 2.0) == 1.0
    ensures TriangleWave(Pi) == 0.0
    ensures TriangleWave(3.0 * Pi / 2.0) == -1.0
  {
    assert (Pi / 4.0) / (2.0 * Pi) == 0.125;
    assert (Pi / 2.0) / (2.0 * Pi) == 0.25;
    assert Pi / (2.0 * Pi) == 0.5;
    assert (3.0 * Pi / 2.0) / (2.0 * Pi) == 0.75;
    assert (0.25).Floor == 0 && (0.375).Floor == 0 && (0.5).Floor == 0 && (0.75).Floor == 0 && (1.0).Floor == 1;
  }

  function Max(a: real, b: real): real
  {
    if a < b then b else a
  }

  function Min(a: real, b: real): real
  {
    if a < b then a else b
  }

  /** The base of the positive tone's envelope at normalised direction `d` (the bearing over
      π): rising from 0 at dead ahead to 1 at 2/3, falling after; on the other side, silent
      down to -2/3 and then rising towards 1/2 at -1. */
  function PositiveBase(d: real): real
  {
    if d < 0.0 then Max(-1.0 - 3.0 / 2.0 * d, 0.0)
    else Min(3.0 / 2.0 * d, 2.0 - 3.0 / 2.0 * d)
  }

  /** The base of the negative tone's envelope: the same shape, mirrored. */
  function NegativeBase(d: real): real
  {
    if 0.0 < d then Max(-1.0 + 3.0 / 2.0 * d, 0.0)
    else Min(-3.0 / 2.0 * d, 2.0 + 3.0 / 2.0 * d)
  }

  /** For a normalised direction both bases are in [0, 1], so `pow` gets a valid base. */
  lemma BasesInRange(d: real)
    requires -1.0 <= d <= 1.0
    ensures 0.0 <= PositiveBase(d) <= 1.0 && 0.0 <= NegativeBase(d) <= 1.0
  {
  }

  /** Dead ahead both tones are silent; the positive tone peaks at d = 2/3, the negative one at
      d = -2/3. */
  lemma BaseLandmarks()
    ensures PositiveBase(0.0) == 0.0 && NegativeBase(0.0) == 0.0
    ensures PositiveBase(2.0 / 3.0) == 1.0 && NegativeBase(-2.0 / 3.0) == 1.0
  {
  }

  /** The negative tone at d is the positive tone at -d. */
  lemma BasesMirror(d: real)
    ensures NegativeBase(d) == PositiveBase(-d)
  {
  }

  /** The gains `FAD.set(direction)` leaves on the two tones: both 0 for `null`, otherwise the
      base gain times each base raised to the exponent, the direction first divided by π. */
  function FadGains(direction: Option<real>, pow: (real, real) -> real): (real, real)
  {
    if direction.None? then (0.0, 0.0)
    else
      var d := direction.value / Pi;
      (FADBaseGain * pow(PositiveBase(d), FADExponent), FADBaseGain * pow(NegativeBase(d), FADExponent))
  }

  /** Turning the ship round swaps the two tones. */
  lemma FadGainsMirror(direction: real, pow: (real, real) -> real)
    ensures var (p, n) := FadGains(Some(direction), pow);
      FadGains(Some(-direction), pow) == (n, p)
  {
    assert -direction / Pi == -(direction / Pi);
    BasesMirror(direction / Pi);
    BasesMirror(-direction / Pi);
  }

  /** With a power that maps 0 to 0, dead ahead is silent. */
  lemma DeadAheadSilent(pow: (real, real) -> real)
    requires pow(0.0, FADExponent) == 0.0
    ensures FadGains(Some(0.0), pow) == (0.0, 0.0)
  {
  }

  /** `FAD`: the gain values of its two tones. */
  class Fad {
    var positiveGain: real
    var negativeGain: real

    /** The tones start silent (`set(null)`). */
    constructor ()
      ensures positiveGain == 0.0 && negativeGain == 0.0
    {
      positiveGain := 0.0;
      negativeGain := 0.0;
    }

    method Set(direction: Option<real>, pow: (real, real) -> real)
      modifies this
      ensures (positiveGain, negativeGain) == FadGains(direction, pow)
    {
      if direction.None? {
        positiveGain := 0.0;
        negativeGain := 0.0;
        return;
      }
      var d := direction.value / Pi;
      positiveGain := FADBaseGain * pow(
        if d < 0.0 then Max(-1.0 - 3.0 / 2.0 * d, 0.0) else Min(3.0 / 2.0 * d, 2.0 - 3.0 / 2.0 * d),
        FADExponent);
      negativeGain := FADBaseGain * pow(
        if 0.0 < d then Max(-1.0 + 3.0 / 2.0 * d, 0.0) else Min(-3.0 / 2.0 * d, 2.0 + 3.0 / 2.0 * d),
        FADExponent);
    }
  }

  /** `dbToGain(db) = 10^(db / 20)`. */
  function DbToGain(db: real, pow: (real, real) -> real): real
  {
    pow(10.0, db / 20.0)
  }

  /** What a true power of ten guarantees here: it is positive. */
  ghost predicate PositivePowersOfTen(pow: (real, real) -> real)
  {
    forall e :: 0.0 < pow(10.0, e)
  }

  /** One echo of a ping (`core.Pong`): its delay, its attenuation in decibels and its
      bearing relative to the ship. */
  datatype Pong = Pong(delay: real, attenuation: real, relativeBearing: real)

  /** The delay, gain and stereo pan of one echo node chain. */
  datatype EchoNode = EchoNode(delay: real, gain: real, pan: real)

  /** The raw gain of one echo, from its attenuation. */
  function RawGain(p: Pong, pow: (real, real) -> real): real
  {
    DbToGain(-p.attenuation, pow)
  }

  /** The sum of the echoes' raw gains. */
  function TotalGain(pongs: seq<Pong>, pow: (real, real) -> real): real
  {
    if pongs == [] then 0.0
    else TotalGain(pongs[..|pongs| - 1], pow) + RawGain(pongs[|pongs| - 1], pow)
  }

  function Sum(xs: seq<real>): real
  {
    if xs == [] then 0.0 else Sum(xs[..|xs| - 1]) + xs[|xs| - 1]
  }

  /** Each raw gain divided by `t`. */
  function Quotients(pongs: seq<Pong>, pow: (real, real) -> real, t: real): (qs: seq<real>)
    requires t != 0.0
    ensures |qs| == |pongs|
  {
    seq(|pongs|, i requires 0 <= i < |pongs| => RawGain(pongs[i], pow) / t)
  }

  /** Each echo's raw gain over the total. */
  function Normalised(pongs: seq<Pong>, pow: (real, real) -> real): (gains: seq<real>)
    requires PositivePowersOfTen(pow)
    ensures |gains| == |pongs|
  {
    if pongs == [] then []
    else
      TotalGainBounds(pongs, pow);
      Quotients(pongs, pow, TotalGain(pongs, pow))
  }

  /** With positive raw gains the total is positive and at least each one of them. */
  lemma {:induction false} TotalGainBounds(pongs: seq<Pong>, pow: (real, real) -> real)
    requires PositivePowersOfTen(pow) && pongs != []
    ensures 0.0 < TotalGain(pongs, pow)
    ensures forall i :: 0 <= i < |pongs| ==> 0.0 < RawGain(pongs[i], pow) <= TotalGain(pongs, pow)
  {
    var init := pongs[..|pongs| - 1];
    var last := RawGain(pongs[|pongs| - 1], pow);
    assert 0.0 < last;
    if init != [] {
      TotalGainBounds(init, pow);
      forall i | 0 <= i < |init|
        ensures RawGain(pongs[i], pow) <= TotalGain(pongs, pow)
      {
        assert pongs[i] == init[i];
      }
    }
  }

  /** Dividing every term by `t` divides the sum by `t`. */
  lemma {:induction false} SumOfQuotients(pongs: seq<Pong>, pow: (real, real) -> real, t: real)
    requires t != 0.0
    ensures Sum(Quotients(pongs, pow, t)) == TotalGain(pongs, pow) / t
  {
    var qs := Quotients(pongs, pow, t);
    if pongs != [] {
      var init := pongs[..|pongs| - 1];
      SumOfQuotients(init, pow, t);
      assert qs[..|qs| - 1] == Quotients(init, pow, t);
      var a := TotalGain(init, pow);
      var b := RawGain(pongs[|pongs| - 1], pow);
      assert a / t + b / t == (a + b) / t;
    }
  }

  /** A positive part of a positive whole is a share in (0, 1]. */
  lemma ShareOfWhole(part: real, whole: real)
    requires 0.0 < part <= whole
    ensures 0.0 < part / whole <= 1.0
  {
    var q := part / whole;
    assert q * whole == part;
  }

  /** For a non-empty ping with positive raw gains, every echo's gain is in (0, 1] and the
      gains add up to 1. */
  lemma NormalisedGains(pongs: seq<Pong>, pow: (real, real) -> real)
    requires PositivePowersOfTen(pow) && pongs != []
    ensures forall i :: 0 <= i < |pongs| ==> 0.0 < Normalised(pongs, pow)[i] <= 1.0
    ensures Sum(Normalised(pongs, pow)) == 1.0
  {
    TotalGainBounds(pongs, pow);
    var total := TotalGain(pongs, pow);
    assert Normalised(pongs, pow) == Quotients(pongs, pow, total);
    SharesBounded(pongs, pow, total);
    SumOfQuotients(pongs, pow, total);
    WholeOverWhole(total);
  }

  lemma WholeOverWhole(t: real)
    requires t != 0.0
    ensures t / t == 1.0
  {
  }

  /** Positive raw gains each at most `total` give shares in (0, 1]. */
  lemma SharesBounded(pongs: seq<Pong>, pow: (real, real) -> real, total: real)
    requires 0.0 < total
    requires forall i :: 0 <= i < |pongs| ==> 0.0 < RawGain(pongs[i], pow) <= total
    ensures forall i :: 0 <= i < |pongs| ==> 0.0 < Quotients(pongs, pow, total)[i] <= 1.0
  {
    forall i | 0 <= i < |pongs|
      ensures 0.0 < Quotients(pongs, pow, total)[i] <= 1.0
    {
      ShareOfWhole(RawGain(pongs[i], pow), total);
    }
  }

  /** The two loops of `ping`: total the raw gains, then make one echo chain per pong with its
      delay, its share of the total and a pan from its relative bearing. */
  method PingEchoes(pongs: seq<Pong>, pow: (real, real) -> real) returns (echoes: seq<EchoNode>)
    requires PositivePowersOfTen(pow)
    ensures |echoes| == |pongs|
    ensures forall i :: 0 <= i < |pongs| ==>
      echoes[i] == EchoNode(pongs[i].delay, Normalised(pongs, pow)[i], TriangleWave(pongs[i].relativeBearing))
  {
    var totalGain := 0.0;
    for i := 0 to |pongs|
      invariant totalGain == TotalGain(pongs[..i], pow)
    {
      assert pongs[..i + 1][..i] == pongs[..i];
      totalGain := totalGain + RawGain(pongs[i], pow);
    }
    assert pongs[..|pongs|] == pongs;
    if pongs == [] {
      return [];
    }
    TotalGainBounds(pongs, pow);
    ghost var gains := Quotients(pongs, pow, totalGain);
    assert gains == Normalised(pongs, pow);
    echoes := [];
    for i := 0 to |pongs|
      invariant |echoes| == i
      invariant forall j :: 0 <= j < i ==>
        echoes[j] == EchoNode(pongs[j].delay, gains[j], TriangleWave(pongs[j].relativeBearing))
    {
      var gain := DbToGain(-pongs[i].attenuation, pow) / totalGain;
      echoes := echoes + [EchoNode(pongs[i].delay, gain, TriangleWave(pongs[i].relativeBearing))];
    }
  }
}
