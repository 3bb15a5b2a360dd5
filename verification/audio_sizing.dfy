/**
 * The sizing arithmetic of the audio engine's drain step, over exact reals:
 * the worst-case output size of a chunk, and the input prefix that fits the
 * room left in the output buffer.
 */
module AudioSizing {

  /** The largest integer not above `x`. */
  function Floor(x: real): (r: int)
    ensures r as real <= x < r as real + 1.0
  {
    x.Floor
  }

  /** The smallest integer not below `x`. */
  function Ceil(x: real): (r: int)
    ensures x <= r as real < x + 1.0
  {
    -((-x).Floor)
  }

  /** Samples after stretching `inSize` samples by `stretch`, rounded up. */
  function StretchedSize(inSize: int, stretch: real): (r: int)
    ensures inSize as real * stretch <= r as real < inSize as real * stretch + 1.0
  {
    Ceil(inSize as real * stretch)
  }

  /**
   * The worst-case output size of `inSize` input samples: stretch (rounded
   * up), remix with `remixed`, then resample from `rawRate` to `targetRate`
   * (rounded up).
   */
  function DesiredOutSize(inSize: int, stretch: real, remixed: int -> int, rawRate: int, targetRate: int): (r: int)
    requires rawRate > 0
    ensures var exact := remixed(StretchedSize(inSize, stretch)) as real * targetRate as real / rawRate as real;
      exact <= r as real < exact + 1.0
  {
    Ceil(remixed(StretchedSize(inSize, stretch)) as real * targetRate as real / rawRate as real)
  }

  /**
   * The input samples that can be processed: all of them when the desired
   * size fits `outSize`, otherwise the input scaled down by the ratio of
   * desired output to input, rounded down. An empty input whose desired size
   * does not fit gives 0 (the division by an infinite factor).
   */
  function ProcessableSize(inSize: nat, outSize: nat, desired: int): (p: int)
    ensures 0 <= p <= inSize
    ensures desired <= outSize ==> p == inSize
    ensures inSize > 0 && desired > outSize ==> p < inSize
  {
    if desired <= outSize then inSize
    else if inSize == 0 then 0
    else
      ScaledFloorBelow(outSize as real, desired as real, inSize as real);
      Floor(outSize as real / (desired as real / inSize as real))
  }

  /**
   * When the desired size does not fit, the processable prefix is the
   * largest count whose share of the desired size fits `outSize`.
   */
  lemma ProcessablePrefix(inSize: nat, outSize: nat, desired: int)
    ensures var p := ProcessableSize(inSize, outSize, desired);
      inSize > 0 && desired > outSize ==>
        && p as real * desired as real / inSize as real <= outSize as real
        && (p + 1) as real * desired as real / inSize as real > outSize as real
  {
    if inSize > 0 && desired > outSize {
      ScaledFloorFits(outSize as real, desired as real, inSize as real);
      ScaledFloorMaximal(outSize as real, desired as real, inSize as real);
    }
  }

  /** Rounding `o / (d / n)` down, for `o < d`, gives fewer than `n`. */
  lemma ScaledFloorBelow(o: real, d: real, n: real)
    requires 0.0 <= o < d && n > 0.0
    ensures 0 <= Floor(o / (d / n)) && (Floor(o / (d / n)) as real) < n
  {
    var factor := d / n;
    var p := Floor(o / factor);
    FloorOfQuotient(o, factor);
    ShareOf(n, d, n);
    if p as real >= n {
      ScaleMonotonic(n, p as real, factor);
    }
  }

  /** The count `Floor(o / (d / n))` takes a share of `d` that fits `o`. */
  lemma ScaledFloorFits(o: real, d: real, n: real)
    requires 0.0 <= o < d && n > 0.0
    ensures Floor(o / (d / n)) as real * d / n <= o
  {
    FloorOfQuotient(o, d / n);
    ShareOf(Floor(o / (d / n)) as real, d, n);
  }

  /** One more than `Floor(o / (d / n))` takes a share of `d` that does not fit `o`. */
  lemma ScaledFloorMaximal(o: real, d: real, n: real)
    requires 0.0 <= o < d && n > 0.0
    ensures (Floor(o / (d / n)) + 1) as real * d / n > o
  {
    FloorOfQuotient(o, d / n);
    ShareOf((Floor(o / (d / n)) + 1) as real, d, n);
  }

  /** `Floor(o / f)` copies of `f` fit `o`, one more does not. */
  lemma FloorOfQuotient(o: real, f: real)
    requires o >= 0.0 && f > 0.0
    ensures 0 <= Floor(o / f)
    ensures Floor(o / f) as real * f <= o < (Floor(o / f) + 1) as real * f
  {
    var q := o / f;
    var p := Floor(q);
    assert q * f == o;
    if q < 0.0 {
      ScaleStrict(q, 0.0, f);
    }
    ScaleMonotonic(p as real, q, f);
    assert (p + 1) as real == p as real + 1.0;
    ScaleStrict(q, (p + 1) as real, f);
    assert q * f < (p + 1) as real * f;
    assert o < (p + 1) as real * f;
  }

  /** A share of `d` over `n` is a multiple of `d / n`. */
  lemma ShareOf(x: real, d: real, n: real)
    requires n > 0.0
    ensures x * d / n == x * (d / n)
  {
  }

  /** Scaling by a positive factor keeps order. */
  lemma ScaleMonotonic(a: real, b: real, f: real)
    requires a <= b && f > 0.0
    ensures a * f <= b * f
  {
  }

  lemma ScaleStrict(a: real, b: real, f: real)
    requires a < b && f > 0.0
    ensures a * f < b * f
  {
  }

  /**
   * The bound is proportional, not exact: the prefix's own worst-case size
   * can exceed `outSize` once both rounding steps are applied (stretch 1.5,
   * 44100 Hz to 48000 Hz, identity remix, two input samples, room for two:
   * the prefix is one sample, whose worst case is three).
   */
  lemma ProcessablePrefixMayOvershoot()
    ensures var remix := (n: int) => n;
      var desired := DesiredOutSize(2, 1.5, remix, 44100, 48000);
      var p := ProcessableSize(2, 2, desired);
      && desired == 4 && p == 1
      && DesiredOutSize(p, 1.5, remix, 44100, 48000) == 3
  {
    var remix := (n: int) => n;
    assert StretchedSize(2, 1.5) == 3;
    assert StretchedSize(1, 1.5) == 2;
    var desired := DesiredOutSize(2, 1.5, remix, 44100, 48000);
    assert 3.0 * 48000.0 / 44100.0 < 4.0;
    assert desired == 4;
    assert 2.0 * 48000.0 / 44100.0 > 2.0;
    assert DesiredOutSize(1, 1.5, remix, 44100, 48000) == 3;
    assert 2.0 / (4.0 / 2.0) == 1.0;
  }

  /**
   * One thousand mono samples, no stretch, 48000 Hz to 44100 Hz with a
   * remixer that doubles the channel count: the worst case is 1838 samples,
   * so an output with room for 2200 takes the whole chunk.
   */
  lemma MonoToStereoDownsampleFits()
    ensures var remix := (n: int) => 2 * n;
      var desired := DesiredOutSize(1000, 1.0, remix, 48000, 44100);
      && desired == 1838
      && ProcessableSize(1000, 2200, desired) == 1000
  {
    var remix := (n: int) => 2 * n;
    assert StretchedSize(1000, 1.0) == 1000;
    assert 2000.0 * 44100.0 / 48000.0 == 1837.5;
  }
}
