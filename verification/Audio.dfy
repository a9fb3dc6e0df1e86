/**
 * The device FIFO of app-native/src/audio.rs between the decoder and the sound card: resampling,
 * the channel map, trimming, and both ways of filling the render buffer. Samples are real numbers.
 */
module Audio {
  import opened Prelude

  type Frame = seq<real>

  ghost function Flat(frames: seq<Frame>): seq<real> {
    if frames == [] then [] else Flat(Front(frames)) + Last(frames)
  }

  ghost predicate Wide(frames: seq<Frame>, ch: nat) {
    forall i :: 0 <= i < |frames| ==> |frames[i]| == ch
  }

  lemma FlatAdds(frames: seq<Frame>, f: Frame)
    ensures Flat(frames + [f]) == Flat(frames) + f
  {
    assert Front(frames + [f]) == frames;
  }

  lemma {:induction false} FlatJoins(a: seq<Frame>, b: seq<Frame>)
    ensures Flat(a + b) == Flat(a) + Flat(b)
    decreases |b|
  {
    if b == [] {
      assert a + b == a;
    } else {
      assert a + b == (a + Front(b)) + [Last(b)];
      FlatAdds(a + Front(b), Last(b));
      FlatJoins(a, Front(b));
    }
  }

  lemma {:induction false} FlatLength(frames: seq<Frame>, ch: nat)
    requires Wide(frames, ch)
    ensures |Flat(frames)| == |frames| * ch
  {
    if frames != [] {
      FlatLength(Front(frames), ch);
      assert |frames| * ch == (|frames| - 1) * ch + ch;
    }
  }

  /** The samples of the first `n` frames are those before `n * ch`. */
  lemma FlatSplits(frames: seq<Frame>, ch: nat, n: nat)
    requires Wide(frames, ch) && n <= |frames|
    ensures n * ch <= |Flat(frames)|
    ensures Flat(frames)[..n * ch] == Flat(frames[..n]) && Flat(frames)[n * ch..] == Flat(frames[n..])
  {
    assert frames == frames[..n] + frames[n..];
    FlatJoins(frames[..n], frames[n..]);
    FlatLength(frames[..n], ch);
  }

  // ---- The channel map ---------------------------------------------------------------------

  const K: real := 0.707

  function Clamp(x: real): real {
    if x < -1.0 then -1.0 else if x > 1.0 then 1.0 else x
  }

  function Silence(n: nat): Frame {
    seq(n, _ => 0.0)
  }

  function Mapped(src: Frame, dch: nat): (r: Frame)
    requires dch > 0
    ensures |r| == dch
  {
    var sch := |src|;
    if sch == dch then src
    else if sch == 1 then [src[0], src[0]] + Silence(dch - 2)
    else if sch == 2 && dch == 1 then [(src[0] + src[1]) * 0.5]
    else if sch == 2 then src + Silence(dch - 2)
    else if sch == 6 && dch == 2 then
      [Clamp(src[0] + K * src[2] + K * src[4]), Clamp(src[1] + K * src[2] + K * src[5])]
    else
      var n := if sch < dch then sch else dch;
      src[..n] + Silence(dch - n)
  }

  /** But for the two downmixes and mono, every channel keeps its place and the extra ones are silent. */
  lemma ChannelsKeepTheirPlace(src: Frame, dch: nat, c: nat)
    requires |src| >= 2 && c < dch && !(|src| == 2 && dch == 1) && !(|src| == 6 && dch == 2)
    ensures Mapped(src, dch)[c] == if c < |src| then src[c] else 0.0
  {
  }

  /** Mono sounds on both sides, and stereo folded to mono is the same whichever way round it is. */
  lemma MonoIsCentred(x: real, y: real, dch: nat, c: nat)
    requires c < dch
    ensures Mapped([x], dch)[c] == if c < 2 then x else 0.0
    ensures Mapped([x, y], 1) == Mapped([y, x], 1) && Mapped([x, x], 1) == [x]
  {
  }

  /** The channel on the other side: the front pair, and the surround pair where there is one. */
  function Opposite(c: nat, ch: nat): (d: nat)
    requires c < ch
    ensures d < ch
  {
    if ch >= 2 && c < 2 then 1 - c else if ch >= 6 && 4 <= c < 6 then 9 - c else c
  }

  /** Left for right. */
  function Mirrored(f: Frame): (r: Frame)
    ensures |r| == |f| && forall c :: 0 <= c < |f| ==> r[c] == f[Opposite(c, |f|)]
  {
    seq(|f|, c requires 0 <= c < |f| => f[Opposite(c, |f|)])
  }

  /** The downmix keeps the sides apart: each hears its own channels and the centre, never the low effects. */
  lemma DownmixKeepsSides(src: Frame, other: Frame)
    requires |src| == |other| == 6
    ensures Mapped(Mirrored(src), 2) == [Mapped(src, 2)[1], Mapped(src, 2)[0]]
    ensures src[0] == other[0] && src[2] == other[2] && src[4] == other[4] ==> Mapped(src, 2)[0] == Mapped(other, 2)[0]
    ensures src[1] == other[1] && src[2] == other[2] && src[5] == other[5] ==> Mapped(src, 2)[1] == Mapped(other, 2)[1]
    ensures src[0] >= other[0] && src[2] == other[2] && src[4] == other[4] ==> Mapped(src, 2)[0] >= Mapped(other, 2)[0]
  {
  }

  /** 5.1 to stereo: each side, with the centre and its surround at 0.707, limited to the range. */
  lemma DownmixIs(src: Frame, side: nat)
    requires |src| == 6 && side < 2
    ensures var x := src[side] + 0.707 * src[2] + 0.707 * src[4 + side];
            && (-1.0 <= x <= 1.0 ==> Mapped(src, 2)[side] == x)
            && (x > 1.0 ==> Mapped(src, 2)[side] == 1.0)
            && (x < -1.0 ==> Mapped(src, 2)[side] == -1.0)
  {
  }

  /** Stereo to mono is the mean of the two. */
  lemma FoldIsMean(x: real, y: real)
    ensures Mapped([x, y], 1) == [(x + y) / 2.0]
  {
  }

  /** The channel map tears no pair of sides apart. */
  predicate PairsKept(sch: nat, dch: nat) {
    && (dch == 1 ==> sch <= 2)
    && (sch == 5 ==> dch <= 5)
    && (dch == 5 ==> sch <= 5)
  }

  lemma MapMirrors(f: Frame, dch: nat)
    requires dch > 0 && |f| > 0 && PairsKept(|f|, dch)
    ensures Mapped(Mirrored(f), dch) == Mirrored(Mapped(f, dch))
  {
    assert |f| == 2 && dch == 1 ==> (f[0] + f[1]) * 0.5 == (f[1] + f[0]) * 0.5;
    forall c | 0 <= c < dch
      ensures Mapped(Mirrored(f), dch)[c] == Mapped(f, dch)[Opposite(c, dch)]
    {
    }
  }

  /** A frame whose channels are all different. */
  function Ladder(ch: nat): (f: Frame)
    ensures |f| == ch && forall c :: 0 <= c < ch ==> f[c] == (c + 1) as real
  {
    seq(ch, c requires 0 <= c < ch => (c + 1) as real)
  }

  lemma LadderIsTorn(sch: nat, dch: nat)
    requires sch > 0 && dch > 0 && !PairsKept(sch, dch)
    ensures Mapped(Mirrored(Ladder(sch)), dch) != Mirrored(Mapped(Ladder(sch), dch))
  {
    var c := if dch == 1 then 0 else 4;
    assert Mapped(Mirrored(Ladder(sch)), dch)[c] != Mirrored(Mapped(Ladder(sch), dch))[c];
  }

  predicate InRange(s: seq<real>) {
    forall i :: 0 <= i < |s| ==> -1.0 <= s[i] <= 1.0
  }

  /** No channel map leaves the range of the source. */
  lemma MapStaysInRange(src: Frame, dch: nat)
    requires dch > 0 && InRange(src)
    ensures InRange(Mapped(src, dch))
  {
  }

  // ---- Resampling --------------------------------------------------------------------------

  /** The source cut into frames; an incomplete one at its end is dropped. */
  function SourceFrames(src: seq<real>, sch: nat): (r: seq<Frame>)
    requires sch > 0
    ensures Wide(r, sch)
    decreases |src|
  {
    if |src| < sch then [] else [src[..sch]] + SourceFrames(src[sch..], sch)
  }

  lemma {:induction false} FrameAt(src: seq<real>, sch: nat, f: nat)
    requires sch > 0 && f < |SourceFrames(src, sch)|
    ensures f * sch + sch <= |src| && SourceFrames(src, sch)[f] == src[f * sch..f * sch + sch]
    decreases f
  {
    if f > 0 {
      FrameAt(src[sch..], sch, f - 1);
      assert f * sch == (f - 1) * sch + sch;
    }
  }

  lemma {:induction false} FrameCount(src: seq<real>, sch: nat)
    requires sch > 0
    ensures |SourceFrames(src, sch)| == |src| / sch
    decreases |src|
  {
    if |src| >= sch {
      FrameCount(src[sch..], sch);
      OneFrameMore(|src|, sch);
    }
  }

  lemma OneFrameMore(n: nat, d: nat)
    requires 0 < d <= n
    ensures n / d == (n - d) / d + 1
  {
    var q := (n - d) / d;
    assert (q + 1) * d == q * d + d;
    QuotientIs(n, d, q + 1, (n - d) % d);
  }

  lemma PartsInRange(s: seq<real>, i: nat)
    requires i <= |s| && InRange(s)
    ensures InRange(s[..i]) && InRange(s[i..])
  {
  }

  lemma {:induction false} SourceInRange(src: seq<real>, sch: nat)
    requires sch > 0 && InRange(src)
    ensures AllInRange(SourceFrames(src, sch))
    decreases |src|
  {
    if |src| >= sch {
      PartsInRange(src, sch);
      SourceInRange(src[sch..], sch);
    }
  }

  lemma ProductAtMost(a: nat, b: nat, c: nat)
    requires a <= b
    ensures a * c <= b * c
  {
    assert b * c == a * c + (b - a) * c;
  }

  function ResampledCount(frames: nat, srcRate: nat, dstRate: nat): nat
    requires srcRate > 0
  {
    frames * dstRate / srcRate
  }

  lemma QuotientBelow(n: nat, d: nat, k: nat)
    requires d > 0 && n < k * d
    ensures n / d < k
  {
    if n / d >= k {
      ProductAtMost(k, n / d, d);
    }
  }

  /** Every interpolation reads inside the source. */
  lemma PositionInside(i: nat, frames: nat, srcRate: nat, dstRate: nat)
    requires srcRate > 0 && i < ResampledCount(frames, srcRate, dstRate)
    ensures dstRate > 0 && i * srcRate / dstRate < frames
  {
    var n := frames * dstRate;
    assert dstRate == 0 ==> n == 0;
    ProductAtMost(i + 1, n / srcRate, srcRate);
    assert (i + 1) * srcRate == i * srcRate + srcRate;
    QuotientBelow(i * srcRate, dstRate, frames);
  }

  /** `i0`. */
  function LeftFrame(i: nat, frames: nat, srcRate: nat, dstRate: nat): (k: nat)
    requires srcRate > 0 && i < ResampledCount(frames, srcRate, dstRate)
    ensures k < frames
  {
    PositionInside(i, frames, srcRate, dstRate);
    i * srcRate / dstRate
  }

  /** `t`. */
  function Offset(i: nat, srcRate: nat, dstRate: nat): (t: real)
    requires dstRate > 0
    ensures 0.0 <= t < 1.0
  {
    (i * srcRate % dstRate) as real / dstRate as real
  }

  function Mix(x: real, y: real, t: real): real {
    x * (1.0 - t) + y * t
  }

  function Blend(a: Frame, b: Frame, t: real): (r: Frame)
    requires |a| == |b|
    ensures |r| == |a| && forall c :: 0 <= c < |a| ==> r[c] == Mix(a[c], b[c], t)
  {
    seq(|a|, c requires 0 <= c < |a| => Mix(a[c], b[c], t))
  }

  lemma ProductOfPositives(a: real, b: real)
    requires a >= 0.0 && b >= 0.0
    ensures a * b >= 0.0
  {
  }

  /** A blend of two samples lies between them. */
  lemma BlendBetween(x: real, y: real, t: real)
    requires 0.0 <= t <= 1.0
    ensures if x <= y then x <= Mix(x, y, t) <= y else y <= Mix(x, y, t) <= x
  {
    assert x * (1.0 - t) + y * t == x + (y - x) * t == y - (y - x) * (1.0 - t);
    if x <= y {
      ProductOfPositives(y - x, t);
      ProductOfPositives(y - x, 1.0 - t);
    } else {
      ProductOfPositives(x - y, t);
      ProductOfPositives(x - y, 1.0 - t);
      assert (y - x) * t == -((x - y) * t) && (y - x) * (1.0 - t) == -((x - y) * (1.0 - t));
    }
  }

  lemma MixInRange(x: real, y: real, t: real)
    requires 0.0 <= t <= 1.0 && -1.0 <= x <= 1.0 && -1.0 <= y <= 1.0
    ensures -1.0 <= Mix(x, y, t) <= 1.0
  {
    BlendBetween(x, y, t);
  }

  lemma BlendInRange(a: Frame, b: Frame, t: real)
    requires |a| == |b| && 0.0 <= t <= 1.0 && InRange(a) && InRange(b)
    ensures InRange(Blend(a, b, t))
  {
    forall c | 0 <= c < |a|
      ensures -1.0 <= Mix(a[c], b[c], t) <= 1.0
    {
      MixInRange(a[c], b[c], t);
    }
  }

  /** Between frame `k` and the one after it, or at the last frame. */
  function Interpolated(frames: seq<Frame>, sch: nat, k: nat, t: real): (r: Frame)
    requires Wide(frames, sch) && k < |frames|
    ensures |r| == sch
  {
    Blend(frames[k], frames[if k + 1 < |frames| then k + 1 else k], t)
  }

  /** An output position that falls on a source frame is that frame; a steady signal stays as it is. */
  lemma InterpolationIsFaithful(frames: seq<Frame>, sch: nat, k: nat, t: real)
    requires Wide(frames, sch) && k < |frames|
    ensures Interpolated(frames, sch, k, 0.0) == frames[k]
    ensures (k + 1 < |frames| ==> frames[k + 1] == frames[k]) ==> Interpolated(frames, sch, k, t) == frames[k]
  {
    var f := frames[k];
    forall c | 0 <= c < sch
      ensures Mix(f[c], f[c], t) == f[c]
    {
      assert f[c] * (1.0 - t) + f[c] * t == f[c];
    }
  }

  ghost predicate AllInRange(frames: seq<Frame>) {
    forall i :: 0 <= i < |frames| ==> InRange(frames[i])
  }

  /** Frame `i` of what `convert_into` makes of the source frames. */
  function ConvertedFrame(frames: seq<Frame>, sch: nat, srcRate: nat, dstRate: nat, dch: nat, i: nat): (r: Frame)
    requires Wide(frames, sch) && srcRate > 0 && dch > 0 && i < ConvertedCount(|frames|, srcRate, dstRate)
    ensures |r| == dch
  {
    if srcRate == dstRate then Mapped(frames[i], dch)
    else
      RateIsPositive(i, |frames|, srcRate, dstRate);
      Mapped(Interpolated(frames, sch, LeftFrame(i, |frames|, srcRate, dstRate), Offset(i, srcRate, dstRate)), dch)
  }

  /** How many frames that is. */
  function ConvertedCount(frames: nat, srcRate: nat, dstRate: nat): nat
    requires srcRate > 0
  {
    if srcRate == dstRate then frames else ResampledCount(frames, srcRate, dstRate)
  }

  lemma RateIsPositive(i: nat, frames: nat, srcRate: nat, dstRate: nat)
    requires srcRate > 0 && i < ResampledCount(frames, srcRate, dstRate)
    ensures dstRate > 0
  {
    PositionInside(i, frames, srcRate, dstRate);
  }

  /** Neither interpolation nor the channel map leaves the range of the source. */
  lemma ConvertedInRange(frames: seq<Frame>, sch: nat, srcRate: nat, dstRate: nat, dch: nat, i: nat)
    requires Wide(frames, sch) && srcRate > 0 && dch > 0 && i < ConvertedCount(|frames|, srcRate, dstRate)
    requires AllInRange(frames)
    ensures InRange(ConvertedFrame(frames, sch, srcRate, dstRate, dch, i))
  {
    if srcRate == dstRate {
      MapStaysInRange(frames[i], dch);
    } else {
      RateIsPositive(i, |frames|, srcRate, dstRate);
      var k, t := LeftFrame(i, |frames|, srcRate, dstRate), Offset(i, srcRate, dstRate);
      BlendInRange(frames[k], frames[if k + 1 < |frames| then k + 1 else k], t);
      MapStaysInRange(Interpolated(frames, sch, k, t), dch);
    }
  }

  ghost function Converted(frames: seq<Frame>, sch: nat, srcRate: nat, dstRate: nat, dch: nat, n: nat): (r: seq<Frame>)
    requires Wide(frames, sch) && srcRate > 0 && dch > 0 && n <= ConvertedCount(|frames|, srcRate, dstRate)
    ensures |r| == n && Wide(r, dch)
  {
    seq(n, i requires 0 <= i < n => ConvertedFrame(frames, sch, srcRate, dstRate, dch, i))
  }

  /** `debug_delay_samples`, as a number of frames. */
  function DelayFrames(rate: nat, delayMs: nat): nat {
    rate * (if delayMs < 2000 then delayMs else 2000) / 1000
  }

  function DebugDelaySamples(rate: nat, channels: nat, delayMs: nat): nat {
    DelayFrames(rate, delayMs) * channels
  }

  function Lesser(a: nat, b: nat): nat { if a < b then a else b }

  ghost function Quiet(n: nat, ch: nat): seq<Frame> {
    seq(n, _ => Silence(ch))
  }

  lemma {:induction false} FlatQuiet(n: nat, ch: nat)
    ensures Flat(Quiet(n, ch)) == Silence(n * ch)
  {
    if n > 0 {
      FlatQuiet(n - 1, ch);
      assert Quiet(n, ch) == Quiet(n - 1, ch) + [Silence(ch)];
      FlatAdds(Quiet(n - 1, ch), Silence(ch));
      assert n * ch == (n - 1) * ch + ch;
    }
  }

  /** Comparing samples is comparing frames. */
  lemma WholeFrames(a: nat, b: nat, ch: nat)
    requires ch > 0
    ensures a * ch <= b * ch <==> a <= b
    ensures a * ch < b * ch <==> a < b
    ensures a >= b ==> a * ch - b * ch == (a - b) * ch
  {
    if a <= b {
      ProductAtMost(a, b, ch);
      if a < b {
        ProductAtMost(a + 1, b, ch);
      }
    } else {
      ProductAtMost(b + 1, a, ch);
    }
  }

  lemma Distributes(a: nat, b: nat, c: nat)
    ensures (a + b) * c == a * c + b * c
  {
  }

  // ---- The FIFO ----------------------------------------------------------------------------

  /** `frames` is what the samples stand for: whole device frames, one sample a channel. */
  class DeviceFifo {
    const channels: nat
    var fifo: seq<real>
    var cap: nat
    ghost var frames: seq<Frame>
    ghost var capFrames: nat

    /** `build_sink`: an empty FIFO with a cap of a part of a second, and the debug delay in silence. */
    constructor (capFrames: nat, channels: nat, rate: nat, delayMs: nat)
      requires channels > 0
      ensures Valid() && this.channels == channels && frames == Quiet(DelayFrames(rate, delayMs), channels)
      ensures this.capFrames == capFrames + DelayFrames(rate, delayMs)
    {
      this.channels := channels;
      var silence := DebugDelaySamples(rate, channels, delayMs);
      fifo := Silence(silence);
      cap := capFrames * channels + silence;
      ghost var n := DelayFrames(rate, delayMs);
      this.frames := Quiet(n, channels);
      this.capFrames := capFrames + n;
      FlatQuiet(n, channels);
      Distributes(capFrames, n, channels);
    }

    /** The samples are whole frames, and so is the cap. */
    ghost predicate Framed()
      reads this
    {
      && channels > 0 && Wide(frames, channels) && fifo == Flat(frames) && cap == capFrames * channels
    }

    ghost predicate Valid()
      reads this
    {
      Framed() && |frames| <= capFrames
    }

    /** One sample leaves the FIFO, as `pop_front` in the loops below. */
    method PopFront() returns (x: real)
      requires fifo != []
      modifies this`fifo
      ensures x == old(fifo)[0] && fifo == old(fifo)[1..]
    {
      x, fifo := fifo[0], fifo[1..];
    }

    /** `WasapiOut::fill`: as many whole frames as fit; nothing else leaves the FIFO. */
    method FillShared(writable: nat) returns (buffer: seq<real>)
      requires Valid()
      modifies this`fifo, this`frames
      ensures Valid()
      ensures var n := Lesser(|old(frames)|, writable); buffer == Flat(old(frames)[..n]) && frames == old(frames)[n..]
    {
      FlatLength(frames, channels);
      QuotientIs(|fifo|, channels, |frames|, 0);
      var n := Lesser(|fifo| / channels, writable);
      FlatSplits(frames, channels, n);
      buffer := [];
      for i := 0 to n * channels
        invariant buffer == old(fifo)[..i] && fifo == old(fifo)[i..] && frames == old(frames)
      {
        var x := PopFront();
        buffer := buffer + [x];
      }
      frames := frames[n..];
    }

    /** `unwrap_or(0.0)`: silence once the FIFO is empty. */
    method PopOrSilence(wanted: nat) returns (buffer: seq<real>)
      modifies this`fifo
      ensures buffer == PaddedTo(old(fifo), wanted) && fifo == Rest(old(fifo), wanted)
    {
      ghost var padded := fifo + Silence(wanted);
      buffer := [];
      for i := 0 to wanted
        invariant buffer == padded[..i]
        invariant fifo == if i <= |old(fifo)| then old(fifo)[i..] else []
      {
        var x := 0.0;
        if fifo != [] {
          x := PopFront();
        }
        buffer := buffer + [x];
      }
    }

    /** `WasapiExclusiveOut::fill`: exactly the frames asked for, with whole frames of silence on underrun. */
    method FillExclusive(n: nat) returns (buffer: seq<real>)
      requires Valid()
      modifies this`fifo, this`frames
      ensures Valid()
      ensures |buffer| == n * channels && buffer == Flat(Served(old(frames), channels, n))
      ensures frames == old(frames)[Lesser(|old(frames)|, n)..]
    {
      buffer := PopOrSilence(n * channels);
      PaddedFrames(frames, channels, n);
      LeftFrames(frames, channels, n);
      frames := frames[Lesser(|frames|, n)..];
    }

    /** The trim after each packet: the oldest samples go until the cap is met, which takes whole frames. */
    method Trim()
      requires Framed()
      modifies this`fifo, this`frames
      ensures Valid()
      ensures frames == if |old(frames)| <= capFrames then old(frames) else old(frames)[|old(frames)| - capFrames..]
    {
      FlatLength(frames, channels);
      ghost var n := if |frames| <= capFrames then 0 else |frames| - capFrames;
      WholeFrames(|frames|, capFrames, channels);
      FlatSplits(frames, channels, n);
      ghost var i := 0;
      while |fifo| > cap
        invariant i <= |old(fifo)| && fifo == old(fifo)[i..] && frames == old(frames)
        invariant |fifo| >= cap || i == 0
        decreases |fifo|
      {
        var x := PopFront();
        i := i + 1;
      }
      Distributes(n, capFrames, channels);
      frames := frames[n..];
    }

    /** What a decoded packet does to the FIFO, under its lock where two threads share it. */
    method Decoded(src: seq<real>, sch: nat, srcRate: nat, dstRate: nat)
      requires Valid() && srcRate > 0
      modifies this`fifo, this`frames
      ensures Valid()
      ensures sch == 0 ==> frames == old(frames)
      ensures sch > 0 ==>
                var packet := AllConverted(SourceFrames(src, sch), sch, srcRate, dstRate, channels);
                var all := old(frames) + packet;
                frames == if |all| <= capFrames then all else all[|all| - capFrames..]
    {
      ConvertInto(src, sch, srcRate, dstRate);
      Trim();
    }

    /** `map_channels`. */
    method MapChannels(src: Frame)
      requires Framed()
      modifies this`fifo, this`frames
      ensures Framed() && frames == old(frames) + [Mapped(src, channels)]
    {
      FlatAdds(frames, Mapped(src, channels));
      fifo := PushMapped(fifo, src, channels);
      frames := frames + [Mapped(src, channels)];
    }

    static method PushMapped(s: seq<real>, src: Frame, dch: nat) returns (out: seq<real>)
      requires dch > 0
      ensures out == s + Mapped(src, dch)
    {
      var sch := |src|;
      out := s;
      if sch == dch {
        out := out + src;
      } else if sch == 1 {
        out := out + [src[0]] + [src[0]];
        out := PushSilence(out, 2, dch);
      } else if sch == 2 && dch == 1 {
        out := out + [(src[0] + src[1]) * 0.5];
      } else if sch == 2 {
        out := out + [src[0]] + [src[1]];
        out := PushSilence(out, 2, dch);
      } else if sch == 6 && dch == 2 {
        var l, r, c, ls, rs := src[0], src[1], src[2], src[4], src[5];
        out := out + [Clamp(l + K * c + K * ls)] + [Clamp(r + K * c + K * rs)];
      } else {
        var n := if sch < dch then sch else dch;
        out := out + src[..n];
        out := PushSilence(out, n, dch);
      }
    }

    static method PushSilence(s: seq<real>, from: nat, to: nat) returns (out: seq<real>)
      requires from <= to
      ensures out == s + Silence(to - from)
    {
      out := s;
      for k := from to to
        invariant out == s + Silence(k - from)
      {
        out := out + [0.0];
      }
    }

    static method TakeFrame(src: seq<real>, sch: nat, f: nat) returns (frame: Frame)
      requires sch > 0 && f < |SourceFrames(src, sch)|
      ensures frame == SourceFrames(src, sch)[f]
    {
      FrameAt(src, sch, f);
      frame := src[f * sch..f * sch + sch];
    }

    /** The inner loop of the resampler. */
    static method Interpolate(src: seq<real>, sch: nat, i0: nat, t: real) returns (frame: Frame)
      requires sch > 0 && i0 < |SourceFrames(src, sch)|
      ensures frame == Interpolated(SourceFrames(src, sch), sch, i0, t)
    {
      FrameCount(src, sch);
      var i1 := if i0 + 1 < |src| / sch then i0 + 1 else |src| / sch - 1;
      var a := TakeFrame(src, sch, i0);
      var b := TakeFrame(src, sch, i1);
      frame := [];
      for c := 0 to sch
        invariant frame == Blend(a, b, t)[..c]
      {
        frame := frame + [Mix(a[c], b[c], t)];
      }
    }

    /** `convert_into`. */
    method ConvertInto(src: seq<real>, sch: nat, srcRate: nat, dstRate: nat)
      requires Framed() && srcRate > 0
      modifies this`fifo, this`frames
      ensures Framed()
      ensures sch == 0 ==> frames == old(frames)
      ensures sch > 0 ==> frames == old(frames) + AllConverted(SourceFrames(src, sch), sch, srcRate, dstRate, channels)
    {
      if sch == 0 {
        return;
      }
      ghost var source := SourceFrames(src, sch);
      FrameCount(src, sch);
      var count := ConvertedCount(|src| / sch, srcRate, dstRate);
      for i := 0 to count
        invariant Framed() && frames == old(frames) + Converted(source, sch, srcRate, dstRate, channels, i)
      {
        ConvertedGrows(source, sch, srcRate, dstRate, channels, i);
        ConvertOne(src, sch, srcRate, dstRate, i);
      }
    }

    method ConvertOne(src: seq<real>, sch: nat, srcRate: nat, dstRate: nat, i: nat)
      requires Framed() && sch > 0 && srcRate > 0
      requires i < ConvertedCount(|SourceFrames(src, sch)|, srcRate, dstRate)
      modifies this`fifo, this`frames
      ensures Framed()
      ensures frames == old(frames) + [ConvertedFrame(SourceFrames(src, sch), sch, srcRate, dstRate, channels, i)]
    {
      var frame: Frame;
      if srcRate == dstRate {
        frame := TakeFrame(src, sch, i);
      } else {
        FrameCount(src, sch);
        RateIsPositive(i, |src| / sch, srcRate, dstRate);
        var i0, t := LeftFrame(i, |src| / sch, srcRate, dstRate), Offset(i, srcRate, dstRate);
        frame := Interpolate(src, sch, i0, t);
      }
      MapChannels(frame);
    }
  }

  function PaddedTo(s: seq<real>, n: nat): seq<real> {
    (s + Silence(n))[..n]
  }

  function Rest(s: seq<real>, n: nat): seq<real> {
    if n <= |s| then s[n..] else []
  }

  /** `n` frames, with silent ones where there are too few. */
  ghost function Served(frames: seq<Frame>, ch: nat, n: nat): seq<Frame> {
    frames[..Lesser(|frames|, n)] + Quiet(n - Lesser(|frames|, n), ch)
  }

  /** Samples padded with silence are frames padded with silence. */
  lemma PaddedFrames(frames: seq<Frame>, ch: nat, n: nat)
    requires Wide(frames, ch) && ch > 0
    ensures |PaddedTo(Flat(frames), n * ch)| == n * ch
    ensures PaddedTo(Flat(frames), n * ch) == Flat(Served(frames, ch, n))
  {
    var k := Lesser(|frames|, n);
    FlatLength(frames, ch);
    WholeFrames(n, |frames|, ch);
    FlatSplits(frames, ch, k);
    FlatQuiet(n - k, ch);
    FlatJoins(frames[..k], Quiet(n - k, ch));
    if k < n {
      assert frames[..k] == frames;
      WholeFrames(n, k, ch);
    } else {
      assert Silence(0) == [];
    }
  }

  lemma RestOfWhole(frames: seq<Frame>, ch: nat, n: nat)
    requires Wide(frames, ch) && n <= |frames|
    ensures Rest(Flat(frames), n * ch) == Flat(frames[n..])
  {
    FlatSplits(frames, ch, n);
  }

  lemma RestOfFew(s: seq<real>, n: nat)
    requires n >= |s|
    ensures Rest(s, n) == []
  {
  }

  lemma LeftFrames(frames: seq<Frame>, ch: nat, n: nat)
    requires Wide(frames, ch) && ch > 0
    ensures Rest(Flat(frames), n * ch) == Flat(frames[Lesser(|frames|, n)..])
  {
    if n <= |frames| {
      RestOfWhole(frames, ch, n);
    } else {
      FlatLength(frames, ch);
      ProductAtMost(|frames|, n, ch);
      RestOfFew(Flat(frames), n * ch);
      assert frames[|frames|..] == [];
    }
  }

  ghost function AllConverted(frames: seq<Frame>, sch: nat, srcRate: nat, dstRate: nat, dch: nat): (r: seq<Frame>)
    requires Wide(frames, sch) && srcRate > 0 && dch > 0
    ensures |r| == ConvertedCount(|frames|, srcRate, dstRate) && Wide(r, dch)
  {
    Converted(frames, sch, srcRate, dstRate, dch, ConvertedCount(|frames|, srcRate, dstRate))
  }

  /** A packet in range puts nothing out of range into the FIFO. */
  lemma PacketStaysInRange(src: seq<real>, sch: nat, srcRate: nat, dstRate: nat, dch: nat)
    requires sch > 0 && srcRate > 0 && dch > 0 && InRange(src)
    ensures AllInRange(AllConverted(SourceFrames(src, sch), sch, srcRate, dstRate, dch))
  {
    var frames := SourceFrames(src, sch);
    SourceInRange(src, sch);
    forall i: nat | i < ConvertedCount(|frames|, srcRate, dstRate)
      ensures InRange(ConvertedFrame(frames, sch, srcRate, dstRate, dch, i))
    {
      ConvertedInRange(frames, sch, srcRate, dstRate, dch, i);
    }
  }

  /** The source position of output frame `i`. */
  function Position(i: nat, srcRate: nat, dstRate: nat): real
    requires dstRate > 0
  {
    (i * srcRate) as real / dstRate as real
  }

  lemma PositionSplits(i: nat, srcRate: nat, dstRate: nat)
    requires dstRate > 0
    ensures Position(i, srcRate, dstRate) == (i * srcRate / dstRate) as real + Offset(i, srcRate, dstRate)
  {
    var k, r := i * srcRate / dstRate, i * srcRate % dstRate;
    assert i * srcRate == k * dstRate + r;
    assert (i * srcRate) as real == k as real * dstRate as real + r as real;
    RealQuotient(i * srcRate, dstRate, k, r);
  }

  lemma RealQuotient(n: nat, d: nat, k: nat, r: nat)
    requires d > 0 && n == k * d + r
    ensures n as real / d as real == k as real + r as real / d as real
  {
    var x, y := d as real, r as real / d as real;
    assert n as real == k as real * x + r as real;
    assert (k as real + y) * x == k as real * x + y * x && y * x == r as real;
    RealDivides(n as real, x, k as real + y);
  }

  lemma RealDivides(n: real, d: real, q: real)
    requires d > 0.0 && n == q * d
    ensures n / d == q
  {
  }

  lemma CountIs(frames: nat, srcRate: nat, dstRate: nat, n: nat)
    requires srcRate > 0 && n * srcRate <= frames * dstRate < (n + 1) * srcRate
    ensures ConvertedCount(frames, srcRate, dstRate) == n
  {
    if srcRate == dstRate {
      WholeFrames(n, frames, srcRate);
      WholeFrames(frames, n + 1, srcRate);
    } else {
      assert (n + 1) * srcRate == n * srcRate + srcRate;
      QuotientIs(frames * dstRate, srcRate, n, frames * dstRate - n * srcRate);
    }
  }

  /** On the straight line between frames `j` and `j + 1`, or on the last frame. */
  ghost predicate OnTheLine(frames: seq<Frame>, c: nat, j: nat, p: real, v: real)
    requires forall k :: 0 <= k < |frames| ==> c < |frames[k]|
  {
    && (j + 1 < |frames| && j as real <= p <= (j + 1) as real ==>
          v == frames[j][c] + (p - j as real) * (frames[j + 1][c] - frames[j][c]))
    && (j + 1 == |frames| && j as real <= p ==> v == frames[j][c])
  }

  /** One interpolated sample lies on the line, whichever pair of frames one looks at. */
  lemma SampleOnTheLine(frames: seq<Frame>, ch: nat, c: nat, k: nat, t: real, j: nat)
    requires Wide(frames, ch) && c < ch && k < |frames| && 0.0 <= t < 1.0
    ensures OnTheLine(frames, c, j, k as real + t, Interpolated(frames, ch, k, t)[c])
  {
    var x := frames[k][c];
    var y := frames[if k + 1 < |frames| then k + 1 else k][c];
    assert x * (1.0 - t) + y * t == x + t * (y - x);
    if j + 1 == k {
      assert t == 0.0 || k as real + t > (j + 1) as real;
      assert (k as real - j as real) * (frames[k][c] - frames[j][c]) == frames[k][c] - frames[j][c];
    }
  }

  /**
   * Conversion is linear interpolation at `i * srcRate / dstRate`: with as many channels as the source,
   * sample `c` of output frame `i` lies at that position on the line through the source frames around
   * it, and stays at the last frame after the end; there is one frame for every position inside.
   */
  lemma ConversionIsLinear(frames: seq<Frame>, ch: nat, srcRate: nat, dstRate: nat, n: nat, i: nat, c: nat, j: nat)
    requires Wide(frames, ch) && c < ch && srcRate > 0 && dstRate > 0
    requires n * srcRate <= |frames| * dstRate < (n + 1) * srcRate && i < n
    ensures var out := AllConverted(frames, ch, srcRate, dstRate, ch);
            |out| == n && OnTheLine(frames, c, j, (i * srcRate) as real / dstRate as real, out[i][c])
  {
    CountIs(|frames|, srcRate, dstRate, n);
    if srcRate == dstRate {
      RealDivides((i * srcRate) as real, srcRate as real, i as real);
      SampleOnTheLine(frames, ch, c, i, 0.0, j);
      InterpolationIsFaithful(frames, ch, i, 0.0);
    } else {
      PositionSplits(i, srcRate, dstRate);
      SampleOnTheLine(frames, ch, c, LeftFrame(i, |frames|, srcRate, dstRate), Offset(i, srcRate, dstRate), j);
    }
  }

  /** The frame at or before the position. */
  lemma LeftOf(i: nat, frames: nat, srcRate: nat, dstRate: nat, n: nat) returns (k: nat)
    requires srcRate > 0 && dstRate > 0 && n * srcRate <= frames * dstRate && i < n
    ensures k < frames && k as real <= (i * srcRate) as real / dstRate as real < (k + 1) as real
  {
    k := i * srcRate / dstRate;
    PositionSplits(i, srcRate, dstRate);
    FirstPositions(i, frames, srcRate, dstRate, n);
  }

  lemma LineOfRamp(frames: seq<Frame>, c: nat, a: real, b: real, k: nat, p: real, v: real)
    requires k < |frames| && forall j :: 0 <= j < |frames| ==> c < |frames[j]|
    requires IsRamp(frames, c, a, b)
    requires k as real <= p < (k + 1) as real && OnTheLine(frames, c, k, p, v)
    ensures var last := (|frames| - 1) as real; v == a + b * (if p <= last then p else last)
  {
    var x := k as real;
    assert frames[k][c] == a + b * x;
    if k + 1 < |frames| {
      assert (k + 1) as real == x + 1.0 && frames[k + 1][c] == a + b * (x + 1.0);
      RampOfLine(a, b, x, p);
      assert v == a + b * x + (p - x) * b;
    }
  }

  lemma RampOfLine(a: real, b: real, x: real, p: real)
    ensures (a + b * (x + 1.0)) - (a + b * x) == b
    ensures a + b * x + (p - x) * b == a + b * p
  {
  }

  /** The position of an output frame and the source frame before it. */
  lemma WhereItLands(frames: seq<Frame>, ch: nat, srcRate: nat, dstRate: nat, i: nat, c: nat) returns (k: nat, p: real)
    requires Wide(frames, ch) && c < ch && srcRate > 0 && dstRate > 0
    requires i < |AllConverted(frames, ch, srcRate, dstRate, ch)|
    ensures k < |frames| && k as real <= p < (k + 1) as real && p == (i * srcRate) as real / dstRate as real
    ensures OnTheLine(frames, c, k, p, AllConverted(frames, ch, srcRate, dstRate, ch)[i][c])
  {
    var n := ConvertedCount(|frames|, srcRate, dstRate);
    CountBounds(|frames|, srcRate, dstRate);
    k := LeftOf(i, |frames|, srcRate, dstRate, n);
    p := (i * srcRate) as real / dstRate as real;
    ConversionIsLinear(frames, ch, srcRate, dstRate, n, i, c, k);
  }

  lemma CountBounds(frames: nat, srcRate: nat, dstRate: nat)
    requires srcRate > 0
    ensures var n := ConvertedCount(frames, srcRate, dstRate); n * srcRate <= frames * dstRate < (n + 1) * srcRate
  {
    var n := ConvertedCount(frames, srcRate, dstRate);
    assert (n + 1) * srcRate == n * srcRate + srcRate;
    if srcRate != dstRate {
      assert frames * dstRate == n * srcRate + frames * dstRate % srcRate;
    }
  }

  ghost predicate IsRamp(frames: seq<Frame>, c: nat, a: real, b: real)
    requires forall k :: 0 <= k < |frames| ==> c < |frames[k]|
  {
    forall k: nat :: k < |frames| ==> frames[k][c] == a + b * k as real
  }

  /** A ramp converts to the ramp, and its last value after the end. */
  lemma RampStaysRamp(frames: seq<Frame>, ch: nat, srcRate: nat, dstRate: nat, i: nat, c: nat, a: real, b: real)
    returns (p: real)
    requires Wide(frames, ch) && c < ch && srcRate > 0 && dstRate > 0 && IsRamp(frames, c, a, b)
    requires i < |AllConverted(frames, ch, srcRate, dstRate, ch)|
    ensures p == (i * srcRate) as real / dstRate as real
    ensures var last := (|frames| - 1) as real;
            AllConverted(frames, ch, srcRate, dstRate, ch)[i][c] == a + b * (if p <= last then p else last)
  {
    var k;
    k, p := WhereItLands(frames, ch, srcRate, dstRate, i, c);
    LineOfRamp(frames, c, a, b, k, p, AllConverted(frames, ch, srcRate, dstRate, ch)[i][c]);
  }

  lemma FirstPositions(i: nat, frames: nat, srcRate: nat, dstRate: nat, n: nat)
    requires srcRate > 0 && dstRate > 0 && n * srcRate <= frames * dstRate && i < n
    ensures i * srcRate / dstRate < frames
  {
    ProductAtMost(i + 1, n, srcRate);
    assert (i + 1) * srcRate == i * srcRate + srcRate;
    QuotientBelow(i * srcRate, dstRate, frames);
  }

  /** The channel map comes last: it is applied to the frames of the interpolation, one by one. */
  lemma MapComesLast(frames: seq<Frame>, sch: nat, srcRate: nat, dstRate: nat, dch: nat)
    requires Wide(frames, sch) && sch > 0 && srcRate > 0 && dch > 0
    ensures var out, mixed := AllConverted(frames, sch, srcRate, dstRate, dch),
                              AllConverted(frames, sch, srcRate, dstRate, sch);
            |out| == |mixed| && forall i :: 0 <= i < |out| ==> out[i] == Mapped(mixed[i], dch)
  {
  }

  /** An underrun is served what there is and then silence. */
  lemma ServedIs(frames: seq<Frame>, ch: nat, n: nat, i: nat, c: nat)
    requires Wide(frames, ch) && i < n && c < ch
    ensures |Served(frames, ch, n)| == n
    ensures if i < |frames| then Served(frames, ch, n)[i] == frames[i]
            else |Served(frames, ch, n)[i]| == ch && Served(frames, ch, n)[i][c] == 0.0
  {
  }

  /** The debug delay is what fits whole into that many milliseconds, two seconds at the most. */
  lemma DelayIs(rate: nat, delayMs: nat)
    ensures var n, ms := DelayFrames(rate, delayMs), if delayMs < 2000 then delayMs else 2000;
            n * 1000 <= rate * ms < (n + 1) * 1000
  {
  }

  ghost function AllMirrored(frames: seq<Frame>): (r: seq<Frame>)
    ensures |r| == |frames| && forall i :: 0 <= i < |frames| ==> r[i] == Mirrored(frames[i])
  {
    seq(|frames|, i requires 0 <= i < |frames| => Mirrored(frames[i]))
  }

  lemma InterpolationMirrors(frames: seq<Frame>, sch: nat, k: nat, t: real)
    requires Wide(frames, sch) && k < |frames|
    ensures Interpolated(AllMirrored(frames), sch, k, t) == Mirrored(Interpolated(frames, sch, k, t))
  {
  }

  lemma ConversionMirrors(frames: seq<Frame>, sch: nat, srcRate: nat, dstRate: nat, dch: nat, i: nat)
    requires Wide(frames, sch) && sch > 0 && srcRate > 0 && dch > 0 && PairsKept(sch, dch)
    requires i < ConvertedCount(|frames|, srcRate, dstRate)
    ensures ConvertedFrame(AllMirrored(frames), sch, srcRate, dstRate, dch, i)
         == Mirrored(ConvertedFrame(frames, sch, srcRate, dstRate, dch, i))
  {
    if srcRate == dstRate {
      MapMirrors(frames[i], dch);
    } else {
      RateIsPositive(i, |frames|, srcRate, dstRate);
      var k, t := LeftFrame(i, |frames|, srcRate, dstRate), Offset(i, srcRate, dstRate);
      InterpolationMirrors(frames, sch, k, t);
      MapMirrors(Interpolated(frames, sch, k, t), dch);
    }
  }

  /** The first frame of a packet is converted on its own. */
  lemma FirstFrame(frames: seq<Frame>, sch: nat, srcRate: nat, dstRate: nat, dch: nat)
    requires Wide(frames, sch) && srcRate > 0 && dch > 0 && 0 < ConvertedCount(|frames|, srcRate, dstRate)
    ensures |frames| > 0 && ConvertedFrame(frames, sch, srcRate, dstRate, dch, 0) == Mapped(frames[0], dch)
  {
    if srcRate != dstRate {
      RateIsPositive(0, |frames|, srcRate, dstRate);
      InterpolationIsFaithful(frames, sch, 0, 0.0);
      assert LeftFrame(0, |frames|, srcRate, dstRate) == 0 && Offset(0, srcRate, dstRate) == 0.0;
    }
  }

  /** Left and right of the packet are left and right of what goes into the FIFO. */
  ghost predicate KeepsSides(frames: seq<Frame>, sch: nat, srcRate: nat, dstRate: nat, dch: nat)
    requires Wide(frames, sch) && srcRate > 0 && dch > 0
  {
    AllConverted(AllMirrored(frames), sch, srcRate, dstRate, dch)
    == AllMirrored(AllConverted(frames, sch, srcRate, dstRate, dch))
  }

  /** Through resampling and the channel map, every packet keeps its sides exactly where no pair is torn apart. */
  lemma SidesKeptExactly(sch: nat, srcRate: nat, dstRate: nat, dch: nat)
    requires sch > 0 && srcRate > 0 && dstRate > 0 && dch > 0
    ensures (forall frames :: Wide(frames, sch) ==> KeepsSides(frames, sch, srcRate, dstRate, dch))
            <==> PairsKept(sch, dch)
  {
    if PairsKept(sch, dch) {
      forall frames | Wide(frames, sch)
        ensures KeepsSides(frames, sch, srcRate, dstRate, dch)
      {
        forall i: nat | i < ConvertedCount(|frames|, srcRate, dstRate)
          ensures ConvertedFrame(AllMirrored(frames), sch, srcRate, dstRate, dch, i)
               == Mirrored(ConvertedFrame(frames, sch, srcRate, dstRate, dch, i))
        {
          ConversionMirrors(frames, sch, srcRate, dstRate, dch, i);
        }
      }
    } else {
      TornPacket(sch, srcRate, dstRate, dch);
    }
  }

  lemma TornPacket(sch: nat, srcRate: nat, dstRate: nat, dch: nat)
    requires sch > 0 && srcRate > 0 && dstRate > 0 && dch > 0 && !PairsKept(sch, dch)
    ensures exists frames :: Wide(frames, sch) && !KeepsSides(frames, sch, srcRate, dstRate, dch)
  {
    var frames := seq(srcRate, _ => Ladder(sch));
    QuotientIs(srcRate * dstRate, srcRate, dstRate, 0);
    FirstFrame(frames, sch, srcRate, dstRate, dch);
    FirstFrame(AllMirrored(frames), sch, srcRate, dstRate, dch);
    LadderIsTorn(sch, dch);
    assert AllConverted(AllMirrored(frames), sch, srcRate, dstRate, dch)[0]
        != AllMirrored(AllConverted(frames, sch, srcRate, dstRate, dch))[0];
  }

  lemma ConvertedGrows(frames: seq<Frame>, sch: nat, srcRate: nat, dstRate: nat, dch: nat, i: nat)
    requires Wide(frames, sch) && srcRate > 0 && dch > 0 && i < ConvertedCount(|frames|, srcRate, dstRate)
    ensures Converted(frames, sch, srcRate, dstRate, dch, i + 1)
         == Converted(frames, sch, srcRate, dstRate, dch, i) + [ConvertedFrame(frames, sch, srcRate, dstRate, dch, i)]
  {
  }
}
