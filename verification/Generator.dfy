/** Timing of the test-pattern generator (crates/core/src/generator.rs): a video and an audio
    clock in different timebases, and the rule that decides which frame comes next.

    Divisions of f64 values are taken as exact quotients, truncated; timestamps do not overflow. */
module Generator {
  import opened Arith
  import opened Rescale
  import opened Timestamps
  import opened Wrappers

  /** `fps` is the frame rate after its cast to an integer. */
  datatype Config = Config(fps: nat, sampleRate: nat, frameSize: nat, videoTb: Rational, audioTb: Rational) {
    predicate Valid() { fps > 0 && videoTb.Positive() && audioTb.Positive() }

    predicate HasAudio() { sampleRate > 0 }

    function PtsPerFrame(): nat
      requires Valid()
    {
      MulPositive(videoTb.num, fps);
      videoTb.den / (videoTb.num * fps)
    }

    /** Duration of one audio frame in its timebase; the cast drops the fraction. */
    function AudioDuration(): nat
      requires Valid() && HasAudio()
    {
      MulPositive(sampleRate, audioTb.num);
      (frameSize * audioTb.den) / (sampleRate * audioTb.num)
    }

    /** A video timestamp in the timebase of the audio. */
    function ToAudio(pts: int): int
      requires Valid()
    {
      RescaleQ(pts, videoTb, audioTb)
    }
  }

  datatype Frame = VideoFrame(pts: int, duration: nat) | AudioFrame(pts: int, duration: nat)

  /** The two clocks, and the video frame that `begin` prepared. */
  datatype Clocks = Clocks(videoPts: int, audioPts: int, nextFrame: Option<Frame>)

  const START := Clocks(0, 0, None)

  function Begun(c: Config, g: Clocks): Clocks
    requires c.Valid()
  {
    if g.nextFrame.None? then g.(nextFrame := Some(VideoFrame(g.videoPts, c.PtsPerFrame()))) else g
  }

  predicate NeedsAudio(c: Config, g: Clocks)
    requires c.Valid()
  {
    c.HasAudio() && g.audioPts < c.ToAudio(g.videoPts + c.PtsPerFrame())
  }

  /** The next frame and the clocks after it. */
  function Next(c: Config, g: Clocks): (Frame, Clocks)
    requires c.Valid()
  {
    if NeedsAudio(c, g) then
      (AudioFrame(g.audioPts, c.AudioDuration()), g.(audioPts := g.audioPts + c.AudioDuration()))
    else
      var frame := Begun(c, g).nextFrame.value;
      (frame, g.(videoPts := g.videoPts + frame.duration, nextFrame := None))
  }

  class FrameGenerator {
    const config: Config
    var videoPts: int
    var audioPts: int
    var nextFrame: Option<Frame>

    function State(): Clocks
      reads this
    {
      Clocks(videoPts, audioPts, nextFrame)
    }

    constructor (config: Config)
      ensures this.config == config && State() == START
    {
      this.config := config;
      videoPts, audioPts, nextFrame := 0, 0, None;
    }

    method SetStartingPts(videoPts: int, audioPts: int)
      modifies this
      ensures State() == Clocks(videoPts, audioPts, old(nextFrame))
    {
      this.videoPts, this.audioPts := videoPts, audioPts;
    }

    method Begin()
      requires config.Valid()
      modifies this
      ensures State() == Begun(config, old(State()))
    {
      if nextFrame.None? {
        nextFrame := Some(VideoFrame(videoPts, config.PtsPerFrame()));
      }
    }

    method GenerateAudioFrame() returns (frame: Option<Frame>)
      requires config.Valid()
      ensures frame == if NeedsAudio(config, State()) then Some(AudioFrame(audioPts, config.AudioDuration())) else None
    {
      if config.sampleRate == 0 { return None; }
      var needed := config.ToAudio(videoPts + config.PtsPerFrame());
      frame := if audioPts < needed then Some(AudioFrame(audioPts, config.AudioDuration())) else None;
    }

    method DoNext() returns (frame: Frame)
      requires config.Valid()
      modifies this
      ensures (frame, State()) == Next(config, old(State()))
    {
      var audio := GenerateAudioFrame();
      if audio.Some? {
        audioPts := audioPts + audio.value.duration;
        return audio.value;
      }
      Begin();
      frame := nextFrame.value;
      nextFrame := None;
      videoPts := videoPts + frame.duration;
    }
  }

  // ----- Runs --------------------------------------------------------------------

  function After(c: Config, g: Clocks, n: nat): Clocks
    requires c.Valid()
  {
    if n == 0 then g else Next(c, After(c, g, n - 1)).1
  }

  /** The `n`-th frame from `g` on. */
  function Emitted(c: Config, g: Clocks, n: nat): Frame
    requires c.Valid()
  {
    Next(c, After(c, g, n)).0
  }

  function VideoCount(c: Config, g: Clocks, n: nat): nat
    requires c.Valid()
  {
    if n == 0 then 0 else VideoCount(c, g, n - 1) + if Emitted(c, g, n - 1).VideoFrame? then 1 else 0
  }

  /** A prepared frame is the one the video clock points at. */
  predicate Ready(c: Config, g: Clocks)
    requires c.Valid()
  {
    g.nextFrame.Some? ==> g.nextFrame.value == VideoFrame(g.videoPts, c.PtsPerFrame())
  }

  /** Audio is never behind the video and ahead by at most one frame of each. */
  predicate Lead(c: Config, g: Clocks)
    requires c.Valid() && c.HasAudio()
  {
    c.ToAudio(g.videoPts) <= g.audioPts < c.ToAudio(g.videoPts + c.PtsPerFrame()) + c.AudioDuration()
  }

  lemma LeadStart(c: Config)
    requires c.Valid() && c.HasAudio() && c.AudioDuration() > 0
    ensures Ready(c, START) && Lead(c, START)
  {
    hide RescaleQ, Config.PtsPerFrame, Config.AudioDuration;
    RescaleZero(c.videoTb, c.audioTb);
    RescaleMonotone(0, c.PtsPerFrame(), c.videoTb, c.audioTb);
  }

  lemma RescaleZero(bq: Rational, cq: Rational)
    requires bq.Positive() && cq.Positive()
    ensures RescaleQ(0, bq, cq) == 0
  {
    ScalePositive(bq, cq);
    QuotientIs(bq.den * cq.num, 2 * (bq.den * cq.num), 0);
  }

  lemma LeadStep(c: Config, g: Clocks)
    requires c.Valid() && c.HasAudio() && Ready(c, g) && Lead(c, g)
    ensures Ready(c, Next(c, g).1) && Lead(c, Next(c, g).1)
  {
    hide RescaleQ, Config.PtsPerFrame, Config.AudioDuration;
    var ppf := c.PtsPerFrame();
    RescaleMonotone(g.videoPts + ppf, g.videoPts + ppf + ppf, c.videoTb, c.audioTb);
  }

  /** The lead bound holds in every state the generator reaches. */
  lemma {:induction false} LeadAlways(c: Config, g: Clocks, n: nat)
    requires c.Valid() && c.HasAudio() && Ready(c, g) && Lead(c, g)
    ensures Ready(c, After(c, g, n)) && Lead(c, After(c, g, n))
  {
    hide Ready, Lead, Next;
    if n > 0 {
      LeadAlways(c, g, n - 1);
      LeadStep(c, After(c, g, n - 1));
    }
  }

  /** In particular from the initial clocks on. */
  lemma LeadFromStart(c: Config, n: nat)
    requires c.Valid() && c.HasAudio() && c.AudioDuration() > 0
    ensures Lead(c, After(c, START, n))
  {
    LeadStart(c);
    LeadAlways(c, START, n);
  }

  /** Whenever a video frame comes out, audio has been generated up to its end. */
  lemma VideoIsCovered(c: Config, g: Clocks, n: nat)
    requires c.Valid() && c.HasAudio() && Ready(c, g) && Lead(c, g) && Emitted(c, g, n).VideoFrame?
    ensures var f := Emitted(c, g, n); c.ToAudio(f.pts + f.duration) <= After(c, g, n).audioPts
  {
    hide RescaleQ, Config.PtsPerFrame, Config.AudioDuration;
    LeadAlways(c, g, n);
  }

  /** Frames carry the clocks, and each frame moves its own clock by its duration. */
  lemma NextMoves(c: Config, g: Clocks)
    requires c.Valid() && Ready(c, g)
    ensures var (f, g') := Next(c, g);
            Ready(c, g') && if f.VideoFrame? then
              && f == VideoFrame(g.videoPts, c.PtsPerFrame()) && g'.videoPts == g.videoPts + c.PtsPerFrame()
              && g'.audioPts == g.audioPts
            else
              && c.HasAudio() && f == AudioFrame(g.audioPts, c.AudioDuration()) && g'.videoPts == g.videoPts
              && g'.audioPts == g.audioPts + c.AudioDuration()
  {
    hide RescaleQ, Config.PtsPerFrame, Config.AudioDuration;
  }

  function Times(k: int, d: int): int { k * d }

  lemma TimesSucc(k: int, d: int)
    ensures Times(k + 1, d) == Times(k, d) + d && Times(0, d) == 0
  {
    assert (k + 1) * d == k * d + d;
  }

  /** `count` steps that should be `den / unit` ticks each add up to `moved` ticks: none is too long,
      and each is short by less than a tick. */
  predicate OnGrid(moved: int, count: nat, den: int, unit: int) {
    0 <= Times(count, den) - Times(moved, unit) <= Times(count, unit)
  }

  /** A step of `d` ticks is the exact quotient, cut to whole ticks. */
  predicate CutFrom(d: int, den: int, unit: int) { Times(d, unit) <= den < Times(d, unit) + unit }

  lemma QuotientIsCut(den: nat, unit: nat)
    requires unit > 0
    ensures CutFrom(den / unit, den, unit)
  {
    assert den == den / unit * unit + den % unit;
  }

  lemma {:induction false} StepsAreOnGrid(d: int, count: nat, den: int, unit: int)
    requires CutFrom(d, den, unit)
    ensures OnGrid(Times(count, d), count, den, unit)
  {
    TimesSucc(0, d); TimesSucc(0, den); TimesSucc(0, unit);
    if count > 0 {
      StepsAreOnGrid(d, count - 1, den, unit);
      TimesSucc(count - 1, d);
      TimesSucc(count - 1, den);
      TimesSucc(count - 1, unit);
      TimesAdds(Times(count - 1, d), d, unit);
    }
  }

  lemma TimesAdds(x: int, y: int, u: int)
    ensures Times(x + y, u) == Times(x, u) + Times(y, u)
  {}

  /** A video frame lasts a second divided by the frame rate, an audio frame its samples divided by
      the sample rate, each in ticks of its timebase and cut to whole ones. */
  lemma FramesLast(c: Config)
    requires c.Valid()
    ensures CutFrom(c.PtsPerFrame(), c.videoTb.den, c.videoTb.num * c.fps)
    ensures c.HasAudio() ==> CutFrom(c.AudioDuration(), c.frameSize * c.audioTb.den, c.sampleRate * c.audioTb.num)
  {
    hide CutFrom;
    MulPositive(c.videoTb.num, c.fps);
    QuotientIsCut(c.videoTb.den, c.videoTb.num * c.fps);
    if c.HasAudio() {
      MulPositive(c.sampleRate, c.audioTb.num);
      QuotientIsCut(c.frameSize * c.audioTb.den, c.sampleRate * c.audioTb.num);
    }
  }

  /** The clocks count frames: both streams are gap-free, after n video frames the video is n / fps
      seconds on, and after m audio frames the audio m times frame size / sample rate, to within a
      tick a frame. */
  lemma {:induction false} ClocksCount(c: Config, g: Clocks, n: nat)
    requires c.Valid() && Ready(c, g)
    ensures VideoCount(c, g, n) <= n && Ready(c, After(c, g, n))
    ensures After(c, g, n).videoPts == g.videoPts + Times(VideoCount(c, g, n), c.PtsPerFrame())
    ensures c.HasAudio() ==> After(c, g, n).audioPts == g.audioPts + Times(n - VideoCount(c, g, n), c.AudioDuration())
    ensures !c.HasAudio() ==> VideoCount(c, g, n) == n
    ensures OnGrid(After(c, g, n).videoPts - g.videoPts, VideoCount(c, g, n), c.videoTb.den, c.videoTb.num * c.fps)
    ensures c.HasAudio() ==> OnGrid(After(c, g, n).audioPts - g.audioPts, n - VideoCount(c, g, n),
                                    c.frameSize * c.audioTb.den, c.sampleRate * c.audioTb.num)
  {
    hide RescaleQ, Config.PtsPerFrame, Config.AudioDuration, Config.Valid, Ready, Next, Times, OnGrid, CutFrom;
    if n == 0 {
      TimesSucc(0, c.PtsPerFrame());
      if c.HasAudio() { TimesSucc(0, c.AudioDuration()); }
    } else {
      ClocksCount(c, g, n - 1);
      NextMoves(c, After(c, g, n - 1));
      var k := VideoCount(c, g, n - 1);
      TimesSucc(k, c.PtsPerFrame());
      if c.HasAudio() { TimesSucc(n - 1 - k, c.AudioDuration()); }
    }
    FramesLast(c);
    StepsAreOnGrid(c.PtsPerFrame(), VideoCount(c, g, n), c.videoTb.den, c.videoTb.num * c.fps);
    if c.HasAudio() {
      StepsAreOnGrid(c.AudioDuration(), n - VideoCount(c, g, n), c.frameSize * c.audioTb.den,
                     c.sampleRate * c.audioTb.num);
    }
  }

  // ----- Progress -----------------------------------------------------------------

  /** How many audio frames come before the next video frame. */
  function AudioFramesDue(c: Config, g: Clocks): nat
    requires c.Valid() && (c.HasAudio() ==> c.AudioDuration() > 0)
  {
    if !NeedsAudio(c, g) then 0
    else
      var missing := c.ToAudio(g.videoPts + c.PtsPerFrame()) - g.audioPts;
      (missing + c.AudioDuration() - 1) / c.AudioDuration()
  }

  /** Each audio frame brings the next video frame one closer. */
  lemma DueDecreases(c: Config, g: Clocks)
    requires c.Valid() && (c.HasAudio() ==> c.AudioDuration() > 0)
    ensures NeedsAudio(c, g) <==> AudioFramesDue(c, g) > 0
    ensures NeedsAudio(c, g) ==> AudioFramesDue(c, Next(c, g).1) == AudioFramesDue(c, g) - 1
  {
    hide RescaleQ, Config.PtsPerFrame, Config.AudioDuration;
    if NeedsAudio(c, g) {
      var d := c.AudioDuration();
      var missing := c.ToAudio(g.videoPts + c.PtsPerFrame()) - g.audioPts;
      CeilingStep(missing, d);
    }
  }

  lemma CeilingStep(m: int, d: int)
    requires m > 0 && d > 0
    ensures (m + d - 1) / d > 0
    ensures m - d > 0 ==> (m - d + d - 1) / d == (m + d - 1) / d - 1
    ensures m - d <= 0 ==> (m + d - 1) / d == 1
  {
    var q := (m + d - 1) / d;
    assert m + d - 1 == q * d + (m + d - 1) % d;
    if m - d > 0 {
      QuotientIs(m - 1, d, q - 1);
    } else {
      QuotientIs(m + d - 1, d, 1);
    }
    DivMonotone(d, m + d - 1, d);
  }

  lemma QuotientIs(m: int, d: int, q: int)
    requires d > 0 && q * d <= m < q * d + d
    ensures m / d == q
  {
    var r := m / d;
    assert m == r * d + m % d;
    assert (r + 1) * d == r * d + d && (q + 1) * d == q * d + d;
    if r < q {
      MulMonotone(r + 1, q, d);
    } else if r > q {
      MulMonotone(q + 1, r, d);
    }
  }

  /** The next video frame comes after exactly that many audio frames. */
  lemma {:induction false} VideoFollows(c: Config, g: Clocks)
    requires c.Valid() && (c.HasAudio() ==> c.AudioDuration() > 0) && Ready(c, g)
    ensures Emitted(c, g, AudioFramesDue(c, g)).VideoFrame?
    ensures forall k: nat | k < AudioFramesDue(c, g) :: Emitted(c, g, k).AudioFrame?
    decreases AudioFramesDue(c, g)
  {
    hide RescaleQ, Config.PtsPerFrame, Config.AudioDuration, AudioFramesDue;
    DueDecreases(c, g);
    if NeedsAudio(c, g) {
      var g' := Next(c, g).1;
      VideoFollows(c, g');
      forall k: nat ensures Emitted(c, g, k + 1) == Emitted(c, g', k) { AfterNext(c, g, k); }
      assert Emitted(c, g, AudioFramesDue(c, g') + 1).VideoFrame?;
      forall k: nat | k < AudioFramesDue(c, g) ensures Emitted(c, g, k).AudioFrame? {
        if k > 0 { assert Emitted(c, g, k - 1 + 1) == Emitted(c, g', k - 1); }
      }
    }
  }

  lemma {:induction false} AfterNext(c: Config, g: Clocks, k: nat)
    requires c.Valid()
    ensures After(c, g, k + 1) == After(c, Next(c, g).1, k)
  {
    hide Next;
    if k > 0 { AfterNext(c, g, k - 1); }
  }

  /** Clocks that were set with the audio behind catch up: when the audio frames due have come out,
      the lead bound holds, and it does from then on. */
  lemma {:induction false} AudioCatchesUp(c: Config, g: Clocks)
    requires c.Valid() && c.HasAudio() && c.AudioDuration() > 0 && Ready(c, g) && NeedsAudio(c, g)
    ensures Lead(c, After(c, g, AudioFramesDue(c, g)))
    decreases AudioFramesDue(c, g)
  {
    hide RescaleQ, Config.PtsPerFrame, Config.AudioDuration, AudioFramesDue;
    DueDecreases(c, g);
    var g' := Next(c, g).1;
    AfterNext(c, g, AudioFramesDue(c, g) - 1);
    if NeedsAudio(c, g') {
      AudioCatchesUp(c, g');
    } else {
      DueDecreases(c, g');
      RescaleMonotone(g.videoPts, g.videoPts + c.PtsPerFrame(), c.videoTb, c.audioTb);
    }
  }

  /** An audio frame shorter than one tick of its timebase stops the clock: audio frames with
      the same timestamp come out for ever. */
  lemma {:induction false} AudioForever(c: Config, g: Clocks, n: nat)
    requires c.Valid() && NeedsAudio(c, g) && c.AudioDuration() == 0
    ensures After(c, g, n) == g && Emitted(c, g, n) == AudioFrame(g.audioPts, 0)
  {
    if n > 0 { AudioForever(c, g, n - 1); }
  }

  /** Video comes out at all exactly if audio is off, far enough, or moves. */
  lemma VideoComesIff(c: Config, g: Clocks)
    requires c.Valid() && Ready(c, g)
    ensures (exists n: nat :: Emitted(c, g, n).VideoFrame?)
       <==> !NeedsAudio(c, g) || c.AudioDuration() > 0
  {
    hide RescaleQ, Config.PtsPerFrame, Config.AudioDuration;
    if !c.HasAudio() || c.AudioDuration() > 0 {
      VideoFollows(c, g);
    } else if NeedsAudio(c, g) {
      forall n: nat ensures Emitted(c, g, n).AudioFrame? { AudioForever(c, g, n); }
    } else {
      assert Emitted(c, g, 0).VideoFrame?;
    }
  }

  /** Without a sample rate there is no audio; with one the show starts with audio, unless the first
      video frame is over before the first tick of the audio. */
  lemma AudioIffSampled(c: Config, n: nat)
    requires c.Valid()
    ensures c.sampleRate == 0 ==> Emitted(c, START, n).VideoFrame?
    ensures c.sampleRate > 0 ==> (Emitted(c, START, 0).AudioFrame? <==> c.ToAudio(c.PtsPerFrame()) > 0)
  {
    hide RescaleQ, Config.PtsPerFrame, Config.AudioDuration;
    if c.sampleRate == 0 {
      ClocksCount(c, START, n);
    }
  }

  /** Reached with ordinary parameters: 44.1 kHz audio stamped in thirtieths of a second. */
  lemma CoarseAudioTimebaseStalls(n: nat)
    ensures var c := Config(30, 44100, 1024, Rational(1, 90000), Rational(1, 30));
            c.Valid() && Emitted(c, START, n) == AudioFrame(0, 0)
  {
    var c := Config(30, 44100, 1024, Rational(1, 90000), Rational(1, 30));
    assert c.PtsPerFrame() == 3000 && c.ToAudio(3000) == 1 && c.AudioDuration() == 0;
    AudioForever(c, START, n);
  }
}
