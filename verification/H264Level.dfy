/** The H.264 level advertised for a rendition (crates/core/src/variant/video.rs): the limits
    are those of Annex A, Table A-1 of ITU-T H.264. Frame rates are exact. */
module H264Level {
  import opened Params

  datatype Limits = Limits(idc: nat, maxMbps: nat, maxFs: nat, maxBr: nat)

  const BR_UNIT := 1200
  const HIGHEST := 62

  const LEVELS := [
    Limits(10, 1_485, 99, 64), Limits(11, 3_000, 396, 192), Limits(12, 6_000, 396, 384), Limits(13, 11_880, 396, 768),
    Limits(20, 11_880, 396, 2_000), Limits(21, 19_800, 792, 4_000), Limits(22, 20_250, 1_620, 4_000),
    Limits(30, 40_500, 1_620, 10_000), Limits(31, 108_000, 3_600, 14_000), Limits(32, 216_000, 5_120, 20_000),
    Limits(40, 245_760, 8_192, 20_000), Limits(41, 245_760, 8_192, 50_000), Limits(42, 522_240, 8_704, 50_000),
    Limits(50, 589_824, 22_080, 135_000), Limits(51, 983_040, 36_864, 240_000), Limits(52, 2_073_600, 36_864, 240_000),
    Limits(60, 4_177_920, 139_264, 240_000), Limits(61, 8_355_840, 139_264, 480_000),
    Limits(62, 16_711_680, 139_264, 800_000)
  ]

  function Ceil(x: real): int { -(-x).Floor }

  /** Macroblocks of 16 by 16 pixels that cover a frame. */
  function Macroblocks(v: VideoVariant): nat { (v.width + 15) / 16 * ((v.height + 15) / 16) }

  /** Frames a second; a rate that is not positive counts as 30. */
  function Fps(v: VideoVariant): real {
    if v.fps.0 > 0 && v.fps.1 > 0 then v.fps.0 as real / v.fps.1 as real else 30.0
  }

  function Mbps(v: VideoVariant): int { Ceil(Macroblocks(v) as real * Fps(v)) }

  predicate Admits(l: Limits, v: VideoVariant) {
    Macroblocks(v) <= l.maxFs && Mbps(v) <= l.maxMbps && v.bitrate <= l.maxBr * BR_UNIT
  }

  predicate Admitted(v: VideoVariant) { Admits(LEVELS[|LEVELS| - 1], v) }

  /** The frame is covered by whole macroblocks, and by no more than are needed. */
  lemma MacroblocksCover(v: VideoVariant) returns (columns: nat, rows: nat)
    ensures Macroblocks(v) == columns * rows
    ensures v.width <= 16 * columns < v.width + 16 && v.height <= 16 * rows < v.height + 16
  {
    columns, rows := (v.width + 15) / 16, (v.height + 15) / 16;
  }

  /** The frame rate is the exact quotient, and the macroblock rate rounds up. */
  lemma RatesAreExact(v: VideoVariant)
    ensures v.fps.0 > 0 && v.fps.1 > 0 ==> Fps(v) * v.fps.1 as real == v.fps.0 as real
    ensures v.fps.0 == 0 || v.fps.1 == 0 ==> Fps(v) == 30.0
    ensures Macroblocks(v) as real * Fps(v) <= Mbps(v) as real < Macroblocks(v) as real * Fps(v) + 1.0
  {}

  /** A level admits a rendition if and only if the columns and rows of macroblocks that cover the frame
      are within its frame size, the macroblocks of `n` frames in `d` seconds within its rate, and the
      bitrate within its own. */
  lemma AdmitsIff(l: Limits, v: VideoVariant, columns: nat, rows: nat, n: nat, d: nat)
    requires v.width <= 16 * columns < v.width + 16 && v.height <= 16 * rows < v.height + 16
    requires (n, d) == if v.fps.0 > 0 && v.fps.1 > 0 then v.fps else (30, 1)
    ensures Admits(l, v) <==>
              && columns * rows <= l.maxFs && columns * rows * n <= l.maxMbps * d && v.bitrate <= l.maxBr * 1200
  {
    assert columns == (v.width + 15) / 16 && rows == (v.height + 15) / 16;
    RateFits(Macroblocks(v), n, d, l.maxMbps);
  }

  lemma RateFits(m: nat, n: nat, d: nat, most: nat)
    requires d > 0
    ensures Ceil(m as real * (n as real / d as real)) <= most <==> m * n <= most * d
  {
    var q := n as real / d as real;
    assert q * d as real == n as real;
    assert m as real * q * d as real == m as real * n as real == (m * n) as real;
    assert most as real * d as real == (most * d) as real;
    if m as real * q <= most as real {
      assert (m as real * q) * d as real <= most as real * d as real;
    } else {
      assert (m as real * q) * d as real > most as real * d as real;
    }
  }

  /** An ordinary rendition: 1080p at 30 frames a second and 6 Mbit/s is level 4.0. */
  lemma FullHdIsLevel40(v: VideoVariant)
    requires v.width == 1920 && v.height == 1080 && v.fps == (30, 1) && v.bitrate == 6_000_000
    ensures DeriveH264Level(v) == 40
  {
    hide FirstAdmitting;
    assert Macroblocks(v) == 8160 && Mbps(v) == 244_800;
    LevelBetween(v, 10);
  }

  /** A rendition at the very limits of level 3.1 is still level 3.1. */
  lemma HdIsLevel31(v: VideoVariant)
    requires v.width == 1280 && v.height == 720 && v.fps == (30, 1) && v.bitrate == 16_800_000
    ensures DeriveH264Level(v) == 31
    ensures DeriveH264Level(v.(bitrate := 16_800_001)) == 32
  {
    hide FirstAdmitting;
    LevelBetween(v, 8);
    LevelBetween(v.(bitrate := 16_800_001), 9);
  }

  lemma LevelBetween(v: VideoVariant, k: nat)
    requires 0 < k < |LEVELS| && Admits(LEVELS[k], v) && !Admits(LEVELS[k - 1], v)
    ensures DeriveH264Level(v) == LEVELS[k].idc
  {
    hide FirstAdmitting;
    if Admitted(v) {
      LevelIsExact(v);
      var i :| 0 <= i < |LEVELS| && LEVELS[i].idc == DeriveH264Level(v);
      if i < k { TableUpTo(i, k - 1); } else if i > k { TableIsMonotone(k, i); }
    } else {
      LevelIsExact(v);
    }
  }

  lemma TableUpTo(i: nat, j: nat)
    requires i <= j < |LEVELS|
    ensures LEVELS[i].idc <= LEVELS[j].idc
  {
    if i < j { TableIsMonotone(i, j); }
  }

  /** Every limit of the table grows with the level. */
  lemma TableIsMonotone(i: nat, j: nat)
    requires i < j < |LEVELS|
    ensures LEVELS[i].idc < LEVELS[j].idc && LEVELS[i].maxMbps <= LEVELS[j].maxMbps
    ensures LEVELS[i].maxFs <= LEVELS[j].maxFs && LEVELS[i].maxBr <= LEVELS[j].maxBr
    decreases j - i
  {
    if i + 1 < j {
      TableIsMonotone(i, j - 1);
      TableIsMonotone(j - 1, j);
    }
  }

  /** The first level of the table from `i` on that admits the rendition. */
  function FirstAdmitting(v: VideoVariant, i: nat): nat
    decreases |LEVELS| - i
  {
    if i >= |LEVELS| then HIGHEST
    else if Admits(LEVELS[i], v) then LEVELS[i].idc
    else FirstAdmitting(v, i + 1)
  }

  function DeriveH264Level(v: VideoVariant): nat { FirstAdmitting(v, 0) }

  /** A configured level wins over the derived one. */
  function ResolvedLevel(v: VideoVariant): nat {
    if v.level > 0 then v.level else DeriveH264Level(v)
  }

  lemma {:induction false} FirstIsFirst(v: VideoVariant, i: nat) returns (k: nat)
    requires i <= |LEVELS|
    ensures i <= k <= |LEVELS| && forall j | i <= j < k :: !Admits(LEVELS[j], v)
    ensures if k < |LEVELS| then Admits(LEVELS[k], v) && FirstAdmitting(v, i) == LEVELS[k].idc
            else FirstAdmitting(v, i) == HIGHEST
    decreases |LEVELS| - i
  {
    hide Admits;
    k := i;
    if i < |LEVELS| && !Admits(LEVELS[i], v) {
      k := FirstIsFirst(v, i + 1);
    }
  }

  /** The levels of the table that admit the rendition are exactly those from the derived one
      up; if there is none, the highest level is asked for. */
  lemma LevelIsExact(v: VideoVariant)
    ensures Admitted(v) ==> forall i | 0 <= i < |LEVELS| ::
              Admits(LEVELS[i], v) <==> LEVELS[i].idc >= DeriveH264Level(v)
    ensures Admitted(v) ==> exists i :: 0 <= i < |LEVELS| && LEVELS[i].idc == DeriveH264Level(v)
    ensures !Admitted(v) ==> DeriveH264Level(v) == HIGHEST && forall i | 0 <= i < |LEVELS| :: !Admits(LEVELS[i], v)
  {
    hide FirstAdmitting;
    var k := FirstIsFirst(v, 0);
    if k < |LEVELS| {
      forall i | 0 <= i < |LEVELS| ensures Admits(LEVELS[i], v) <==> LEVELS[i].idc >= LEVELS[k].idc {
        if i < k {
          TableIsMonotone(i, k);
        } else if k < i {
          TableIsMonotone(k, i);
        }
      }
      assert Admitted(v);
    }
  }

  /** A configured level is used as it is. */
  lemma ConfiguredLevelWins(v: VideoVariant)
    requires v.level > 0
    ensures ResolvedLevel(v) == v.level
  {}

  /** Unless a level is configured, the encoder gets the lowest that admits the rendition. */
  lemma ResolvedIsLowest(v: VideoVariant)
    requires v.level == 0 && Admitted(v)
    ensures forall i | 0 <= i < |LEVELS| && LEVELS[i].idc < ResolvedLevel(v) :: !Admits(LEVELS[i], v)
    ensures exists i :: 0 <= i < |LEVELS| && LEVELS[i].idc == ResolvedLevel(v) && Admits(LEVELS[i], v)
  {
    LevelIsExact(v);
  }
}
