/**
 * The tortoise record and the start of a race: the terminal-height check and
 * the construction of one record per lane from supplied random samples.
 */
module TortoiseSetup {
  import opened Wrappers
  import opened TortoiseNames

  /** One racer. `x` is its position along the lane, `y` the screen row of its lane. */
  datatype Tortoise = Tortoise(
    name: string,
    x: real,
    y: int,
    speed: real,
    acceleration: real,
    color: int)

  /** The three random values drawn for one tortoise at the start. */
  datatype InitSample = InitSample(speed: real, acceleration: real, color: int)

  /** Why a race cannot start. */
  datatype SetupError =
    | TerminalTooShort   // the height check fails
    | EmptyColorRange    // no colour pair to draw a tortoise's colour from

  const MinInitialSpeed: real := 0.5
  const MaxInitialSpeed: real := 1.5
  const MaxAcceleration: real := 0.05
  /** The colour pairs the race may use at most. */
  const MaxColorPairs: int := 7
  /** Rows the height check adds to the number of tortoises. */
  const HeightMargin: int := 3

  predicate AccelerationInRange(a: real) {
    -MaxAcceleration <= a <= MaxAcceleration
  }

  predicate InitialSpeedInRange(s: real) {
    MinInitialSpeed <= s <= MaxInitialSpeed
  }

  /** Screen row of the `i`-th lane: two header rows, then every other row. */
  function LaneRow(i: nat): (row: int)
    ensures row >= 2 && row % 2 == 0 && (row - 2) / 2 == i
  {
    2 + 2 * i
  }

  /** The number of colour pairs set up for a terminal offering `colors` colours. */
  function NumColorPairs(colors: int): (k: int)
    ensures k <= MaxColorPairs && k <= colors - 1
    ensures k == MaxColorPairs || k == colors - 1
  {
    if colors - 1 < MaxColorPairs then colors - 1 else MaxColorPairs
  }

  /** How many tortoises enumerating `n` gives: none when `n` is not positive. */
  function Count(n: int): (c: nat)
    ensures n >= 0 ==> c == n
    ensures n < 0 ==> c == 0
  {
    if n < 0 then 0 else n
  }

  /** The samples are what the library draws: each value in its documented range. */
  predicate SamplesFit(samples: seq<InitSample>, n: int, numColors: int) {
    && |samples| == Count(n)
    && forall i :: 0 <= i < |samples| ==>
         && InitialSpeedInRange(samples[i].speed)
         && AccelerationInRange(samples[i].acceleration)
         && (numColors >= 1 ==> 1 <= samples[i].color <= numColors)
  }

  /**
   * Starts a race of `n` tortoises on a terminal `height` rows high offering
   * `colors` colours: fails when the height check fails, before any tortoise
   * exists; fails when a colour is to be drawn from an empty range; otherwise
   * builds the records with the samples given.
   */
  function Setup(height: int, n: int, colors: int, samples: seq<InitSample>): (r: Result<seq<Tortoise>, SetupError>)
    requires SamplesFit(samples, n, NumColorPairs(colors))
    ensures r == Failure(TerminalTooShort) <==> height < n + HeightMargin
    ensures r == Failure(EmptyColorRange) <==> height >= n + HeightMargin && n >= 1 && NumColorPairs(colors) < 1
    ensures r.Success? ==> |r.value| == Count(n)
    ensures r.Success? ==> forall i :: 0 <= i < |r.value| ==>
              && r.value[i].name == TortoiseName(i)
              && r.value[i].x == 0.0
              && r.value[i].y == LaneRow(i)
              && InitialSpeedInRange(r.value[i].speed)
              && AccelerationInRange(r.value[i].acceleration)
              && 1 <= r.value[i].color <= NumColorPairs(colors)
  {
    if height < n + HeightMargin then
      Failure(TerminalTooShort)
    else if Count(n) >= 1 && NumColorPairs(colors) < 1 then
      Failure(EmptyColorRange)
    else
      Success(seq(Count(n), i requires 0 <= i < Count(n) =>
        Tortoise(TortoiseName(i), 0.0, LaneRow(i), samples[i].speed, samples[i].acceleration, samples[i].color)))
  }

  /** Lanes are strictly increasing by two rows and names are pairwise distinct. */
  ghost predicate LanesAndNamesDistinct(ts: seq<Tortoise>) {
    && (forall i :: 0 <= i < |ts| ==> ts[i].y == LaneRow(i))
    && (forall i, j :: 0 <= i < j < |ts| ==> ts[i].y < ts[j].y && ts[i].name != ts[j].name)
  }

  lemma SetupGivesLanesAndNamesDistinct(height: int, n: int, colors: int, samples: seq<InitSample>)
    requires SamplesFit(samples, n, NumColorPairs(colors))
    requires Setup(height, n, colors, samples).Success?
    ensures LanesAndNamesDistinct(Setup(height, n, colors, samples).value)
  {
    var ts := Setup(height, n, colors, samples).value;
    forall i, j | 0 <= i < j < |ts|
      ensures ts[i].y < ts[j].y && ts[i].name != ts[j].name
    {
      TortoiseNamesDistinct(i, j);
    }
  }

  /** The labels drawn at the start of the lanes are pairwise distinct too. */
  lemma SetupGivesDistinctLabels(height: int, n: int, colors: int, samples: seq<InitSample>)
    requires SamplesFit(samples, n, NumColorPairs(colors))
    requires Setup(height, n, colors, samples).Success?
    ensures var ts := Setup(height, n, colors, samples).value;
            forall i, j :: 0 <= i < j < |ts| ==> Label(ts[i].name) != Label(ts[j].name)
  {
    var ts := Setup(height, n, colors, samples).value;
    forall i, j | 0 <= i < j < |ts|
      ensures Label(ts[i].name) != Label(ts[j].name)
    {
      TortoiseLabelsDistinct(i, j);
    }
  }

  /**
   * The height check does not keep the track on screen: for two or more
   * tortoises a terminal of `n + 3` rows passes it, yet the finish marker of
   * the last lane is drawn on row `LaneRow(n - 1) + 1`, which is not above
   * the last row `n + 2`.
   */
  lemma HeightCheckAdmitsOffScreenLanes(n: int, colors: int, samples: seq<InitSample>)
    requires n >= 2 && SamplesFit(samples, n, NumColorPairs(colors))
    ensures Setup(n + HeightMargin, n, colors, samples) != Failure(TerminalTooShort)
    ensures LaneRow(n - 1) + 1 >= n + HeightMargin
  {
  }

  /** A terminal of four rows is too short for three tortoises. */
  lemma FourRowsTooShortForThree(colors: int, samples: seq<InitSample>)
    requires SamplesFit(samples, 3, NumColorPairs(colors))
    ensures Setup(4, 3, colors, samples) == Failure(TerminalTooShort)
  {
  }
}
