/**
 * The race loop: each frame updates the tortoises in list order, stops at the
 * first one to reach the finish line, and then ends the race if there is a
 * winner or a key was pressed.
 */
module TortoiseRace {
  import opened Wrappers
  import opened TortoiseSetup

  /** The speed a tortoise never drops below. */
  const MinSpeed: real := 0.1
  /** A tortoise redraws its acceleration when its roll falls below this chance. */
  const ResampleChance: real := 0.1
  /** Columns between the finish line and the right edge. */
  const FinishMargin: int := 5

  /** The finish line's column: FinishMargin columns short of the terminal width. */
  function FinishLine(width: int): (finish: real)
    ensures finish + FinishMargin as real == width as real
  {
    (width - FinishMargin) as real
  }

  /**
   * The random values one tortoise draws in one frame: the roll compared
   * against ResampleChance, and the acceleration it takes if the roll wins.
   */
  datatype Draw = Draw(roll: real, acceleration: real)

  predicate DrawInRange(d: Draw) {
    0.0 <= d.roll < 1.0 && AccelerationInRange(d.acceleration)
  }

  /** What the environment supplies for one frame: a draw per tortoise, and whether a key is waiting. */
  datatype FrameInput = FrameInput(draws: seq<Draw>, keyPressed: bool)

  predicate DrawsFit(draws: seq<Draw>, n: nat) {
    |draws| == n && forall j :: 0 <= j < n ==> DrawInRange(draws[j])
  }

  predicate FramesSized(frames: seq<FrameInput>, n: nat) {
    forall k :: 0 <= k < |frames| ==> |frames[k].draws| == n
  }

  predicate FramesFit(frames: seq<FrameInput>, n: nat) {
    forall k :: 0 <= k < |frames| ==> DrawsFit(frames[k].draws, n)
  }

  // ---------------------------------------------------------------------------
  // One tortoise, one frame

  function MaxReal(a: real, b: real): (m: real)
    ensures m >= a && m >= b && (m == a || m == b)
  {
    if a < b then b else a
  }

  /**
   * The update of one tortoise: speed from the old acceleration, floored at
   * MinSpeed; then perhaps a new acceleration; then a move by the new speed.
   */
  function Advance(t: Tortoise, d: Draw): (r: Tortoise)
    ensures r.speed >= MinSpeed && r.speed >= t.speed + t.acceleration
    ensures r.speed == MinSpeed || r.speed == t.speed + t.acceleration
    ensures d.roll < ResampleChance ==> r.acceleration == d.acceleration
    ensures d.roll >= ResampleChance ==> r.acceleration == t.acceleration
    ensures r.x == t.x + r.speed && r.x >= t.x + MinSpeed
    ensures r.name == t.name && r.y == t.y && r.color == t.color
  {
    var speed := MaxReal(MinSpeed, t.speed + t.acceleration);
    var acceleration := if d.roll < ResampleChance then d.acceleration else t.acceleration;
    t.(speed := speed, acceleration := acceleration, x := t.x + speed)
  }

  // ---------------------------------------------------------------------------
  // The update pass of one frame

  datatype PassResult = PassResult(tortoises: seq<Tortoise>, winner: Option<nat>)

  /** The pass from the `i`-th tortoise on: update it, stop if it crossed, else go on. */
  function PassFrom(ts: seq<Tortoise>, draws: seq<Draw>, finish: real, i: nat): (r: PassResult)
    requires i <= |ts| == |draws|
    ensures |r.tortoises| == |ts|
    ensures r.winner.Some? ==> i <= r.winner.value < |ts| && r.tortoises[r.winner.value].x >= finish
    decreases |ts| - i
  {
    if i == |ts| then
      PassResult(ts, None)
    else
      var t := Advance(ts[i], draws[i]);
      if t.x >= finish then PassResult(ts[i := t], Some(i))
      else PassFrom(ts[i := t], draws, finish, i + 1)
  }

  /** The update pass of a frame; it meets its loop-free specification (first crosser wins, the rest untouched). */
  function Pass(ts: seq<Tortoise>, draws: seq<Draw>, finish: real): (r: PassResult)
    requires |ts| == |draws|
    ensures IsPassOutcome(ts, draws, finish, r)
  {
    PassFromOutcome(ts, draws, finish, 0);
    PassFrom(ts, draws, finish, 0)
  }

  /**
   * What a pass must produce, stated without the loop: the winner is the
   * lowest index whose updated position reaches `finish`; every tortoise up to
   * it is updated, every one after it is left as it was; with no winner,
   * every tortoise is updated and none reached `finish`.
   */
  ghost predicate IsPassOutcome(ts: seq<Tortoise>, draws: seq<Draw>, finish: real, r: PassResult)
    requires |ts| == |draws|
  {
    && |r.tortoises| == |ts|
    && match r.winner
       case None =>
         forall j :: 0 <= j < |ts| ==> r.tortoises[j] == Advance(ts[j], draws[j]) && r.tortoises[j].x < finish
       case Some(w) =>
         && w < |ts|
         && r.tortoises[w] == Advance(ts[w], draws[w]) && r.tortoises[w].x >= finish
         && (forall j :: 0 <= j < w ==> r.tortoises[j] == Advance(ts[j], draws[j]) && r.tortoises[j].x < finish)
         && (forall j :: w < j < |ts| ==> r.tortoises[j] == ts[j])
  }

  lemma {:induction false} PassFromOutcome(ts: seq<Tortoise>, draws: seq<Draw>, finish: real, i: nat)
    requires i <= |ts| == |draws|
    ensures var r := PassFrom(ts, draws, finish, i);
            && (forall j :: 0 <= j < i ==> r.tortoises[j] == ts[j])
            && match r.winner
               case None =>
                 forall j :: i <= j < |ts| ==> r.tortoises[j] == Advance(ts[j], draws[j]) && r.tortoises[j].x < finish
               case Some(w) =>
                 && r.tortoises[w] == Advance(ts[w], draws[w])
                 && (forall j :: i <= j < w ==> r.tortoises[j] == Advance(ts[j], draws[j]) && r.tortoises[j].x < finish)
                 && (forall j :: w < j < |ts| ==> r.tortoises[j] == ts[j])
    decreases |ts| - i
  {
    if i < |ts| {
      var t := Advance(ts[i], draws[i]);
      if t.x < finish {
        PassFromOutcome(ts[i := t], draws, finish, i + 1);
      }
    }
  }

  /** The loop-free specification admits one outcome only, so it pins down the pass. */
  lemma PassOutcomeUnique(ts: seq<Tortoise>, draws: seq<Draw>, finish: real, r1: PassResult, r2: PassResult)
    requires |ts| == |draws|
    requires IsPassOutcome(ts, draws, finish, r1) && IsPassOutcome(ts, draws, finish, r2)
    ensures r1 == r2
  {
    if r1.winner.Some? && r2.winner.Some? {
      var w1, w2 := r1.winner.value, r2.winner.value;
      if w1 < w2 {
        assert false;
      } else if w2 < w1 {
        assert false;
      }
    } else if r1.winner.Some? {
      assert false;
    } else if r2.winner.Some? {
      assert false;
    }
    assert r1.tortoises == r2.tortoises;
  }

  /** What holds of the tortoises throughout a race. */
  ghost predicate RaceInvariant(ts: seq<Tortoise>) {
    && LanesAndNamesDistinct(ts)
    && forall i :: 0 <= i < |ts| ==>
         && ts[i].speed >= MinSpeed
         && AccelerationInRange(ts[i].acceleration)
         && ts[i].x >= 0.0
  }

  /** `after` came from `before` by updates only: same racers, lanes and colours, none moved back. */
  ghost predicate MovedOn(before: seq<Tortoise>, after: seq<Tortoise>) {
    && |after| == |before|
    && forall i :: 0 <= i < |before| ==>
         && after[i].name == before[i].name
         && after[i].y == before[i].y
         && after[i].color == before[i].color
         && after[i].x >= before[i].x
  }

  lemma PassKeepsInvariant(ts: seq<Tortoise>, draws: seq<Draw>, finish: real)
    requires RaceInvariant(ts) && DrawsFit(draws, |ts|)
    ensures RaceInvariant(Pass(ts, draws, finish).tortoises)
    ensures MovedOn(ts, Pass(ts, draws, finish).tortoises)
  {
    var r := Pass(ts, draws, finish).tortoises;
    forall j | 0 <= j < |ts|
      ensures r[j].name == ts[j].name && r[j].y == ts[j].y && r[j].color == ts[j].color
      ensures r[j].x >= ts[j].x && r[j].speed >= MinSpeed && AccelerationInRange(r[j].acceleration)
    {
      assert r[j] == ts[j] || r[j] == Advance(ts[j], draws[j]);
    }
  }

  // ---------------------------------------------------------------------------
  // Ending the race

  datatype Outcome = Won(index: nat) | Interrupted

  /**
   * After the pass: a winner ends the race whether or not a key was pressed;
   * without one, a key press interrupts it; otherwise it goes on.
   */
  function Decide(winner: Option<nat>, keyPressed: bool): (o: Option<Outcome>)
    ensures winner.Some? ==> o == Some(Won(winner.value))
    ensures o == Some(Interrupted) <==> winner.None? && keyPressed
    ensures o == None <==> winner.None? && !keyPressed
  {
    if winner.Some? then Some(Won(winner.value))
    else if keyPressed then Some(Interrupted)
    else None
  }

  datatype FrameResult = FrameResult(tortoises: seq<Tortoise>, outcome: Option<Outcome>)

  /** One frame: the update pass, then the decision; it only ever moves tortoises forward. */
  function Frame(ts: seq<Tortoise>, input: FrameInput, finish: real): (r: FrameResult)
    requires |input.draws| == |ts|
    ensures MovedOn(ts, r.tortoises)
  {
    var p := Pass(ts, input.draws, finish);
    FrameResult(p.tortoises, Decide(p.winner, input.keyPressed))
  }

  ghost predicate SomeoneCrosses(ts: seq<Tortoise>, draws: seq<Draw>, finish: real)
    requires |ts| == |draws|
  {
    exists j :: 0 <= j < |ts| && Advance(ts[j], draws[j]).x >= finish
  }

  /**
   * The three ways a frame ends: with a winner exactly when some tortoise's
   * update reaches the finish line, whether or not a key is pressed too (and
   * then the winner is the lowest such index); interrupted when a key is
   * pressed and nobody crosses; otherwise the race goes on.
   */
  lemma FrameOutcomeCases(ts: seq<Tortoise>, input: FrameInput, finish: real)
    requires |input.draws| == |ts|
    ensures var o := Frame(ts, input, finish).outcome;
            && ((o.Some? && o.value.Won?) <==> SomeoneCrosses(ts, input.draws, finish))
            && (o == Some(Interrupted) <==> input.keyPressed && !SomeoneCrosses(ts, input.draws, finish))
            && (o == None <==> !input.keyPressed && !SomeoneCrosses(ts, input.draws, finish))
    ensures var o := Frame(ts, input, finish).outcome;
            o.Some? && o.value.Won? ==>
              && o.value.index < |ts|
              && Advance(ts[o.value.index], input.draws[o.value.index]).x >= finish
              && forall j :: 0 <= j < o.value.index ==> Advance(ts[j], input.draws[j]).x < finish
  {
    var p := Pass(ts, input.draws, finish);
    if p.winner.Some? {
      assert Advance(ts[p.winner.value], input.draws[p.winner.value]).x >= finish;
    } else {
      forall j | 0 <= j < |ts|
        ensures Advance(ts[j], input.draws[j]).x < finish
      {
        assert p.tortoises[j] == Advance(ts[j], input.draws[j]);
      }
    }
  }

  // ---------------------------------------------------------------------------
  // The frame loop

  /** Where a run over the supplied frames stands: the tortoises, the outcome (None: still racing) and frames played. */
  datatype RunResult = RunResult(tortoises: seq<Tortoise>, outcome: Option<Outcome>, frames: nat)

  function Run(ts: seq<Tortoise>, frames: seq<FrameInput>, finish: real): (r: RunResult)
    requires FramesSized(frames, |ts|)
    ensures |r.tortoises| == |ts| && r.frames <= |frames|
    decreases |frames|
  {
    if frames == [] then
      RunResult(ts, None, 0)
    else
      var f := Frame(ts, frames[0], finish);
      if f.outcome.Some? then
        RunResult(f.tortoises, f.outcome, 1)
      else
        var r := Run(f.tortoises, frames[1..], finish);
        RunResult(r.tortoises, r.outcome, r.frames + 1)
  }

  /** Over any number of frames the race invariant holds and no tortoise moves back or changes identity. */
  lemma {:induction false} RunKeepsInvariant(ts: seq<Tortoise>, frames: seq<FrameInput>, finish: real)
    requires RaceInvariant(ts) && FramesFit(frames, |ts|)
    ensures RaceInvariant(Run(ts, frames, finish).tortoises)
    ensures MovedOn(ts, Run(ts, frames, finish).tortoises)
    decreases |frames|
  {
    if frames != [] {
      PassKeepsInvariant(ts, frames[0].draws, finish);
      var f := Frame(ts, frames[0], finish);
      if f.outcome.None? {
        RunKeepsInvariant(f.tortoises, frames[1..], finish);
      }
    }
  }

  /**
   * The run stops at the first frame that decides the race: the frames before
   * the last one played, run on their own, leave the race undecided (no
   * crossing and no key press in any of them); a run with no outcome played
   * every frame; an interrupted run ended on a key press; a won run ended
   * with the winner on or past the finish line and every tortoise before it
   * short of the line.
   */
  lemma {:induction false} RunStopsAtFirstDecision(ts: seq<Tortoise>, frames: seq<FrameInput>, finish: real)
    requires FramesSized(frames, |ts|)
    ensures var r := Run(ts, frames, finish);
            && (forall k :: 0 <= k < r.frames ==> Run(ts, frames[..k], finish).outcome.None?)
            && (forall k :: 0 <= k < r.frames - 1 ==> !frames[k].keyPressed)
            && (r.outcome.None? ==> r.frames == |frames| && forall k :: 0 <= k < |frames| ==> !frames[k].keyPressed)
            && (r.outcome == Some(Interrupted) ==> r.frames >= 1 && frames[r.frames - 1].keyPressed)
            && (r.outcome.Some? && r.outcome.value.Won? ==>
                  && r.frames >= 1 && r.outcome.value.index < |ts|
                  && r.tortoises[r.outcome.value.index].x >= finish
                  && forall j :: 0 <= j < r.outcome.value.index ==> r.tortoises[j].x < finish)
    decreases |frames|
  {
    assert frames[..0] == [];
    if frames != [] {
      var f := Frame(ts, frames[0], finish);
      if f.outcome.None? {
        RunStopsAtFirstDecision(f.tortoises, frames[1..], finish);
        var rest := Run(f.tortoises, frames[1..], finish);
        assert forall k :: 1 <= k < |frames| ==> frames[k] == frames[1..][k - 1];
        forall k | 1 <= k < rest.frames + 1
          ensures Run(ts, frames[..k], finish).outcome.None?
        {
          assert frames[..k][0] == frames[0];
          assert frames[..k][1..] == frames[1..][..k - 1];
        }
      }
    }
  }

  /**
   * Without a key press the race always ends with a winner: the first
   * tortoise moves at least MinSpeed per frame, so it reaches the finish line
   * within the supplied frames once they number at least (finish - x) / MinSpeed.
   */
  lemma {:induction false} RunWithoutKeysHasWinner(ts: seq<Tortoise>, frames: seq<FrameInput>, finish: real)
    requires |ts| >= 1 && FramesSized(frames, |ts|)
    requires forall k :: 0 <= k < |frames| ==> !frames[k].keyPressed
    requires |frames| >= 1 && ts[0].x + (|frames| as real) * MinSpeed >= finish
    ensures var o := Run(ts, frames, finish).outcome; o.Some? && o.value.Won?
    decreases |frames|
  {
    var f := Frame(ts, frames[0], finish);
    FrameOutcomeCases(ts, frames[0], finish);
    if f.outcome.None? {
      assert f.tortoises[0] == Advance(ts[0], frames[0].draws[0]);
      assert f.tortoises[0].x >= ts[0].x + MinSpeed;
      RunWithoutKeysHasWinner(f.tortoises, frames[1..], finish);
    }
  }

  // ---------------------------------------------------------------------------
  // The race object

  /** A race in progress: the tortoise records, updated in place, and the finish line. */
  class Race {
    const tortoises: array<Tortoise>
    const finishLine: real

    ghost predicate Valid()
      reads this, tortoises
    {
      RaceInvariant(tortoises[..])
    }

    constructor (ts: seq<Tortoise>, width: int)
      requires RaceInvariant(ts)
      ensures Valid() && fresh(tortoises)
      ensures tortoises[..] == ts && finishLine == FinishLine(width)
    {
      tortoises := new Tortoise[|ts|](i requires 0 <= i < |ts| => ts[i]);
      finishLine := FinishLine(width);
      new;
      assert tortoises[..] == ts;
    }

    /** One frame's update pass over the tortoises in list order; returns the first to cross, if any. */
    method UpdatePass(draws: seq<Draw>) returns (winner: Option<nat>)
      requires Valid() && DrawsFit(draws, tortoises.Length)
      modifies tortoises
      ensures Valid()
      ensures tortoises[..] == Pass(old(tortoises[..]), draws, finishLine).tortoises
      ensures winner == Pass(old(tortoises[..]), draws, finishLine).winner
    {
      ghost var start := tortoises[..];
      PassKeepsInvariant(start, draws, finishLine);
      winner := None;
      var i := 0;
      while i < tortoises.Length
        invariant 0 <= i <= tortoises.Length
        invariant PassFrom(tortoises[..], draws, finishLine, i) == Pass(start, draws, finishLine)
      {
        ghost var before := tortoises[..];
        tortoises[i] := tortoises[i].(speed := MaxReal(MinSpeed, tortoises[i].speed + tortoises[i].acceleration));
        if draws[i].roll < ResampleChance {
          tortoises[i] := tortoises[i].(acceleration := draws[i].acceleration);
        }
        tortoises[i] := tortoises[i].(x := tortoises[i].x + tortoises[i].speed);
        assert tortoises[..] == before[i := Advance(before[i], draws[i])];
        if tortoises[i].x >= finishLine {
          winner := Some(i);
          break;
        }
        i := i + 1;
      }
    }

    /**
     * The frame loop over the supplied frames: update pass, then stop on a
     * winner or on a key press. Returns the outcome (None when the frames ran
     * out first) and the number of frames played.
     */
    method RunFrames(frames: seq<FrameInput>) returns (outcome: Option<Outcome>, played: nat)
      requires Valid() && FramesFit(frames, tortoises.Length)
      modifies tortoises
      ensures Valid()
      ensures var r := Run(old(tortoises[..]), frames, finishLine);
              tortoises[..] == r.tortoises && outcome == r.outcome && played == r.frames
    {
      ghost var r0 := Run(tortoises[..], frames, finishLine);
      var winner: Option<nat> := None;
      var interrupted := false;
      var k := 0;
      while winner.None? && k < |frames|
        invariant 0 <= k <= |frames| && Valid() && !interrupted
        invariant winner.None? ==>
                    var r := Run(tortoises[..], frames[k..], finishLine);
                    r.tortoises == r0.tortoises && r.outcome == r0.outcome && r.frames + k == r0.frames
        invariant winner.Some? ==>
                    tortoises[..] == r0.tortoises && r0.outcome == Some(Won(winner.value)) && k == r0.frames
      {
        ghost var before := tortoises[..];
        assert frames[k..][0] == frames[k] && frames[k..][1..] == frames[k + 1..];
        winner := UpdatePass(frames[k].draws);
        k := k + 1;
        if frames[k - 1].keyPressed {
          interrupted := true;
          break;
        }
      }
      outcome := if winner.Some? then Some(Won(winner.value)) else if interrupted then Some(Interrupted) else None;
      played := k;
    }
  }

  // ---------------------------------------------------------------------------
  // The whole program

  /** How a call of the race ends: refused at setup, or played over the supplied frames. */
  datatype RaceEnd =
    | NotStarted(error: SetupError)
    | Ended(tortoises: seq<Tortoise>, outcome: Option<Outcome>, frames: nat)

  /**
   * Setup, then the frame loop, on a terminal of `height` rows and `width`
   * columns offering `colors` colours, for `n` tortoises. Drawing is not
   * modelled, so neither is the abort of a draw outside the terminal.
   */
  method RaceMain(height: int, width: int, n: int, colors: int,
                  samples: seq<InitSample>, frames: seq<FrameInput>) returns (e: RaceEnd)
    requires SamplesFit(samples, n, NumColorPairs(colors)) && FramesFit(frames, Count(n))
    ensures e.NotStarted? <==> Setup(height, n, colors, samples).Failure?
    ensures e.NotStarted? ==> e.error == Setup(height, n, colors, samples).error
    ensures e.Ended? ==>
              var r := Run(Setup(height, n, colors, samples).value, frames, FinishLine(width));
              e.tortoises == r.tortoises && e.outcome == r.outcome && e.frames == r.frames
  {
    var s := Setup(height, n, colors, samples);
    if s.Failure? {
      return NotStarted(s.error);
    }
    SetupGivesLanesAndNamesDistinct(height, n, colors, samples);
    var race := new Race(s.value, width);
    var outcome, played := race.RunFrames(frames);
    e := Ended(race.tortoises[..], outcome, played);
  }

  /** A race that starts keeps the race invariant over every frame it plays. */
  lemma SetupThenRunKeepsInvariant(height: int, width: int, n: int, colors: int,
                                   samples: seq<InitSample>, frames: seq<FrameInput>)
    requires SamplesFit(samples, n, NumColorPairs(colors)) && FramesFit(frames, Count(n))
    requires Setup(height, n, colors, samples).Success?
    ensures RaceInvariant(Run(Setup(height, n, colors, samples).value, frames, FinishLine(width)).tortoises)
  {
    SetupGivesLanesAndNamesDistinct(height, n, colors, samples);
    RunKeepsInvariant(Setup(height, n, colors, samples).value, frames, FinishLine(width));
  }

  /**
   * With at least one tortoise and no key press, a started race has a winner
   * within max(1, 10 * (width - 5)) frames.
   */
  lemma RaceWithoutKeysHasWinner(height: int, width: int, n: int, colors: int,
                                 samples: seq<InitSample>, frames: seq<FrameInput>)
    requires SamplesFit(samples, n, NumColorPairs(colors)) && FramesFit(frames, Count(n))
    requires Setup(height, n, colors, samples).Success? && n >= 1
    requires forall k :: 0 <= k < |frames| ==> !frames[k].keyPressed
    requires |frames| >= 1 && (|frames| as real) * MinSpeed >= FinishLine(width)
    ensures var o := Run(Setup(height, n, colors, samples).value, frames, FinishLine(width)).outcome;
            o.Some? && o.value.Won?
  {
    RunWithoutKeysHasWinner(Setup(height, n, colors, samples).value, frames, FinishLine(width));
  }

  // ---------------------------------------------------------------------------
  // Two scenarios

  /** `k` frames in which nobody redraws an acceleration and no key is pressed. */
  function SteadyFrames(k: nat): seq<FrameInput> {
    seq(k, _ => FrameInput([Draw(0.5, 0.0)], false))
  }

  function SteadyTortoise(x: real): Tortoise {
    Tortoise("Speedy 1", x, 2, 2.0, 0.0, 1)
  }

  lemma SteadyFrame(x: real)
    ensures Frame([SteadyTortoise(x)], FrameInput([Draw(0.5, 0.0)], false), 10.0)
            == FrameResult([SteadyTortoise(x + 2.0)], if x + 2.0 >= 10.0 then Some(Won(0)) else None)
  {
    assert Advance(SteadyTortoise(x), Draw(0.5, 0.0)) == SteadyTortoise(x + 2.0);
    var after := [SteadyTortoise(x)][0 := SteadyTortoise(x + 2.0)];
    assert after == [SteadyTortoise(x + 2.0)];
    if x + 2.0 < 10.0 {
      assert PassFrom(after, [Draw(0.5, 0.0)], 10.0, 1) == PassResult(after, None);
    }
  }

  lemma SteadyRun(k: nat)
    requires 1 <= k <= 5
    ensures Run([SteadyTortoise(10.0 - 2.0 * k as real)], SteadyFrames(k), 10.0)
            == RunResult([SteadyTortoise(10.0)], Some(Won(0)), k)
  {
    var x := 10.0 - 2.0 * k as real;
    SteadyFrame(x);
    assert SteadyFrames(k)[0] == FrameInput([Draw(0.5, 0.0)], false);
    if k > 1 {
      assert SteadyFrames(k)[1..] == SteadyFrames(k - 1);
      SteadyRun(k - 1);
    }
  }

  /** One tortoise at speed 2 that never accelerates, finish line at 10: it wins on frame 5 at exactly 10. */
  lemma SingleSteadyTortoiseWinsOnFifthFrame()
    ensures var r := Run([SteadyTortoise(0.0)], SteadyFrames(5), 10.0);
            r.outcome == Some(Won(0)) && r.frames == 5 && r.tortoises[0].x == 10.0
  {
    SteadyRun(5);
  }

  /**
   * A key pressed on the first frame of a race with a finish line at 100
   * interrupts it: nobody can cover that distance in one frame.
   */
  lemma KeyOnFirstFrameInterrupts(ts: seq<Tortoise>, frames: seq<FrameInput>)
    requires RaceInvariant(ts) && |frames| >= 1 && FramesFit(frames, |ts|)
    requires frames[0].keyPressed && forall i :: 0 <= i < |ts| ==> ts[i].x == 0.0 && ts[i].speed <= 10.0
    ensures Run(ts, frames, 100.0) == RunResult(Pass(ts, frames[0].draws, 100.0).tortoises, Some(Interrupted), 1)
  {
    FrameOutcomeCases(ts, frames[0], 100.0);
    var d := frames[0].draws;
    forall j | 0 <= j < |ts|
      ensures Advance(ts[j], d[j]).x < 100.0
    {
    }
  }
}
