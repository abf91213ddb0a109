/**
 * The progress indicator of src/components/ProgressBar.jsx: the stage shown
 * for the time elapsed since the request started, the estimated time left,
 * the stage looked up again by its progress value, and the component state
 * that the interval updates and that is reset when the bar is hidden.
 *
 * Times are whole milliseconds, as `Date.now()` returns them; `now` is a
 * parameter wherever the source reads the clock.
 */
module ProgressBar {
  import opened Results

  /** One entry of `statusStages` (its icon is left out). */
  datatype Stage = Stage(time: nat, progress: nat, message: string)

  const INITIALIZING := "Initializing..."
  const FETCHING := "Fetching your resumes..."
  const ANALYZING := "Analyzing job description..."
  const SELECTING := "Selecting best resume match..."
  const TAILORING := "Tailoring resume content..."
  const GENERATING := "Generating cover letter..."
  const FINALIZING := "Finalizing documents..."

  /** `statusStages` */
  const STAGES: seq<Stage> := [
    Stage(0, 0, INITIALIZING),
    Stage(3000, 20, FETCHING),
    Stage(6000, 35, ANALYZING),
    Stage(10000, 50, SELECTING),
    Stage(15000, 65, TAILORING),
    Stage(20000, 80, GENERATING),
    Stage(25000, 90, FINALIZING)
  ]

  /** The time at which the estimate reaches zero, in milliseconds. */
  const EXPECTED_DURATION := 25000

  /** Start times and progress values both strictly increase along the stages. */
  predicate Increasing(stages: seq<Stage>) {
    forall i, j :: 0 <= i < j < |stages| ==> stages[i].time < stages[j].time && stages[i].progress < stages[j].progress
  }

  lemma StagesIncreasing()
    ensures Increasing(STAGES)
    ensures STAGES[0].time == 0
    ensures forall i :: 0 <= i < |STAGES| ==> STAGES[i].progress <= 90
  {
  }

  // ---- the stage for an elapsed time ----

  /** `stages.findLast((s) => elapsed >= s.time)`, as the index of the stage found. */
  function FindLast(stages: seq<Stage>, elapsed: int): (r: Option<nat>)
    ensures r.Some? ==> r.value < |stages| && stages[r.value].time <= elapsed
    ensures r.Some? ==> forall j :: r.value < j < |stages| ==> elapsed < stages[j].time
    ensures r.None? ==> forall j :: 0 <= j < |stages| ==> elapsed < stages[j].time
  {
    if |stages| == 0 then None
    else if stages[|stages| - 1].time <= elapsed then Some(|stages| - 1)
    else FindLast(stages[..|stages| - 1], elapsed)
  }

  /**
   * A stage is found for every elapsed time from zero on, and none before;
   * and a later time never finds an earlier stage, so the progress shown
   * never goes back.
   */
  lemma StageLookupSpec(e1: int, e2: int)
    ensures FindLast(STAGES, e1).Some? <==> 0 <= e1
    ensures 0 <= e1 <= e2 ==>
      && FindLast(STAGES, e1).value <= FindLast(STAGES, e2).value
      && STAGES[FindLast(STAGES, e1).value].progress <= STAGES[FindLast(STAGES, e2).value].progress
  {
    StagesIncreasing();
    if 0 <= e1 <= e2 {
      FindLastMonotone(STAGES, e1, e2);
    }
  }

  /** Over stages in time order, the stage found moves forward with the time. */
  lemma FindLastMonotone(stages: seq<Stage>, e1: int, e2: int)
    requires Increasing(stages)
    requires e1 <= e2 && FindLast(stages, e1).Some?
    ensures FindLast(stages, e2).Some?
    ensures FindLast(stages, e1).value <= FindLast(stages, e2).value
  {
    var i := FindLast(stages, e1).value;
    assert stages[i].time <= e2;
  }

  /** The stage is `Initializing...` for the first three seconds and `Finalizing documents...` from 25 s on. */
  lemma StageBoundaries(elapsed: int)
    ensures 0 <= elapsed < 3000 ==> FindLast(STAGES, elapsed) == Some(0)
    ensures EXPECTED_DURATION <= elapsed ==> FindLast(STAGES, elapsed) == Some(6)
  {
    StagesIncreasing();
    var r := FindLast(STAGES, elapsed);
    if 0 <= elapsed {
      assert r.Some?;
      if elapsed < 3000 {
        assert STAGES[r.value].time < STAGES[1].time;
      }
    }
  }

  // ---- the remaining time ----

  /** `Math.ceil(x / 1000)`, whole milliseconds to whole seconds rounded up. */
  function CeilSeconds(x: int): (r: int)
    ensures (r - 1) * 1000 < x <= r * 1000
  {
    -((-x) / 1000)
  }

  /** `Math.max(0, Math.ceil((25000 - elapsed) / 1000))` */
  function Remaining(elapsed: int): int {
    var r := CeilSeconds(EXPECTED_DURATION - elapsed);
    if r < 0 then 0 else r
  }

  /**
   * The estimate is the number of whole seconds that covers what is left of
   * the 25 s, lies between 0 and 25 from the start on, is 0 exactly from
   * 25 s on, and never grows as time passes.
   */
  lemma RemainingSpec(elapsed: int, later: int)
    ensures elapsed < EXPECTED_DURATION ==>
      (Remaining(elapsed) - 1) * 1000 < EXPECTED_DURATION - elapsed <= Remaining(elapsed) * 1000
    ensures 0 <= elapsed ==> 0 <= Remaining(elapsed) <= 25
    ensures Remaining(elapsed) == 0 <==> EXPECTED_DURATION <= elapsed
    ensures elapsed <= later ==> Remaining(later) <= Remaining(elapsed)
  {
  }

  // ---- the stage for a progress value ----

  /** `stages.find((s) => s.progress === progress)`, as the index of the stage found. */
  function FindProgress(stages: seq<Stage>, progress: int): (r: Option<nat>)
    ensures r.Some? ==> r.value < |stages| && stages[r.value].progress == progress
    ensures r.Some? ==> forall j :: 0 <= j < r.value ==> stages[j].progress != progress
    ensures r.None? ==> forall j :: 0 <= j < |stages| ==> stages[j].progress != progress
  {
    if |stages| == 0 then None
    else if stages[0].progress == progress then Some(0)
    else match FindProgress(stages[1..], progress)
      case None => None
      case Some(k) => Some(k + 1)
  }

  /**
   * `currentStage`: the stage looked up by the progress shown is the stage the
   * time lookup chose, since no two stages share a progress value.
   */
  lemma CurrentStageAgrees(elapsed: int)
    requires 0 <= elapsed
    ensures FindLast(STAGES, elapsed).Some?
    ensures FindProgress(STAGES, STAGES[FindLast(STAGES, elapsed).value].progress) == FindLast(STAGES, elapsed)
  {
    StagesIncreasing();
    StageLookupSpec(elapsed, elapsed);
    FindProgressOfStage(STAGES, FindLast(STAGES, elapsed).value);
  }

  /** With distinct progress values, looking a stage up by its progress finds that stage. */
  lemma FindProgressOfStage(stages: seq<Stage>, i: nat)
    requires Increasing(stages) && i < |stages|
    ensures FindProgress(stages, stages[i].progress) == Some(i)
  {
    var r := FindProgress(stages, stages[i].progress);
    assert r.Some?;
  }

  /** Every progress value a stage can show is below 100, so `✓ Your tailored resume is ready!` never shows. */
  lemma ShownProgressBelowReady(progress: int)
    requires FindProgress(STAGES, progress).Some?
    ensures 0 <= progress <= 90
    ensures !ShowsReady(progress) && ShowsCancel(progress)
    ensures ShowsShimmer(progress) <==> progress != 0
  {
    StagesIncreasing();
  }

  /** `progress === 100`: the ready message replaces the estimate. */
  predicate ShowsReady(progress: int) {
    progress == 100
  }

  /** `progress < 100`: the cancel button and the animated dots are shown. */
  predicate ShowsCancel(progress: int) {
    progress < 100
  }

  /** `progress > 0 && progress < 100`: the shimmer is drawn over the bar. */
  predicate ShowsShimmer(progress: int) {
    0 < progress < 100
  }

  // ---- the component state ----

  /** `useState` of `progress`, `statusMessage`, `estimatedTimeRemaining` and `startTime`. */
  class ProgressState {
    var progress: int
    var statusMessage: string
    var estimatedTimeRemaining: int
    var startTime: Option<int>

    /**
     * The progress is a stage's, the message is empty or that stage's, and
     * the estimate lies between 0 and 25.
     */
    ghost predicate Valid()
      reads this
    {
      && FindProgress(STAGES, progress).Some?
      && (statusMessage == "" || statusMessage == STAGES[FindProgress(STAGES, progress).value].message)
      && 0 <= estimatedTimeRemaining <= 25
    }

    /** `!startTime`: no start time, or the falsy start time 0. */
    predicate Started()
      reads this
    {
      startTime.Some? && startTime.value != 0
    }

    /** The initial `useState` values. */
    constructor()
      ensures Valid()
      ensures progress == 0 && statusMessage == "" && estimatedTimeRemaining == 25 && startTime.None?
    {
      progress := 0;
      statusMessage := "";
      estimatedTimeRemaining := 25;
      startTime := None;
    }

    /** The effect while `isVisible` is false: everything back to its initial value. */
    method Hide()
      modifies this
      ensures Valid()
      ensures progress == 0 && statusMessage == "" && estimatedTimeRemaining == 25 && startTime.None?
    {
      progress := 0;
      statusMessage := "";
      estimatedTimeRemaining := 25;
      startTime := None;
    }

    /** The effect while `isVisible` is true: the clock is read when no start time is set. */
    method Show(now: int)
      modifies this
      ensures !old(Started()) ==> startTime == Some(now)
      ensures old(Started()) ==> startTime == old(startTime)
      ensures progress == old(progress) && statusMessage == old(statusMessage)
      ensures estimatedTimeRemaining == old(estimatedTimeRemaining)
      ensures old(Valid()) ==> Valid()
    {
      if !Started() {
        startTime := Some(now);
      }
    }

    /** One run of the interval callback at time `now`. */
    method Tick(now: int)
      requires Valid()
      modifies this
      ensures Valid()
      ensures startTime == old(startTime)
      ensures old(Started()) && FindLast(STAGES, now - old(startTime.value)).Some? ==>
        var i := FindLast(STAGES, now - old(startTime.value)).value;
        && progress == STAGES[i].progress
        && statusMessage == STAGES[i].message
        && estimatedTimeRemaining == Remaining(now - old(startTime.value))
      ensures !(old(Started()) && FindLast(STAGES, now - old(startTime.value)).Some?) ==>
        progress == old(progress) && statusMessage == old(statusMessage)
        && estimatedTimeRemaining == old(estimatedTimeRemaining)
    {
      if !Started() {
        return;
      }
      var elapsed := now - startTime.value;
      var stage := FindLast(STAGES, elapsed);
      if stage.Some? {
        CurrentStageAgrees(elapsed);
        RemainingSpec(elapsed, elapsed);
        progress := STAGES[stage.value].progress;
        statusMessage := STAGES[stage.value].message;
        estimatedTimeRemaining := Remaining(elapsed);
      }
    }
  }
}
