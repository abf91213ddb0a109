/**
 * The step indicator of src/components/ProcessSteps.jsx: which of the four
 * steps is current, and whether each step is shown done, active or idle.
 */
module ProcessSteps {
  datatype StepState = Done | Active | Idle

  /** The step keys 1 to 4: Paste JD, Analyze, Tailor, Download. */
  const STEP_COUNT := 4

  /** `hasResults ? 4 : isLoading ? 3 : 1` */
  function Current(isLoading: bool, hasResults: bool): int {
    if hasResults then 4 else if isLoading then 3 else 1
  }

  /** `s.key < current ? 'done' : s.key === current ? 'active' : 'idle'` */
  function StateOf(key: int, current: int): StepState {
    if key < current then Done else if key == current then Active else Idle
  }

  /** The states of the steps, in the order they are listed (position `i` holds key `i + 1`). */
  function States(isLoading: bool, hasResults: bool): (r: seq<StepState>)
    ensures |r| == STEP_COUNT
  {
    var current := Current(isLoading, hasResults);
    seq(STEP_COUNT, i => StateOf(i + 1, current))
  }

  /**
   * Results win over loading, and the Analyze step (key 2) is never current:
   * it is never shown active, only done (with results or while loading) or idle.
   */
  lemma CurrentSpec(isLoading: bool, hasResults: bool)
    ensures Current(isLoading, hasResults) == 4 <==> hasResults
    ensures Current(isLoading, hasResults) == 3 <==> !hasResults && isLoading
    ensures Current(isLoading, hasResults) == 1 <==> !hasResults && !isLoading
    ensures States(isLoading, hasResults)[1] != Active
    ensures States(isLoading, hasResults)[1] == Done <==> hasResults || isLoading
  {
    assert States(isLoading, hasResults)[1] == StateOf(2, Current(isLoading, hasResults));
  }

  /**
   * Exactly one step is active, the one whose key is current; the steps before
   * it are done and the steps after it are idle, so the states run done, then
   * active, then idle.
   */
  lemma StatesSpec(isLoading: bool, hasResults: bool)
    ensures var r := States(isLoading, hasResults);
      && (forall i :: 0 <= i < |r| ==> (r[i] == Active <==> i + 1 == Current(isLoading, hasResults)))
      && (forall i :: 0 <= i < |r| ==> (r[i] == Done <==> i + 1 < Current(isLoading, hasResults)))
      && (forall i :: 0 <= i < |r| ==> (r[i] == Idle <==> i + 1 > Current(isLoading, hasResults)))
    ensures var r := States(isLoading, hasResults);
      forall i, j :: 0 <= i < j < |r| ==> Rank(r[i]) >= Rank(r[j])
    ensures var r := States(isLoading, hasResults);
      |ActiveSteps(r, 0)| == 1
  {
    var r := States(isLoading, hasResults);
    var c := Current(isLoading, hasResults);
    assert forall i :: 0 <= i < |r| ==> r[i] == StateOf(i + 1, c);
    ActiveStepsAre(r, 0, c - 1);
    assert ActiveSteps(r, 0) == {c - 1};
  }

  /** Done before active before idle. */
  function Rank(s: StepState): nat {
    match s
    case Done => 2
    case Active => 1
    case Idle => 0
  }

  /** The positions from `from` on whose step is active. */
  function ActiveSteps(r: seq<StepState>, from: nat): set<nat>
    decreases |r| - from
  {
    if from >= |r| then {}
    else (if r[from] == Active then {from} else {}) + ActiveSteps(r, from + 1)
  }

  /** When only position `k` is active, the active positions from `from` on are `k` alone, or none past `k`. */
  lemma {:induction false} ActiveStepsAre(r: seq<StepState>, from: nat, k: nat)
    requires k < |r| && forall i :: 0 <= i < |r| ==> (r[i] == Active <==> i == k)
    ensures ActiveSteps(r, from) == if from <= k then {k} else {}
    decreases |r| - from
  {
    if from < |r| {
      ActiveStepsAre(r, from + 1, k);
    }
  }
}
