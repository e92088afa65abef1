/** `renderProgressBar` in script.js: one step per workflow stage, marked
    completed, active or neither by the position of the current status. */
module Progress {

  /** `stages.indexOf(x)`: the first position holding `x`, or -1. */
  function IndexOf(stages: seq<string>, x: string): (k: int)
    ensures -1 <= k < |stages|
    ensures k == -1 <==> x !in stages
    ensures k >= 0 ==> stages[k] == x && x !in stages[..k]
    decreases |stages|
  {
    if |stages| == 0 then -1
    else if stages[0] == x then 0
    else
      var k := IndexOf(stages[1..], x);
      if k == -1 then -1
      else
        assert stages[..k + 1] == [stages[0]] + stages[1..][..k];
        k + 1
  }

  datatype StepState = Completed | Active | Pending

  /** A rendered step: its stage name, its class and whether its icon shows a
      checkmark. */
  datatype Step = Step(name: string, state: StepState, checkmark: bool)

  /** The class chosen for the step at `index` when the status sits at `current`. */
  function Classify(index: int, current: int): StepState {
    if index < current then Completed
    else if index == current then Active
    else Pending
  }

  /** The progress bar, characterised without `indexOf`: a step is completed
      when the status occurs strictly later and not up to it, active when it
      is the first occurrence of the status, and checked exactly when
      completed. */
  function Steps(stages: seq<string>, status: string): (steps: seq<Step>)
    ensures |steps| == |stages|
    ensures forall i :: 0 <= i < |steps| ==> steps[i].name == stages[i]
    ensures forall i :: 0 <= i < |steps| ==>
      (steps[i].state == Completed <==> status in stages && status !in stages[..i + 1])
    ensures forall i :: 0 <= i < |steps| ==>
      (steps[i].state == Active <==> stages[i] == status && status !in stages[..i])
    ensures forall i :: 0 <= i < |steps| ==> (steps[i].checkmark <==> steps[i].state == Completed)
  {
    var current := IndexOf(stages, status);
    var steps := seq(|stages|, i requires 0 <= i < |stages| => Step(stages[i], Classify(i, current), i < current));
    forall i | 0 <= i < |stages|
      ensures steps[i].state == Completed <==> status in stages && status !in stages[..i + 1]
      ensures steps[i].state == Active <==> stages[i] == status && status !in stages[..i]
    {
      if i < current {
        assert stages[..i + 1] == stages[..current][..i + 1];
        assert stages[..i] == stages[..current][..i];
      } else if i == current {
      } else if current >= 0 {
        assert stages[..i + 1][current] == status;
        assert stages[..i][current] == status;
      }
    }
    steps
  }

  /** Completed steps form a prefix of the bar. */
  lemma CompletedFormPrefix(stages: seq<string>, status: string)
    ensures var steps := Steps(stages, status);
      forall i, j :: 0 <= i <= j < |steps| && steps[j].state == Completed ==> steps[i].state == Completed
  {
  }

  /** At most one step is active. */
  lemma AtMostOneActive(stages: seq<string>, status: string)
    ensures var steps := Steps(stages, status);
      forall i, j :: 0 <= i < |steps| && 0 <= j < |steps| && steps[i].state == Active && steps[j].state == Active ==> i == j
  {
  }

  /** A status present in the stages makes exactly the step at its first
      occurrence active, and every step before it completed; with duplicate
      stage names the later copies stay pending. */
  lemma KnownStatusPosition(stages: seq<string>, status: string)
    requires status in stages
    ensures 0 <= IndexOf(stages, status) < |stages|
    ensures Steps(stages, status)[IndexOf(stages, status)].state == Active
    ensures forall i :: 0 <= i < IndexOf(stages, status) ==> Steps(stages, status)[i].state == Completed
    ensures forall i :: IndexOf(stages, status) < i < |stages| ==> Steps(stages, status)[i].state == Pending
  {
    var k := IndexOf(stages, status);
    var steps := Steps(stages, status);
    forall i | 0 <= i < k ensures steps[i].state == Completed {
      AbsentFromShorterPrefix(stages, status, i + 1, k);
    }
    forall i | k < i < |stages| ensures steps[i].state == Pending {
      PresentInLongerPrefix(stages, k, i);
      PresentInLongerPrefix(stages, k, i + 1);
    }
  }

  lemma AbsentFromShorterPrefix(s: seq<string>, x: string, m: int, n: int)
    requires 0 <= m <= n <= |s| && x !in s[..n]
    ensures x !in s[..m]
  {
    assert s[..m] == s[..n][..m];
  }

  lemma PresentInLongerPrefix(s: seq<string>, k: int, n: int)
    requires 0 <= k < n <= |s|
    ensures s[k] in s[..n]
  {
    assert s[..n][k] == s[k];
  }

  /** A status that is not among the stages (`indexOf` is -1) leaves every
      step pending and unchecked. */
  lemma UnknownStatusAllPending(stages: seq<string>, status: string)
    requires status !in stages
    ensures forall i :: 0 <= i < |stages| ==>
      Steps(stages, status)[i].state == Pending && !Steps(stages, status)[i].checkmark
  {
  }
}
