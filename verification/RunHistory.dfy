/** Why a run has the status it has, over any interleaving of all runs. */
module RunHistory {
  import opened RunProtocol
  import opened RunStore
  import L = RunLocal
  import S = RunStatus

  ghost predicate HasStatus(s: State, r: RunId, st: Status) {
    r in s.runs && s.runs[r].row.status == st
  }

  /** At step `j` run `r` took on the status, and has kept it up to moment `i`. */
  ghost predicate HasItSince(states: seq<State>, steps: seq<Step>, r: RunId, st: Status, j: nat, i: nat)
    requires |states| == |steps| + 1 && i <= |steps|
  {
    && j < i && steps[j].On? && steps[j].r == r && r in states[j].runs
    && states[j].runs[r].row.status != st && S.Enters(states[j].runs[r], steps[j].e, st)
    && forall k :: j < k <= i ==> HasStatus(states[k], r, st)
  }

  lemma OneStep(s: State, e: Step, r: RunId, st: Status)
    requires RunProtocol.Enabled(s, e) && HasStatus(RunProtocol.Apply(s, e), r, st) && !HasStatus(s, r, st) && st != Queued
    ensures r in s.runs && e.On? && e.r == r && S.Enters(s.runs[r], e.e, st)
  {
    hide L.Apply, L.Enabled, S.Enters;
    if e.On? && e.r == r { S.EntersExactly(s.runs[r], e.e, st); }
  }

  /** Whatever status but queued a run has at some moment of a trace, some step of its own gave
      it that status, by one of the causes of that status, and it has had it ever since. */
  lemma {:induction false} EveryStatusHasItsCause(states: seq<State>, steps: seq<Step>, i: nat, r: RunId, st: Status)
    requires RunProtocol.IsTrace(states, steps) && i <= |steps| && HasStatus(states[i], r, st) && st != Queued
    ensures exists j: nat :: HasItSince(states, steps, r, st, j, i)
  {
    hide RunProtocol.Apply, RunProtocol.Enabled, S.Enters;
    if i > 0 {
      if HasStatus(states[i - 1], r, st) {
        EveryStatusHasItsCause(states, steps, i - 1, r, st);
        var j: nat :| HasItSince(states, steps, r, st, j, i - 1);
        assert HasItSince(states, steps, r, st, j, i);
      } else {
        OneStep(states[i - 1], steps[i - 1], r, st);
        assert HasItSince(states, steps, r, st, i - 1, i);
      }
    }
  }

  /** And a step that is such a cause gives the run that status at once. */
  lemma CausesTakeEffect(s: State, e: Step, st: Status)
    requires RunProtocol.Enabled(s, e) && e.On? && s.runs[e.r].row.status != st && S.Enters(s.runs[e.r], e.e, st)
    ensures HasStatus(RunProtocol.Apply(s, e), e.r, st)
  {
    hide L.Apply, L.Enabled, S.Enters;
    S.EntersExactly(s.runs[e.r], e.e, st);
  }
}
