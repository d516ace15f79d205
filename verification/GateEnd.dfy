/** Whether an ended run stays ended. */
module GateEnd {
  import opened GateResume
  import opened RunStore

  /** Terminal, with no approver past the status test and nothing scheduled. */
  ghost predicate Settled(s: State) {
    && Terminal(s.status) && s.tasks == {}
    && forall t :: t in s.resumers ==> s.resumers[t].phase.Entering?
  }

  /** A settled run stays settled except by an explicit retry, or by an approver who confirms
      a dialogue that is still open: that path does not look at the run's status. */
  lemma SettledStays(s: State, e: Step)
    requires Settled(s) && Enabled(s, e)
    ensures Settled(Apply(s, e)) <==> !(e.Retry? || e.Check?)
    ensures e.Check? ==> s.resumers[e.t].node in s.dialogues
  {
    if e.Retry? {
      assert e.a in Apply(s, e).tasks;
    } else if e.Check? {
      assert Apply(s, e).resumers[e.t].phase.Checked?;
    }
  }

  ghost predicate DialogueOpen(s: State) {
    exists n :: n in s.dialogues && Pending(s, n)
  }

  /** Settled, and no dialogue whose confirmation would revive it. */
  ghost predicate Calm(s: State) {
    Settled(s) && !DialogueOpen(s)
  }

  /** A driver still at work opens a dialogue, or saves an open row over its latest visit. */
  predicate OpensADialogue(s: State, e: Step) {
    || ((e.Open? || e.LateOpen?) && e.n in s.dialogues)
    || (e.Write? && AtRow(s, e.w) && s.writers[e.w].node in s.dialogues
        && s.writers[e.w].i == |Visits(s, s.writers[e.w].node)| - 1)
  }

  /** A calm run stays so exactly through the steps that are neither a retry nor the opening
      of a dialogue by a driver that is still at work. */
  lemma CalmStep(s: State, e: Step)
    requires Calm(s) && Enabled(s, e)
    ensures Calm(Apply(s, e)) <==> !(e.Retry? || OpensADialogue(s, e))
  {
    if e.Check? { CheckNeedsADialogue(s, e.t); }
    SettledStays(s, e);
    hide Apply, Enabled, Settled, DialogueOpen, OpensADialogue;
    if OpensADialogue(s, e) {
      DialogueOpens(s, e);
    } else if !e.Retry? {
      NoDialogueOpens(s, e);
    }
  }

  lemma DialogueOpens(s: State, e: Step)
    requires Enabled(s, e) && OpensADialogue(s, e)
    ensures DialogueOpen(Apply(s, e))
  {
    assert Pending(Apply(s, e), if e.Write? then s.writers[e.w].node else e.n);
  }

  lemma NoDialogueOpens(s: State, e: Step)
    requires Calm(s) && Enabled(s, e) && !OpensADialogue(s, e)
    ensures !DialogueOpen(Apply(s, e))
  {
    var y := Apply(s, e);
    forall n | n in y.dialogues ensures !Pending(y, n) { assert !Pending(s, n); }
  }

  lemma CheckNeedsADialogue(s: State, t: Id)
    requires Settled(s) && Enabled(s, Check(t))
    ensures DialogueOpen(s)
  {
    assert Pending(s, s.resumers[t].node);
  }

  ghost predicate IsPath(states: seq<State>, steps: seq<Step>) {
    |states| == |steps| + 1 && forall k :: 0 <= k < |steps| ==> Goes(states[k], steps[k], states[k + 1])
  }

  /** An ended run with nothing under way and no open dialogue stays ended, over any number
      of steps, exactly until it is retried or a driver still at work opens a dialogue. */
  lemma {:induction false} EndedUntilRetry(states: seq<State>, steps: seq<Step>)
    requires IsPath(states, steps) && Calm(states[0])
    ensures (forall k :: 0 <= k <= |steps| ==> Calm(states[k])) <==>
            (forall k :: 0 <= k < |steps| ==> !steps[k].Retry? && !OpensADialogue(states[k], steps[k]))
    ensures (forall k :: 0 <= k <= |steps| ==> Calm(states[k])) ==> forall k :: 0 <= k <= |steps| ==> Terminal(states[k].status)
  {
    hide Calm, OpensADialogue, Apply, Enabled;
    if forall k :: 0 <= k < |steps| ==> !steps[k].Retry? && !OpensADialogue(states[k], steps[k]) {
      for k := 0 to |steps|
        invariant forall j :: 0 <= j <= k ==> Calm(states[j])
      {
        assert Goes(states[k], steps[k], states[k + 1]);
        CalmStep(states[k], steps[k]);
      }
    } else {
      var k :| 0 <= k < |steps| && (steps[k].Retry? || OpensADialogue(states[k], steps[k]));
      assert Goes(states[k], steps[k], states[k + 1]);
      if Calm(states[k]) { CalmStep(states[k], steps[k]); }
      assert !Calm(states[k]) || !Calm(states[k + 1]);
    }
    forall k | 0 <= k <= |steps| && Calm(states[k]) ensures Terminal(states[k].status) { CalmIsTerminal(states[k]); }
  }

  lemma CalmIsTerminal(s: State)
    requires Calm(s)
    ensures Terminal(s.status)
  {
  }

  const D0 := State(Running, {}, {"r"}, map[], {0}, map[], map[], map[], {}, false)
  const D1 := D0.(gates := map["r" := [Gate(false, 0)]], driving := {}, pausing := map[0 := "r"])
  const D2 := D1.(status := WaitingHuman, pausing := map[])
  const D3 := D2.(status := Cancelled)
  const D4 := D3.(resumers := map[0 := Resumer("r", Entering)])
  const D5 := D3.(resumers := map[0 := Resumer("r", Checked(0))])
  const D6 := D3.(resumers := map[0 := Resumer("r", Saved(0))], gates := map["r" := [Gate(true, 0)]])
  const D7 := D3.(gates := map["r" := [Gate(true, 1)]], tasks := {0})
  const D8 := D7.(status := Running, tasks := {}, driving := {0})

  lemma CancelledWithADialogue()
    ensures Goes(D0, Open(0, "r"), D1)
    ensures Goes(D1, Pause(0), D2)
    ensures Goes(D2, Terminate(Cancelled), D3)
  {
    assert Visits(D0, "r") + [Gate(false, 0)] == [Gate(false, 0)];
    assert map[0 := "r"] - {0} == map[] && {0} - {0} == {};
    assert Finished(D2, Cancelled).gates == D2.gates;
  }

  lemma ConfirmedAfterwards()
    ensures Goes(D3, Request(0, "r"), D4)
    ensures Goes(D4, Check(0), D5)
  {
    assert !Locked(D4, "r");
  }

  lemma SavedAfterwards()
    ensures Goes(D5, SaveGate(0), D6)
  {
    assert [Gate(false, 0)][0 := Gate(true, 0)] == [Gate(true, 0)];
  }

  lemma RunsAgain()
    ensures Goes(D6, Schedule(0, 0), D7)
    ensures Goes(D7, Admit(0, 0), D8)
  {
    assert [Gate(true, 0)][0 := Gate(true, 1)] == [Gate(true, 1)];
    assert D6.resumers - {0} == map[];
    assert {0} - {0} == {};
  }

  const Revival := [D0, D1, D2, D3, D4, D5, D6, D7, D8]
  const RevivalSteps :=
    [Open(0, "r"), Pause(0), Terminate(Cancelled), Request(0, "r"), Check(0), SaveGate(0), Schedule(0, 0), Admit(0, 0)]

  lemma RevivalIsATrace()
    ensures IsTrace(Revival, RevivalSteps)
  {
    CancelledWithADialogue();
    ConfirmedAfterwards();
    SavedAfterwards();
    RunsAgain();
    hide Goes;
    forall k | 0 <= k < |RevivalSteps| ensures Goes(Revival[k], RevivalSteps[k], Revival[k + 1]) { }
  }

  /** It happens: a run cancelled while it waits in a dialogue runs again once someone
      confirms the dialogue. */
  lemma DialogueRevivesACancelledRun()
    ensures exists states: seq<State>, steps: seq<Step>, k: nat ::
              IsTrace(states, steps) && k < |steps| && states[k].status == Cancelled && Settled(states[k])
              && states[|steps|].status == Running && NoRetryFrom(steps, k)
  {
    RevivalIsATrace();
    hide IsTrace;
    assert Revival[3] == D3 && Settled(Revival[3]) && D3.status == Cancelled;
    assert Revival[|RevivalSteps|] == D8;
    assert NoRetryFrom(RevivalSteps, 3);
  }

  /** From position `k` on nobody asks for a retry. */
  ghost predicate NoRetryFrom(steps: seq<Step>, k: nat) {
    forall j :: k <= j < |steps| ==> !steps[j].Retry?
  }

  /** The window before that: a cancellation between an approver's status test and
      the admission it schedules does not stop the run from running again. */
  lemma CancelledCanBeRevived(s: State, t: Id, a: Id, d: Id)
    requires Locks(s) && Enabled(s, SaveGate(t)) && s.status == WaitingHuman && a !in s.tasks && d !in s.driving && d !in s.pausing
    ensures Enabled(s, Terminate(Cancelled))
    ensures var s1 := Apply(s, Terminate(Cancelled));
            && s1.status == Cancelled && Enabled(s1, SaveGate(t))
            && var s2 := Apply(s1, SaveGate(t));
               && Enabled(s2, Schedule(t, a))
               && var s3 := Apply(s2, Schedule(t, a));
                  Enabled(s3, Admit(a, d)) && Apply(s3, Admit(a, d)).status == Running
  {
    var s1 := Apply(s, Terminate(Cancelled));
    FinishedVisits(s, Cancelled, s.resumers[t].node);
    hide Finished, Superseded, Locked, Pending;
    ApprovedAnyway(s1, t, a, d);
  }

  lemma ApprovedAnyway(s: State, t: Id, a: Id, d: Id)
    requires Enabled(s, SaveGate(t)) && s.status == Cancelled && a !in s.tasks && d !in s.driving && d !in s.pausing
    ensures var s2 := Apply(s, SaveGate(t));
            Enabled(s2, Schedule(t, a)) && var s3 := Apply(s2, Schedule(t, a));
            Enabled(s3, Admit(a, d)) && Apply(s3, Admit(a, d)).status == Running
  {
    hide Finished, Superseded, Locked, Pending;
  }
}
