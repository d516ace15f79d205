/** Two ways to lose a run at a proposal gate, and two to continue one twice from one visit. */
module GateTraces {
  import opened GateContinue
  import opened GateResume
  import opened RunStore

  const P0 := State(Running, {"p"}, {}, map[], {0}, map[], map[], map[], {}, false)
  const P1 := P0.(gates := map["p" := [Gate(false, 0)]], driving := {}, pausing := map[0 := "p"])
  const P2 := P1.(status := WaitingHuman, pausing := map[])
  const P3 := P2.(resumers := map[0 := Resumer("p", Entering)])
  const P4 := P2.(resumers := map[0 := Resumer("p", Checked(0))])
  const P5 := P2.(resumers := map[0 := Resumer("p", Saved(0))], gates := map["p" := [Gate(true, 0)]])
  const P6 := P5.(resumers := map[])

  lemma PausesOnProposal()
    ensures Goes(P0, Open(0, "p"), P1)
    ensures Goes(P1, Pause(0), P2)
  {
    assert Visits(P0, "p") + [Gate(false, 0)] == [Gate(false, 0)];
    assert map[0 := "p"] - {0} == map[] && {0} - {0} == {};
  }

  lemma Asked()
    ensures Goes(P2, Request(0, "p"), P3)
    ensures Goes(P3, Check(0), P4)
  {
    assert !Locked(P3, "p");
  }

  lemma SelectionFailsLate()
    ensures Goes(P4, SaveGate(0), P5)
    ensures Goes(P5, SelectionFails(0), P6)
  {
    assert [Gate(false, 0)][0 := Gate(true, 0)] == [Gate(true, 0)];
    assert P5.resumers - {0} == map[];
  }

  /** With a proposal gate it happens: the approver's selection fails once the gate is
      resolved, the gate refuses every later attempt, and the run waits for ever. */
  lemma ProposalFailureStrands()
    ensures exists states: seq<State>, steps: seq<Step> ::
              IsTrace(states, steps) && states[|steps|].status == WaitingHuman && Lost(states[|steps|])
  {
    PausesOnProposal();
    Asked();
    SelectionFailsLate();
    var states := [P0, P1, P2, P3, P4, P5, P6];
    var steps := [Open(0, "p"), Pause(0), Request(0, "p"), Check(0), SaveGate(0), SelectionFails(0)];
    hide Goes;
    assert IsTrace(states, steps);
    assert states[|steps|] == P6;
    NothingLeft(P6);
  }

  lemma NothingLeft(s: State)
    requires Unfinished(s) && s.gates == map["p" := [Gate(true, 0)]]
    requires s.driving == {} && s.resumers == map[] && s.tasks == {} && !s.failed
    ensures Lost(s)
  {
    forall n ensures !Pending(s, n) { }
  }

  const Q2 := P1.(resumers := map[0 := Resumer("p", Entering)])
  const Q3 := P1.(resumers := map[0 := Resumer("p", Checked(0))])
  const Q4 := P1.(resumers := map[0 := Resumer("p", Saved(0))], gates := map["p" := [Gate(true, 0)]])
  const Q5 := Q4.(pausing := map[])
  const Q6 := Q5.(resumers := map[])

  lemma AskedEarly()
    ensures Goes(P1, Request(0, "p"), Q2)
    ensures Goes(Q2, Check(0), Q3)
  {
    assert !Locked(Q2, "p");
  }

  lemma ResolvedBeforeThePause()
    ensures Goes(Q3, SaveGate(0), Q4)
    ensures Goes(Q4, Pause(0), Q5)
    ensures Goes(Q5, SelectionFails(0), Q6)
  {
    assert [Gate(false, 0)][0 := Gate(true, 0)] == [Gate(true, 0)];
    assert Q5.resumers - {0} == map[] && map[0 := "p"] - {0} == map[];
  }

  /** Or the run is left running: the approver is quicker than the pausing driver, which
      finds its pause over and leaves, and then the selection fails. */
  lemma ProposalFailureLeavesItRunning()
    ensures exists states: seq<State>, steps: seq<Step> ::
              IsTrace(states, steps) && states[|steps|].status == Running && Lost(states[|steps|])
              && forall k :: 0 <= k < |steps| ==> !steps[k].Lose?
  {
    PausesOnProposal();
    AskedEarly();
    ResolvedBeforeThePause();
    var states := [P0, P1, Q2, Q3, Q4, Q5, Q6];
    var steps := [Open(0, "p"), Request(0, "p"), Check(0), SaveGate(0), Pause(0), SelectionFails(0)];
    hide Goes;
    assert IsTrace(states, steps);
    assert states[|steps|] == Q6;
    NothingLeft(Q6);
  }

  // --- Twice from one visit ---------------------------------------------------

  const G0 := State(Running, {}, {"r"}, map[], {0}, map[], map[], map[], {}, false)
  const G1 := G0.(gates := map["g" := [Gate(false, 0)]], driving := {}, pausing := map[0 := "g"])
  const G2 := G1.(status := WaitingHuman, pausing := map[])
  const G3 := G2.(writers := map[0 := Writer("g", 0)])
  const G4 := G3.(resumers := map[0 := Resumer("g", Entering)])
  const G5 := G3.(resumers := map[0 := Resumer("g", Checked(0))])
  const G6 := G3.(resumers := map[0 := Resumer("g", Saved(0))], gates := map["g" := [Gate(true, 0)]])
  const G7 := G3.(gates := map["g" := [Gate(true, 1)]], tasks := {0})
  const G8 := G3.(gates := map["g" := [Gate(false, 1)]], tasks := {0})
  const G9 := G8.(resumers := map[0 := Resumer("g", Entering)])
  const G10 := G8.(resumers := map[0 := Resumer("g", Checked(0))])
  const G11 := G8.(resumers := map[0 := Resumer("g", Saved(0))], gates := map["g" := [Gate(true, 1)]])
  const G12 := G8.(gates := map["g" := [Gate(true, 2)]], tasks := {0, 1})

  lemma EditReadsTheGate()
    ensures Goes(G0, Open(0, "g"), G1)
    ensures Goes(G1, Pause(0), G2)
    ensures Goes(G2, Read(0, "g", 0), G3)
  {
    assert Visits(G0, "g") + [Gate(false, 0)] == [Gate(false, 0)];
    assert map[0 := "g"] - {0} == map[] && {0} - {0} == {};
  }

  lemma FirstAsked()
    ensures Goes(G3, Request(0, "g"), G4)
    ensures Goes(G4, Check(0), G5)
  {
    assert !Locked(G4, "g");
  }

  lemma FirstApproval()
    ensures Goes(G5, SaveGate(0), G6)
    ensures Goes(G6, Schedule(0, 0), G7)
  {
    assert [Gate(false, 0)][0 := Gate(true, 0)] == [Gate(true, 0)];
    assert [Gate(true, 0)][0 := Gate(true, 1)] == [Gate(true, 1)];
    assert G6.resumers - {0} == map[];
  }

  lemma EditSavesTheGate()
    ensures Goes(G7, Write(0), G8) && Undoes(G7, Write(0))
  {
    assert [Gate(true, 1)][0 := Gate(false, 1)] == [Gate(false, 1)];
  }

  lemma SecondAsked()
    ensures Goes(G8, Request(0, "g"), G9)
    ensures Goes(G9, Check(0), G10)
  {
    assert !Locked(G9, "g");
  }

  lemma SecondApproval()
    ensures Goes(G10, SaveGate(0), G11)
    ensures Goes(G11, Schedule(0, 1), G12)
  {
    assert [Gate(false, 1)][0 := Gate(true, 1)] == [Gate(true, 1)];
    assert [Gate(true, 1)][0 := Gate(true, 2)] == [Gate(true, 2)];
    assert G11.resumers - {0} == map[] && {0} + {1} == {0, 1};
  }

  const TwiceStates := [G0, G1, G2, G3, G4, G5, G6, G7, G8, G9, G10, G11, G12]
  const TwiceSteps :=
    [Open(0, "g"), Pause(0), Read(0, "g", 0), Request(0, "g"), Check(0), SaveGate(0), Schedule(0, 0), Write(0),
     Request(0, "g"), Check(0), SaveGate(0), Schedule(0, 1)]

  lemma TwiceIsATrace()
    ensures IsTrace(TwiceStates, TwiceSteps)
  {
    EditReadsTheGate();
    FirstAsked();
    FirstApproval();
    EditSavesTheGate();
    SecondAsked();
    SecondApproval();
    hide Goes;
    forall k | 0 <= k < |TwiceSteps| ensures Goes(TwiceStates[k], TwiceSteps[k], TwiceStates[k + 1]) { }
  }

  /** It happens: an artifact edit that read the gate open saves it after the approval, and
      a second approval of the same visit continues the run again. */
  lemma EditContinuesTwice()
    ensures exists states: seq<State>, steps: seq<Step> ::
              IsTrace(states, steps) && Visits(states[|steps|], "g") == [Gate(true, 2)]
  {
    TwiceIsATrace();
    hide IsTrace;
    assert TwiceStates[|TwiceSteps|] == G12;
  }

  const C1 := G0.(gates := map["r" := [Gate(false, 0)]], driving := {}, pausing := map[0 := "r"])
  const C2 := C1.(writers := map[0 := Writer("r", 0)])
  const C3 := C2.(resumers := map[0 := Resumer("r", Entering)])
  const C4 := C2.(resumers := map[0 := Resumer("r", Checked(0))])
  const C5 := G0.(gates := map["r" := [Gate(true, 1)]], resumers := map[0 := Resumer("r", Checked(0))])
  const C6 := C5.(resumers := map[0 := Resumer("r", Saved(0))])
  const C7 := G0.(gates := map["r" := [Gate(true, 2)]], tasks := {0})

  lemma DriverAnswersADialogue()
    ensures Goes(G0, Open(0, "r"), C1)
    ensures Goes(C1, Read(0, "r", 0), C2)
  {
    assert Visits(G0, "r") + [Gate(false, 0)] == [Gate(false, 0)];
    assert {0} - {0} == {};
  }

  lemma AskedMeanwhile()
    ensures Goes(C2, Request(0, "r"), C3)
    ensures Goes(C3, Check(0), C4)
  {
    assert !Locked(C3, "r");
  }

  lemma DriverConcludes()
    ensures Goes(C4, Conclude(0, 0), C5)
  {
    assert [Gate(false, 0)][0 := Gate(true, 1)] == [Gate(true, 1)];
    assert C4.writers - {0} == map[] && C4.pausing - {0} == map[] && {} + {0} == {0};
  }

  lemma ApproverContinues()
    ensures Goes(C5, SaveGate(0), C6)
    ensures Goes(C6, Schedule(0, 0), C7)
  {
    assert [Gate(true, 1)][0 := Gate(true, 1)] == [Gate(true, 1)];
    assert [Gate(true, 1)][0 := Gate(true, 2)] == [Gate(true, 2)];
    assert C6.resumers - {0} == map[];
  }

  const BothStates := [G0, C1, C2, C3, C4, C5, C6, C7]
  const BothSteps :=
    [Open(0, "r"), Read(0, "r", 0), Request(0, "r"), Check(0), Conclude(0, 0), SaveGate(0), Schedule(0, 0)]

  lemma BothIsATrace()
    ensures IsTrace(BothStates, BothSteps)
  {
    DriverAnswersADialogue();
    AskedMeanwhile();
    DriverConcludes();
    ApproverContinues();
    hide Goes;
    forall k | 0 <= k < |BothSteps| ensures Goes(BothStates[k], BothSteps[k], BothStates[k + 1]) { }
  }

  /** And a driver that answers a dialogue itself concludes it while an approver does. */
  lemma BothContinue()
    ensures exists states: seq<State>, steps: seq<Step> ::
              IsTrace(states, steps) && Visits(states[|steps|], "r") == [Gate(true, 2)]
              && forall k :: 0 <= k < |steps| ==> !steps[k].Write?
  {
    BothIsATrace();
    hide IsTrace;
    assert BothStates[|BothSteps|] == C7;
  }

  // --- A failed sandbox ----------------------------------------------------------

  const S1 := G0.(driving := {}, failed := true)
  const S2 := S1.(tasks := {0})
  const S3 := S1.(status := Queued)
  const S4 := G0.(driving := {1}, failed := true)

  /** A driver that gives up on a sandbox leaves the run running, with nobody to drive it; a
      resume from the failed visit queues the run, and the dispatcher drives it again. */
  lemma SandboxFailureIsResumed()
    ensures Goes(G0, GiveUp(0), S1) && !Lost(S1)
    ensures Goes(S1, Retry(0), S2)
    ensures Goes(S2, Enqueue(0), S3)
    ensures Goes(S3, Dispatch(1), S4)
  {
    assert {0} - {0} == {} && {} + {1} == {1};
    assert Resumable(S1);
  }
}
