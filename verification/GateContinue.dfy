/** Whether a paused or running run can still be moved on, and which steps take its
    last way to continue away. */
module GateContinue {
  import opened GateResume
  import opened RunStore

  // --- Ways to continue -----------------------------------------------------

  ghost predicate SomeGateOpen(s: State) {
    exists n :: Pending(s, n)
  }

  /** An approver inside its node's lock. */
  predicate AtInside(s: State, t: Id) {
    t in s.resumers && Inside(s.resumers[t].phase) && s.resumers[t].phase.i < |Visits(s, s.resumers[t].node)|
  }

  ghost predicate SomeApproverInside(s: State) {
    exists t :: AtInside(s, t)
  }

  /** ResumeFrom takes a running run in which a visit failed. */
  predicate Resumable(s: State) {
    s.status == Running && s.failed
  }

  /** Something can still move the run on: a node whose latest visit is open, an approver
      past the tests, a scheduled admission, a driver, or a resume from a failed visit. */
  ghost predicate Continuable(s: State) {
    SomeGateOpen(s) || SomeApproverInside(s) || s.tasks != {} || s.driving != {} || Resumable(s)
  }

  predicate Unfinished(s: State) {
    s.status == Running || s.status == WaitingHuman
  }

  ghost predicate Lost(s: State) {
    Unfinished(s) && !Continuable(s)
  }

  /** The visit an approver resolved is still the latest of its node. */
  predicate OnLatest(s: State, t: Id) {
    AtInside(s, t) && s.resumers[t].phase.i == |Visits(s, s.resumers[t].node)| - 1
  }

  /** No approver past the tests, but perhaps `t`. */
  ghost predicate NobodyInsideBut(s: State, t: Id) {
    forall u :: AtInside(s, u) ==> u == t
  }

  /** `w` read the latest visit of its node, and that is the only open one. */
  ghost predicate HoldsTheLastOpen(s: State, w: Id) {
    && AtRow(s, w) && s.writers[w].i == |Visits(s, s.writers[w].node)| - 1
    && forall n :: Pending(s, n) ==> n == s.writers[w].node
  }

  /** The steps that lose a run, each with nobody and nothing else to continue it: an approver
      gives up, or its selection fails once the gate is resolved, or it reopens a visit no
      longer the latest; the only driver leaves, silently, or with a failed visit while
      the run waits; a driver that no longer owns the run closes the last open dialogue. */
  ghost predicate Strands(s: State, e: Step) {
    && Enabled(s, e) && Unfinished(s) && s.tasks == {} && !Resumable(s)
    && match e
       case Reject(t) => !SomeGateOpen(s) && s.driving == {} && NobodyInsideBut(s, t)
       case SelectionFails(t) => !SomeGateOpen(s) && s.driving == {} && NobodyInsideBut(s, t)
       case Reopen(t) => !OnLatest(s, t) && !SomeGateOpen(s) && s.driving == {} && NobodyInsideBut(s, t)
       case Lose(d) => !SomeGateOpen(s) && s.driving == {d} && !SomeApproverInside(s)
       case GiveUp(d) => s.status == WaitingHuman && !SomeGateOpen(s) && s.driving == {d} && !SomeApproverInside(s)
       case LateConclude(w) => HoldsTheLastOpen(s, w) && s.driving == {} && !SomeApproverInside(s)
       case _ => false
  }

  // --- The exact steps --------------------------------------------------------

  /** A run that is not lost is lost by a step exactly when the step strands it. */
  lemma LostStep(s: State, e: Step)
    requires !Lost(s) && Enabled(s, e)
    ensures Lost(Apply(s, e)) <==> Strands(s, e)
  {
    hide Apply, Continuable, Strands;
    match e {
      case Reject(t) => DropLoses(s, e, t);
      case SelectionFails(t) => DropLoses(s, e, t);
      case Reopen(t) => ReopenLoses(s, t);
      case Lose(d) => LeaveLoses(s, e, d);
      case GiveUp(d) => LeaveLoses(s, e, d);
      case LateConclude(w) => LateConcludeLoses(s, w);
      case _ => OtherStepsKeep(s, e);
    }
  }

  predicate CanLose(e: Step) {
    e.Reject? || e.SelectionFails? || e.Reopen? || e.Lose? || e.GiveUp? || e.LateConclude?
  }

  lemma OtherStepsKeep(s: State, e: Step)
    requires !Lost(s) && Enabled(s, e) && !CanLose(e)
    ensures !Lost(Apply(s, e)) && !Strands(s, e)
  {
    hide Apply, Continuable, Enabled;
    if MakesAWay(e) {
      WayMade(s, e);
    } else {
      match e {
        case Pause(d) => PauseKeeps(s, d);
        case Request(t, n) => RequestKeeps(s, t, n);
        case Write(w) => WriteKeeps(s, w);
        case _ => QuietKeeps(s, e);
      }
    }
  }

  /** The steps after which somebody or something is there to continue the run. */
  predicate MakesAWay(e: Step) {
    e.SaveGate? || e.Check? || e.Schedule? || e.Open? || e.LateOpen? || e.Admit? || e.Dispatch? || e.Conclude?
    || e.NodeFails? || e.TurnFails? || e.Retry?
  }

  lemma WayMade(s: State, e: Step)
    requires Enabled(s, e) && MakesAWay(e)
    ensures Continuable(Apply(s, e))
  {
    var y := Apply(s, e);
    if e.Open? || e.LateOpen? {
      assert Pending(y, e.n);
    } else if e.SaveGate? || e.Check? || e.TurnFails? {
      assert AtInside(y, e.t);
    } else if e.Schedule? || e.Retry? {
      assert e.a in y.tasks;
    } else {
      assert e.d in y.driving;
    }
  }

  lemma QuietKeeps(s: State, e: Step)
    requires !Lost(s) && Enabled(s, e)
    requires e.Read? || e.Forget? || e.MarkFailed? || e.Enqueue? || e.EndRun? || e.Terminate?
    ensures !Lost(Apply(s, e))
  {
    if e.Read? || e.Forget? { SameWays(s, Apply(s, e)); }
  }

  /** An approver that leaves without a trace takes away only itself. */
  lemma DropLoses(s: State, e: Step, t: Id)
    requires !Lost(s) && Enabled(s, e) && (e == Reject(t) || e == SelectionFails(t))
    ensures Lost(Apply(s, e)) <==> Strands(s, e)
  {
    var y := Apply(s, e);
    assert y == Drop(s, t);
    DropWays(s, t);
    if SomeApproverInside(s) && NobodyInsideBut(s, t) { assert AtInside(s, t); }
  }

  lemma DropWays(s: State, t: Id)
    ensures SomeGateOpen(Drop(s, t)) <==> SomeGateOpen(s)
    ensures SomeApproverInside(Drop(s, t)) <==> !NobodyInsideBut(s, t)
  {
    var y := Drop(s, t);
    if n :| Pending(s, n) { assert Pending(y, n); }
    if n :| Pending(y, n) { assert Pending(s, n); }
    if u :| AtInside(y, u) { assert AtInside(s, u); }
    if u :| AtInside(s, u) && u != t { assert AtInside(y, u); }
  }

  lemma LeaveLoses(s: State, e: Step, d: Id)
    requires !Lost(s) && Enabled(s, e) && (e == Lose(d) || e == GiveUp(d))
    ensures Lost(Apply(s, e)) <==> Strands(s, e)
  {
    var y := Apply(s, e);
    forall n ensures Pending(y, n) <==> Pending(s, n) { }
    forall u ensures AtInside(y, u) <==> AtInside(s, u) { }
    SameGates(s, y);
    assert y.driving == {} <==> s.driving == {d};
  }

  lemma SameGates(s: State, y: State)
    requires forall n :: Pending(y, n) <==> Pending(s, n)
    ensures SomeGateOpen(y) <==> SomeGateOpen(s)
  {
    if n :| Pending(s, n) { assert Pending(y, n); }
    if n :| Pending(y, n) { assert Pending(s, n); }
  }

  lemma LateConcludeLoses(s: State, w: Id)
    requires !Lost(s) && Enabled(s, LateConclude(w))
    ensures Lost(Apply(s, LateConclude(w))) <==> Strands(s, LateConclude(w))
  {
    var y, x := Apply(s, LateConclude(w)), s.writers[w];
    forall u ensures AtInside(y, u) <==> AtInside(s, u) { }
    forall n ensures Pending(y, n) <==> Pending(s, n) && !(n == x.node && x.i == |Visits(s, n)| - 1) { }
    if SomeGateOpen(s) && !SomeGateOpen(y) {
      var n :| Pending(s, n);
      assert !Pending(y, n);
      forall m | Pending(s, m) ensures m == x.node { assert !Pending(y, m); }
    }
    if n :| Pending(y, n) { assert Pending(s, n); }
  }

  lemma WriteKeeps(s: State, w: Id)
    requires Enabled(s, Write(w))
    ensures Continuable(s) ==> Continuable(Apply(s, Write(w)))
    ensures Apply(s, Write(w)).status == s.status
  {
    var y := Apply(s, Write(w));
    if u :| AtInside(s, u) { assert AtInside(y, u); }
    if n :| Pending(s, n) { assert Pending(y, n); }
  }

  /** Reopening the latest visit opens its node; reopening an older one opens nothing. */
  lemma ReopenLoses(s: State, t: Id)
    requires !Lost(s) && Enabled(s, Reopen(t))
    ensures Lost(Apply(s, Reopen(t))) <==> Strands(s, Reopen(t))
  {
    var y, r := Apply(s, Reopen(t)), s.resumers[t];
    if OnLatest(s, t) {
      assert Pending(y, r.node);
    } else {
      SameWays(Drop(s, t), y);
      DropWays(s, t);
      assert AtInside(s, t);
    }
  }

  /** Two states with the same latest visits, approvers, admissions and drivers. */
  lemma SameWays(s: State, y: State)
    requires y.resumers == s.resumers && y.tasks == s.tasks && y.driving == s.driving && Resumable(y) == Resumable(s)
    requires forall n :: |Visits(y, n)| == |Visits(s, n)| && (Pending(y, n) <==> Pending(s, n))
    ensures Continuable(y) <==> Continuable(s)
  {
    forall t ensures AtInside(y, t) <==> AtInside(s, t) { }
    if SomeGateOpen(s) { var n :| Pending(s, n); assert Pending(y, n); }
    if SomeGateOpen(y) { var n :| Pending(y, n); assert Pending(s, n); }
  }

  lemma PauseKeeps(s: State, d: Id)
    requires Enabled(s, Pause(d))
    ensures Continuable(Apply(s, Pause(d))) <==> Continuable(s)
    ensures Unfinished(Apply(s, Pause(d))) <==> Unfinished(s)
  {
    var y := Apply(s, Pause(d));
    if Pending(s, s.pausing[d]) && s.status == Running {
      assert Pending(y, s.pausing[d]);
    } else {
      SameWays(s, y);
    }
  }

  lemma RequestKeeps(s: State, t: Id, n: Node)
    requires Enabled(s, Request(t, n))
    ensures Continuable(s) ==> Continuable(Apply(s, Request(t, n)))
    ensures Apply(s, Request(t, n)).status == s.status
  {
    var y := Apply(s, Request(t, n));
    if u :| AtInside(s, u) { assert AtInside(y, u); }
    if m :| Pending(s, m) { assert Pending(y, m); }
  }

  lemma {:induction false} BeginsContinuable(states: seq<State>, steps: seq<Step>)
    requires IsTrace(states, steps)
    ensures !Lost(states[0])
  {
  }

  /** A run is never lost in a trace exactly when no step of it strands the run. */
  lemma {:induction false} NeverLost(states: seq<State>, steps: seq<Step>)
    requires IsTrace(states, steps)
    ensures (forall k :: 0 <= k <= |steps| ==> !Lost(states[k])) <==>
            (forall k :: 0 <= k < |steps| ==> !Strands(states[k], steps[k]))
  {
    hide Lost, Strands;
    if forall k :: 0 <= k < |steps| ==> !Strands(states[k], steps[k]) {
      forall k | 0 <= k <= |steps| ensures !Lost(states[k]) { NotLostYet(states, steps, k); }
    } else {
      var k :| 0 <= k < |steps| && Strands(states[k], steps[k]);
      assert Goes(states[k], steps[k], states[k + 1]);
      if !Lost(states[k]) { LostStep(states[k], steps[k]); }
    }
  }

  lemma {:induction false} NotLostYet(states: seq<State>, steps: seq<Step>, k: nat)
    requires IsTrace(states, steps) && k <= |steps|
    requires forall j :: 0 <= j < |steps| ==> !Strands(states[j], steps[j])
    ensures !Lost(states[k])
  {
    hide Lost, Strands;
    if k == 0 {
      BeginsContinuable(states, steps);
    } else {
      NotLostYet(states, steps, k - 1);
      assert Goes(states[k - 1], steps[k - 1], states[k]);
      LostStep(states[k - 1], steps[k - 1]);
    }
  }

  // --- Without proposal gates ---------------------------------------------------

  /** An approver past the resolving write, on the visit that is still the latest. */
  predicate SavedLatest(s: State, t: Id) {
    AtSaved(s, t) && OnLatest(s, t)
  }

  /** A way to continue that no approver can take away by giving up. */
  ghost predicate Firm(s: State) {
    SomeGateOpen(s) || (exists t :: SavedLatest(s, t)) || s.tasks != {}
  }

  ghost predicate SteadyWaiting(s: State) {
    s.status == WaitingHuman ==> Firm(s)
  }

  ghost predicate SteadyRunning(s: State) {
    s.status == Running ==> Firm(s) || s.driving != {} || s.failed
  }

  lemma SteadyIsNotLost(s: State)
    ensures SteadyWaiting(s) && s.status == WaitingHuman ==> !Lost(s)
    ensures SteadyRunning(s) && s.status == Running ==> !Lost(s)
  {
    if t :| SavedLatest(s, t) { assert AtInside(s, t); }
  }

  /** No driver concludes a dialogue by itself. */
  predicate ByApproval(e: Step) {
    !e.Conclude? && !e.LateConclude?
  }

  /** A firm way out is kept, or turned into a driver or an end. */
  lemma FirmStep(s: State, e: Step)
    requires Enabled(s, e) && s.proposals == {} && ByApproval(e)
    ensures Firm(s) ==> Firm(Apply(s, e)) || e.Admit? || e.Enqueue? || Terminal(Apply(s, e).status)
    ensures e.Open? || e.LateOpen? || e.Schedule? ==> Firm(Apply(s, e))
  {
    hide Firm, Apply;
    match e {
      case Open(d, n) => OpeningIsFirm(s, e);
      case LateOpen(n) => OpeningIsFirm(s, e);
      case Schedule(t, a) => OpeningIsFirm(s, e);
      case SaveGate(t) => SaveKeepsFirm(s, t);
      case Reopen(t) => ReopenKeepsFirm(s, t);
      case Admit(a, d) =>
      case Enqueue(a) =>
      case EndRun(t, st) => EndsTheRun(s, e);
      case Terminate(st) => EndsTheRun(s, e);
      case SelectionFails(t) =>
      case _ => FirmKept(s, e);
    }
  }

  lemma OpeningIsFirm(s: State, e: Step)
    requires Enabled(s, e) && (e.Open? || e.LateOpen? || e.Schedule?)
    ensures Firm(Apply(s, e))
  {
    if e.Schedule? {
      assert e.a in Apply(s, e).tasks;
    } else {
      assert Pending(Apply(s, e), e.n);
    }
  }

  lemma EndsTheRun(s: State, e: Step)
    requires Enabled(s, e) && (e.EndRun? || e.Terminate?)
    ensures Terminal(Apply(s, e).status)
  {
  }

  /** How the status changes. */
  lemma StatusStep(s: State, e: Step)
    requires Enabled(s, e)
    ensures Apply(s, e).status == WaitingHuman ==> s.status == WaitingHuman || (e.Pause? && Pending(s, s.pausing[e.d]))
    ensures Apply(s, e).status == Running ==> s.status == Running || e.Admit? || e.Dispatch?
    ensures e.Admit? || e.Dispatch? ==> Apply(s, e).status == Running
    ensures e.Enqueue? ==> Apply(s, e).status == Queued
  {
    hide SetGate, Overwritten, Opened, Finished, Superseded, Locked, Visits, MayRetry;
  }

  /** A failed visit stays failed. */
  lemma FailedStays(s: State, e: Step)
    requires Enabled(s, e)
    ensures s.failed || e.GiveUp? ==> Apply(s, e).failed
  {
    hide SetGate, Overwritten, Opened, Finished, Superseded, Locked, Pending, MayRetry;
  }

  predicate Leaves(e: Step) {
    e.Open? || e.Lose? || e.GiveUp?
  }

  lemma DriversStay(s: State, e: Step)
    requires Enabled(s, e) && !Leaves(e)
    ensures s.driving <= Apply(s, e).driving
  {
    hide SetGate, Overwritten, Opened, Finished, Superseded, Locked, Pending, MayRetry;
  }

  /** Who drives afterwards. */
  lemma DrivingStep(s: State, e: Step)
    requires Enabled(s, e)
    ensures (s.driving != {} && !Leaves(e)) || e.Admit? || e.Dispatch? ==> Apply(s, e).driving != {}
  {
    if e.Admit? || e.Dispatch? {
      assert e.d in Apply(s, e).driving;
    } else if !Leaves(e) {
      hide Apply, Enabled;
      DriversStay(s, e);
    }
  }

  /** Without proposals a step keeps the firm way of a waiting run, and only a driver that
      leaves without a word can leave a running one without. */
  lemma SteadyStep(s: State, e: Step)
    requires Enabled(s, e) && s.proposals == {} && ByApproval(e)
    ensures SteadyWaiting(s) ==> SteadyWaiting(Apply(s, e))
    ensures SteadyRunning(s) && !e.Lose? ==> SteadyRunning(Apply(s, e))
  {
    hide Apply, Firm;
    FirmStep(s, e);
    StatusStep(s, e);
    DrivingStep(s, e);
    FailedStays(s, e);
    if e.Pause? && Pending(s, s.pausing[e.d]) { PausedIsFirm(s, e.d); }
  }

  lemma PausedIsFirm(s: State, d: Id)
    requires Enabled(s, Pause(d)) && Pending(s, s.pausing[d])
    ensures Firm(Apply(s, Pause(d)))
  {
    assert Pending(Apply(s, Pause(d)), s.pausing[d]);
  }

  lemma FirmKept(s: State, e: Step)
    requires Enabled(s, e) && ByApproval(e) && !e.Open? && !e.LateOpen?
    requires !e.SaveGate? && !e.Reopen? && !e.Schedule? && !e.SelectionFails? && !e.EndRun? && !e.Terminate? && !e.Admit? && !e.Enqueue?
    ensures Firm(s) ==> Firm(Apply(s, e))
  {
    var y := Apply(s, e);
    if t :| SavedLatest(s, t) { assert SavedLatest(y, t); }
    if n :| Pending(s, n) { assert Pending(y, n); }
  }

  lemma SaveKeepsFirm(s: State, t: Id)
    requires Enabled(s, SaveGate(t))
    ensures Firm(s) ==> Firm(Apply(s, SaveGate(t)))
  {
    var y, r := Apply(s, SaveGate(t)), s.resumers[t];
    if OnLatest(s, t) {
      assert SavedLatest(y, t);
    } else if n :| Pending(s, n) {
      assert Pending(y, n);
    } else if u :| SavedLatest(s, u) {
      assert SavedLatest(y, u);
    }
  }

  lemma ReopenKeepsFirm(s: State, t: Id)
    requires Enabled(s, Reopen(t))
    ensures Firm(s) ==> Firm(Apply(s, Reopen(t)))
  {
    var y, r := Apply(s, Reopen(t)), s.resumers[t];
    if OnLatest(s, t) {
      assert Pending(y, r.node);
    } else if n :| Pending(s, n) {
      assert Pending(y, n);
    } else if u :| SavedLatest(s, u) {
      assert SavedLatest(y, u);
    }
  }

  lemma KindsStay(s: State, e: Step)
    requires Enabled(s, e)
    ensures Apply(s, e).proposals == s.proposals && Apply(s, e).dialogues == s.dialogues
  {
    hide SetGate, Overwritten, Opened, Finished, Superseded, Locked, Pending, MayRetry;
  }

  lemma {:induction false} KindsFixed(states: seq<State>, steps: seq<Step>, k: nat)
    requires IsTrace(states, steps) && k <= |steps|
    ensures states[k].proposals == states[0].proposals && states[k].dialogues == states[0].dialogues
  {
    hide Apply, Enabled;
    if k > 0 {
      KindsFixed(states, steps, k - 1);
      assert Goes(states[k - 1], steps[k - 1], states[k]);
      KindsStay(states[k - 1], steps[k - 1]);
    }
  }

  /** A workflow without proposal gates whose dialogues are concluded by approvers never loses
      a run that waits for a human, and never a running one unless a driver leaves without
      a word. */
  lemma HumanGatesNeverLost(states: seq<State>, steps: seq<Step>, k: nat)
    requires IsTrace(states, steps) && k <= |steps| && states[0].proposals == {}
    requires forall j :: 0 <= j < |steps| ==> ByApproval(steps[j])
    ensures states[k].status == WaitingHuman ==> !Lost(states[k])
    ensures (forall j :: 0 <= j < |steps| ==> !steps[j].Lose?) ==> !Lost(states[k])
  {
    SteadyAlways(states, steps, k);
    SteadyIsNotLost(states[k]);
  }

  lemma {:induction false} SteadyAlways(states: seq<State>, steps: seq<Step>, k: nat)
    requires IsTrace(states, steps) && k <= |steps| && states[0].proposals == {}
    requires forall j :: 0 <= j < |steps| ==> ByApproval(steps[j])
    ensures SteadyWaiting(states[k])
    ensures (forall j :: 0 <= j < |steps| ==> !steps[j].Lose?) ==> SteadyRunning(states[k])
  {
    hide Firm, Apply, Enabled;
    if k > 0 {
      SteadyAlways(states, steps, k - 1);
      KindsFixed(states, steps, k - 1);
      assert Goes(states[k - 1], steps[k - 1], states[k]);
      SteadyStep(states[k - 1], steps[k - 1]);
    }
  }

  // --- Ways out are real, and there are no others ---------------------------------

  /** After these steps, each of them possible in turn, some driver advances the run. */
  ghost predicate DrivenAfter(s: State, steps: seq<Step>)
    decreases |steps|
  {
    if steps == [] then s.driving != {}
    else Enabled(s, steps[0]) && DrivenAfter(Apply(s, steps[0]), steps[1..])
  }

  lemma Then(s: State, e: Step, steps: seq<Step>)
    requires Enabled(s, e) && DrivenAfter(Apply(s, e), steps)
    ensures DrivenAfter(s, [e] + steps)
  {
    assert ([e] + steps)[1..] == steps;
  }

  lemma {:induction false} FreshId(ids: set<Id>) returns (d: Id)
    ensures d !in ids
  {
    d := 0;
    var left := ids;
    while d in ids
      invariant forall x :: x in ids && x >= d ==> x in left
      invariant left <= ids
      decreases |left|
    {
      left := left - {d};
      d := d + 1;
    }
  }

  /** An admission is decided by admitting the run, or by queueing it for the dispatcher. */
  lemma AdmissionDrives(s: State, a: Id)
    requires a in s.tasks
    ensures exists steps :: DrivenAfter(s, steps)
  {
    var d := FreshId(s.driving + s.pausing.Keys);
    if s.status != Running {
      Then(s, Admit(a, d), []);
    } else {
      var s1 := Apply(s, Enqueue(a));
      Then(s1, Dispatch(d), []);
      Then(s, Enqueue(a), [Dispatch(d)] + []);
    }
  }

  /** A running run with a failed visit is resumed from it, and queued for the dispatcher. */
  lemma ResumeDrives(s: State)
    requires Resumable(s)
    ensures exists steps :: DrivenAfter(s, steps)
  {
    var a := FreshId(s.tasks);
    var s1 := Apply(s, Retry(a));
    AdmissionDrives(s1, a);
    var steps :| DrivenAfter(s1, steps);
    Then(s, Retry(a), steps);
  }

  lemma SavedDrives(s: State, t: Id)
    requires AtSaved(s, t)
    ensures exists steps :: DrivenAfter(s, steps)
  {
    var a := FreshId(s.tasks);
    var s1 := Apply(s, Schedule(t, a));
    AdmissionDrives(s1, a);
    var steps :| DrivenAfter(s1, steps);
    Then(s, Schedule(t, a), steps);
  }

  lemma InsideDrives(s: State, t: Id)
    requires AtInside(s, t)
    ensures exists steps :: DrivenAfter(s, steps)
  {
    if s.resumers[t].phase.Saved? {
      SavedDrives(s, t);
    } else {
      var s1 := Apply(s, SaveGate(t));
      SavedDrives(s1, t);
      var steps :| DrivenAfter(s1, steps);
      Then(s, SaveGate(t), steps);
    }
  }

  lemma OpenGateDrives(s: State, n: Node)
    requires Pending(s, n) && Unfinished(s) && !Locked(s, n)
    ensures exists steps :: DrivenAfter(s, steps)
  {
    var t := FreshId(s.resumers.Keys);
    var s1 := Apply(s, Request(t, n));
    assert !Locked(s1, n);
    var s2 := Apply(s1, Check(t));
    InsideDrives(s2, t);
    var steps :| DrivenAfter(s2, steps);
    Then(s1, Check(t), steps);
    Then(s, Request(t, n), [Check(t)] + steps);
  }

  /** From every state of an unfinished run that is continuable some steps lead to a driver
      that advances it. */
  lemma ContinuableCanContinue(s: State)
    requires Locks(s) && Unfinished(s) && Continuable(s)
    ensures exists steps :: DrivenAfter(s, steps)
  {
    if n :| Pending(s, n) {
      if Locked(s, n) {
        var t :| t in s.resumers && s.resumers[t].node == n && Inside(s.resumers[t].phase);
        InsideDrives(s, t);
      } else {
        OpenGateDrives(s, n);
      }
    } else if t :| AtInside(s, t) {
      InsideDrives(s, t);
    } else if a :| a in s.tasks {
      AdmissionDrives(s, a);
    } else if Resumable(s) {
      ResumeDrives(s);
    } else {
      assert DrivenAfter(s, []);
    }
  }

  /** Steps that need no way to continue. */
  predicate AlwaysPossible(e: Step) {
    e.LateOpen? || e.Pause? || e.Request? || e.Reject? || e.Terminate?
    || e.Read? || e.Write? || e.Forget? || e.Conclude? || e.LateConclude?
  }

  lemma OthersNeedAWay(s: State, e: Step)
    requires Unfinished(s) && Enabled(s, e) && !AlwaysPossible(e)
    ensures Continuable(s)
  {
    if e.Check? {
      assert Pending(s, s.resumers[e.t].node);
    } else if e.SaveGate? || e.Schedule? || e.Reopen? || e.SelectionFails? || e.EndRun? || e.TurnFails? {
      assert AtInside(s, e.t);
    }
  }

  /** The latest visit of a node is saved from a row read while it was open. */
  predicate OpensTheLatest(s: State, e: Step) {
    e.Write? && AtRow(s, e.w) && s.writers[e.w].i == |Visits(s, s.writers[e.w].node)| - 1
  }

  /** A lost run stays lost until it is terminated, or a driver that no longer owns it opens
      a pause, or one still answering a dialogue concludes it, or somebody saves a latest
      visit that was open when read. */
  lemma LostForGood(s: State, e: Step)
    requires Lost(s) && Enabled(s, e)
    ensures Lost(Apply(s, e)) <==> !(e.Terminate? || e.LateOpen? || e.Conclude? || OpensTheLatest(s, e))
  {
    var y := Apply(s, e);
    if !AlwaysPossible(e) { OthersNeedAWay(s, e); }
    if e.LateOpen? {
      assert Pending(y, e.n);
    } else if OpensTheLatest(s, e) {
      assert Pending(y, s.writers[e.w].node);
    } else if e.Conclude? {
      assert e.d in y.driving;
    } else if e.Pause? {
      PauseKeeps(s, e.d);
    } else if !e.Terminate? {
      LostBoth(s, y);
    }
  }

  lemma LostBoth(s: State, y: State)
    requires Lost(s) && y.status == s.status && y.tasks == s.tasks && y.driving == s.driving && y.failed == s.failed
    requires forall n :: Pending(y, n) ==> Pending(s, n)
    requires forall t :: AtInside(y, t) ==> AtInside(s, t)
    ensures Lost(y)
  {
  }
}
