/** What changes what, while a run pauses for people. */
module GateLaws {
  import opened GateResume
  import opened RunStore

  // --- The status ------------------------------------------------------------

  predicate Enters(s: State, e: Step, st: Status) {
    match st
    case Running => e.Admit? || e.Dispatch?
    case Queued => e.Enqueue?
    case WaitingHuman => s.status == Running && e.Pause? && e.d in s.pausing && Pending(s, s.pausing[e.d])
    case _ => (e.Terminate? && e.st == st) || (e.EndRun? && e.st == st)
  }

  /** A run takes on another status exactly by these steps. */
  lemma EntersExactly(s: State, e: Step, st: Status)
    requires Enabled(s, e) && s.status != st
    ensures Apply(s, e).status == st <==> Enters(s, e, st)
  {
    hide SetGate, Overwritten, Opened, Finished, Superseded, Locked, Pending, MayRetry;
    if !SetsStatus(e) {
      hide Apply, Enabled;
      OthersKeepStatus(s, e);
    }
  }

  predicate SetsStatus(e: Step) {
    e.Pause? || e.Admit? || e.Dispatch? || e.Enqueue? || e.Terminate? || e.EndRun?
  }

  lemma OthersKeepStatus(s: State, e: Step)
    requires Enabled(s, e) && !SetsStatus(e)
    ensures Apply(s, e).status == s.status
  {
    hide SetGate, Overwritten, Opened, Finished, Superseded, Locked, Pending, MayRetry;
  }

  // --- Admissions and drivers --------------------------------------------------

  /** An admission is scheduled exactly by a resume that routes on, or by a retry, and goes
      when it is decided. */
  lemma TasksChange(s: State, e: Step, a: Id)
    requires Enabled(s, e)
    ensures a in Apply(s, e).tasks && a !in s.tasks <==> (e.Schedule? || e.Retry?) && e.a == a
    ensures a !in Apply(s, e).tasks && a in s.tasks <==> (e.Admit? || e.Enqueue?) && e.a == a
  {
    hide SetGate, Overwritten, Opened, Finished, Superseded, Locked, Pending;
  }

  /** A driver starts or goes on exactly by an admission, a claim, or a dialogue it concludes
      itself; it stops driving exactly by pausing, giving up, or being lost. */
  lemma DriversChange(s: State, e: Step, d: Id)
    requires Enabled(s, e)
    ensures d in Apply(s, e).driving && d !in s.driving <==> (e.Admit? || e.Dispatch? || e.Conclude?) && e.d == d
    ensures d !in Apply(s, e).driving && d in s.driving <==> (e.Open? || e.Lose? || e.GiveUp?) && e.d == d
  {
    hide SetGate, Overwritten, Opened, Finished, Superseded, Locked, Pending;
  }

  lemma PausesChange(s: State, e: Step, d: Id)
    requires Enabled(s, e)
    ensures d in Apply(s, e).pausing && d !in s.pausing <==> e.Open? && e.d == d
    ensures e.Open? && e.d == d ==> Apply(s, e).pausing[d] == e.n
    ensures d !in Apply(s, e).pausing && d in s.pausing <==> (e.Pause? || e.Conclude?) && e.d == d
    ensures d in s.pausing && d in Apply(s, e).pausing && !(e.Open? && e.d == d) ==> Apply(s, e).pausing[d] == s.pausing[d]
  {
    hide SetGate, Overwritten, Opened, Finished, Superseded, Locked, Pending;
    if !e.Open? && !e.Pause? && !e.Conclude? {
      hide Apply, Enabled;
      OthersKeepPauses(s, e);
    }
  }

  lemma OthersKeepPauses(s: State, e: Step)
    requires Enabled(s, e) && !e.Open? && !e.Pause? && !e.Conclude?
    ensures Apply(s, e).pausing == s.pausing
  {
    hide SetGate, Overwritten, Opened, Finished, Superseded, Locked, Pending, MayRetry;
  }

  /** A visit of the run is on record as failed exactly from one of these on. */
  lemma FailedSince(s: State, e: Step)
    requires Enabled(s, e)
    ensures Apply(s, e).failed <==> s.failed || e.GiveUp? || e.NodeFails? || e.TurnFails? || e.MarkFailed?
  {
    hide SetGate, Overwritten, Opened, Finished, Superseded, Locked, Pending;
  }

  // --- Approvers -----------------------------------------------------------------

  /** An approver comes in with a request, passes the tests of the latest visit of its node
      and of no other, resolves that visit, and goes when it is through or gives up. */
  lemma ApproversGoOn(s: State, e: Step, t: Id)
    requires Enabled(s, e)
    ensures t in Apply(s, e).resumers && t !in s.resumers <==> e.Request? && e.t == t
    ensures e.Request? && e.t == t ==> Apply(s, e).resumers[t] == Resumer(e.n, Entering)
    ensures t !in Apply(s, e).resumers && t in s.resumers <==>
              (e.Reject? || e.Schedule? || e.Reopen? || e.SelectionFails? || e.EndRun?) && e.t == t
    ensures t in s.resumers && t in Apply(s, e).resumers ==>
              var r, r2 := s.resumers[t], Apply(s, e).resumers[t];
              && r2.node == r.node
              && (e.Check? && e.t == t ==> r.phase == Entering && r2.phase == Checked(|Visits(s, r.node)| - 1))
              && (e.SaveGate? && e.t == t ==> r.phase.Checked? && r2.phase == Saved(r.phase.i))
              && (!((e.Check? || e.SaveGate?) && e.t == t) ==> r2 == r)
  {
    hide SetGate, Overwritten, Opened, Finished, Superseded, Locked, Pending, MayRetry;
    if !ByApprover(e) {
      hide Apply, Enabled;
      OthersKeepResumers(s, e);
    }
  }

  /** An approver passes its tests exactly when nobody else is past them for that node, the
      latest visit is open, and the run has not ended, which only dialogues do not ask; then
      it can save, and then schedule. */
  lemma PassesExactly(s: State, t: Id, a: Id)
    requires t in s.resumers && a !in s.tasks
    ensures s.resumers[t].phase == Entering ==>
              (Enabled(s, Check(t)) <==>
                 && (forall u :: u in s.resumers && s.resumers[u].node == s.resumers[t].node ==> s.resumers[u].phase == Entering)
                 && Visits(s, s.resumers[t].node) != []
                 && !Visits(s, s.resumers[t].node)[|Visits(s, s.resumers[t].node)| - 1].resolved
                 && (s.status in {Completed, Failed, Cancelled} ==> s.resumers[t].node in s.dialogues))
    ensures Locks(s) && s.resumers[t].phase.Checked? ==> Enabled(s, SaveGate(t))
    ensures Locks(s) && s.resumers[t].phase.Saved? ==> Enabled(s, Schedule(t, a))
  {
  }

  /** A retry is accepted exactly for a run that failed, was cancelled, or is running with a
      failed visit; an admission is granted exactly to a run that is not running; the
      dispatcher takes exactly a queued one. */
  lemma AcceptedExactly(s: State, a: Id, d: Id)
    requires d !in s.driving && d !in s.pausing
    ensures a !in s.tasks ==>
              (Enabled(s, Retry(a)) <==> s.status in {Failed, Cancelled} || (s.status == Running && s.failed))
    ensures a in s.tasks ==> (Enabled(s, Admit(a, d)) <==> s.status != Running) && Enabled(s, Enqueue(a))
    ensures Enabled(s, Dispatch(d)) <==> s.status == Queued
  {
  }

  /** A row is held from its reading on, and until its holder lets it go or concludes. */
  lemma WritersComeAndGo(s: State, e: Step, w: Id)
    requires Enabled(s, e)
    ensures w in Apply(s, e).writers && w !in s.writers <==> e.Read? && e.w == w
    ensures w !in Apply(s, e).writers && w in s.writers <==> (e.Forget? || e.Conclude? || e.LateConclude?) && e.w == w
  {
    hide SetGate, Overwritten, Opened, Finished, Superseded, Locked, Pending, MayRetry;
    if !e.Read? && !e.Forget? && !e.Conclude? && !e.LateConclude? {
      hide Apply, Enabled;
      OthersKeepWriters(s, e);
    }
  }

  lemma OthersKeepWriters(s: State, e: Step)
    requires Enabled(s, e) && !e.Read? && !e.Forget? && !e.Conclude? && !e.LateConclude?
    ensures Apply(s, e).writers == s.writers
  {
    hide SetGate, Overwritten, Opened, Finished, Superseded, Locked, Pending, MayRetry;
  }

  lemma WritersHoldTheirRow(s: State, e: Step, w: Id)
    requires Enabled(s, e) && w in Apply(s, e).writers
    ensures Apply(s, e).writers[w] == if e.Read? && e.w == w then Writer(e.n, e.i) else s.writers[w]
  {
    hide SetGate, Overwritten, Opened, Finished, Superseded, Locked, Pending, MayRetry;
    WritersComeAndGo(s, e, w);
  }

  // --- The visits of a node ----------------------------------------------------------

  /** The visit an approver's step writes, or the row a writer saves. */
  predicate Writes(s: State, e: Step, n: Node, i: nat) {
    || ((e.SaveGate? || e.Schedule? || e.Reopen?) && e.t in s.resumers && s.resumers[e.t].node == n
        && Inside(s.resumers[e.t].phase) && s.resumers[e.t].phase.i == i)
    || ((e.Write? || e.Conclude? || e.LateConclude?) && e.w in s.writers && s.writers[e.w] == Writer(n, i))
  }

  predicate Ends(e: Step) {
    (e.Terminate? || e.EndRun?) && (e.st == Failed || e.st == Cancelled)
  }

  /** A visit is resolved exactly by the approver that saves it, by the driver that concludes
      it, or, unless it is a dialogue, by the failure or cancellation of the run; it is opened
      again exactly by the approver that takes it back or by a row saved over it. */
  lemma ResolvedExactly(s: State, e: Step, n: Node, i: nat)
    requires Enabled(s, e) && i < |Visits(s, n)|
    ensures |Visits(Apply(s, e), n)| > i
    ensures Visits(Apply(s, e), n)[i].resolved <==>
            || (Writes(s, e, n, i) && (e.SaveGate? || e.Conclude? || e.LateConclude?))
            || (Ends(e) && n !in s.dialogues)
            || (Visits(s, n)[i].resolved && !(Writes(s, e, n, i) && (e.Reopen? || e.Write?)))
  {
    VisitsStep(s, e, n);
    if SavesAVisit(e) {
      SavedExactly(s, e, n, i);
    } else if e.EndRun? || e.Terminate? {
      FinishedExactly(s, e, n, i);
    } else if !e.Open? && !e.LateOpen? {
      OthersFollow(s, e, n);
      GatesUntouched(s, e);
    }
  }

  lemma GatesUntouched(s: State, e: Step)
    requires Enabled(s, e) && !e.Open? && !e.LateOpen? && !SavesAVisit(e) && !e.EndRun? && !e.Terminate?
    ensures Apply(s, e).gates == s.gates
  {
    hide SetGate, Overwritten, Opened, Finished, Superseded, Locked, Pending, MayRetry;
  }

  lemma SavedExactly(s: State, e: Step, n: Node, i: nat)
    requires Enabled(s, e) && i < |Visits(s, n)| && SavesAVisit(e)
    ensures |Visits(Apply(s, e), n)| == |Visits(s, n)|
    ensures Visits(Apply(s, e), n)[i].resolved ==
            if Writes(s, e, n, i) then
              (if e.SaveGate? || e.Conclude? || e.LateConclude? then true
               else if e.Reopen? || e.Write? then false else Visits(s, n)[i].resolved)
            else Visits(s, n)[i].resolved
    ensures Visits(Apply(s, e), n)[i].scheduled ==
            Visits(s, n)[i].scheduled + if Writes(s, e, n, i) && (e.Schedule? || e.Conclude?) then 1 else 0
  {
    hide Locked, Pending, MayRetry, Finished, Opened;
  }

  lemma FinishedExactly(s: State, e: Step, n: Node, i: nat)
    requires Enabled(s, e) && i < |Visits(s, n)| && (e.EndRun? || e.Terminate?)
    ensures |Visits(Apply(s, e), n)| == |Visits(s, n)|
    ensures Visits(Apply(s, e), n)[i].resolved <==> Visits(s, n)[i].resolved || (Ends(e) && n !in s.dialogues)
    ensures Visits(Apply(s, e), n)[i].scheduled == Visits(s, n)[i].scheduled
  {
    hide Locked, Pending, MayRetry;
  }

  /** The run goes on from a visit exactly by its approver's schedule or its driver's conclusion. */
  lemma ScheduledExactly(s: State, e: Step, n: Node, i: nat)
    requires Enabled(s, e) && i < |Visits(s, n)|
    ensures |Visits(Apply(s, e), n)| > i
    ensures Visits(Apply(s, e), n)[i].scheduled ==
            Visits(s, n)[i].scheduled + if Writes(s, e, n, i) && (e.Schedule? || e.Conclude?) then 1 else 0
  {
    VisitsStep(s, e, n);
    if SavesAVisit(e) { SavedExactly(s, e, n, i); }
  }

  /** A pause adds one visit, open, at the node; no other step adds any. */
  lemma OpenedExactly(s: State, e: Step, n: Node)
    requires Enabled(s, e)
    ensures |Visits(Apply(s, e), n)| == |Visits(s, n)| + if (e.Open? || e.LateOpen?) && e.n == n then 1 else 0
    ensures |Visits(Apply(s, e), n)| > |Visits(s, n)| ==> Visits(Apply(s, e), n)[|Visits(s, n)|] == Gate(false, 0)
  {
    VisitsStep(s, e, n);
  }
}
