/** How a run changes its status, what becomes of its visits, and where its drivers go. */
module RunStatus {
  import opened ExecSlot
  import opened RunLocal
  import opened RunStore

  // --- The status ---------------------------------------------------------------

  /** The owner's node returns to a run that was neither cancelled nor failed meanwhile. */
  predicate OwnerReturns(x: Run, e: Step) {
    e.Return? && e.d in x.drivers && Owns(x.slot, x.drivers[e.d]) && x.row.status != Cancelled && x.row.status != Failed
  }

  /** A run becomes completed exactly when a driver that is through with its nodes finds it
      not ended, or somebody terminates it so. */
  lemma BecomesCompleted(x: Run, e: Step)
    requires RunLocal.Enabled(x, e) && x.row.status != Completed
    ensures Apply(x, e).row.status == Completed <==>
            (e.Drain? && !Terminal(x.row.status)) || e == Terminate(Completed)
  {
    hide Save, FindVisit, MaxIteration;
  }

  /** It becomes failed exactly when the owner's node fails for good, a driver comes to a node
      that is not declared, or panics, or somebody terminates it so. */
  lemma BecomesFailed(x: Run, e: Step)
    requires RunLocal.Enabled(x, e) && x.row.status != Failed
    ensures Apply(x, e).row.status == Failed <==>
            e.NotFound? || e.Crash? || e == Terminate(Failed) || (OwnerReturns(x, e) && e.o == FinalFailure)
  {
    hide Save, FindVisit, MaxIteration;
  }

  lemma BecomesCancelled(x: Run, e: Step)
    requires RunLocal.Enabled(x, e) && x.row.status != Cancelled
    ensures Apply(x, e).row.status == Cancelled <==> e == Terminate(Cancelled)
  {
    hide Save, FindVisit, MaxIteration;
  }

  /** It waits for a human exactly when the owner of a running run pauses and the pause is
      still pending. */
  lemma BecomesWaiting(x: Run, e: Step)
    requires RunLocal.Enabled(x, e) && x.row.status != WaitingHuman
    ensures Apply(x, e).row.status == WaitingHuman <==>
            x.row.status == Running && OwnerReturns(x, e) && e.o == Paused(true)
  {
    hide Save, FindVisit, MaxIteration;
  }

  /** It is queued exactly when a resume finds no slot, or finds it running, or a driver of
      a running run waited in vain for the claim. */
  lemma BecomesQueued(x: Run, e: Step)
    requires RunLocal.Enabled(x, e) && x.row.status != Queued
    ensures Apply(x, e).row.status == Queued <==> e.TaskQueue? || (e.Timeout? && x.row.status == Running)
  {
    hide Save, FindVisit, MaxIteration;
  }

  /** And it runs exactly when the dispatcher claims it or a resume admits it. */
  lemma BecomesRunning(x: Run, e: Step)
    requires RunLocal.Enabled(x, e) && x.row.status != Running
    ensures Apply(x, e).row.status == Running <==> e.Claim? || e.TaskAdmit?
  {
    hide Save, FindVisit, MaxIteration;
  }

  /** What makes a run that has another status take on this one. */
  predicate Enters(x: Run, e: Step, st: Status) {
    match st
    case Completed => (e.Drain? && !Terminal(x.row.status)) || e == Terminate(Completed)
    case Failed => e.NotFound? || e.Crash? || e == Terminate(Failed) || (OwnerReturns(x, e) && e.o == FinalFailure)
    case Cancelled => e == Terminate(Cancelled)
    case WaitingHuman => x.row.status == Running && OwnerReturns(x, e) && e.o == Paused(true)
    case Queued => e.TaskQueue? || (e.Timeout? && x.row.status == Running)
    case Running => e.Claim? || e.TaskAdmit?
  }

  lemma EntersExactly(x: Run, e: Step, st: Status)
    requires RunLocal.Enabled(x, e) && x.row.status != st
    ensures Apply(x, e).row.status == st <==> Enters(x, e, st)
  {
    hide Apply, RunLocal.Enabled;
    match st {
      case Completed => BecomesCompleted(x, e);
      case Failed => BecomesFailed(x, e);
      case Cancelled => BecomesCancelled(x, e);
      case WaitingHuman => BecomesWaiting(x, e);
      case Queued => BecomesQueued(x, e);
      case Running => BecomesRunning(x, e);
    }
  }

  // --- Admission ------------------------------------------------------------------

  /** A queued run is claimed later from the node it was queued with. */
  lemma QueuedWithItsNode(x: Run, e: Step)
    requires RunLocal.Enabled(x, e) && (e.TaskQueue? || (e.Timeout? && x.row.status == Running))
    ensures var n := if e.TaskQueue? then x.tasks[e.t].node else x.drivers[e.d].from;
            && Apply(x, e).row.admission == Some(n) && Apply(x, e).want == Some(n)
            && (n != "" ==> ClaimNode(Apply(x, e).row) == Some(n))
  {
  }

  /** An admitted run gets one more driver, for the node of the resume or the claim, and keeps
      no continue node; a resume that is decided is forgotten, and any other stays. */
  lemma AdmittedWithADriver(x: Run, e: Step)
    requires RunLocal.Enabled(x, e) && (e.TaskAdmit? || e.Claim?)
    ensures var y := Apply(x, e);
            && y.row.admission == None && y.want == None && y.admitted
            && y.drivers.Keys == x.drivers.Keys + {e.d} && e.d !in x.drivers
            && y.drivers[e.d].phase == Polling
            && (e.TaskAdmit? ==> y.drivers[e.d].from == x.tasks[e.t].node && y.tasks == x.tasks - {e.t})
            && (e.Claim? ==> Some(y.drivers[e.d].from) == ClaimNode(x.row) && y.tasks == x.tasks)
            && y.row.visits == x.row.visits
  {
  }

  // --- The drivers ------------------------------------------------------------------

  /** A driver that claimed the run starts at the node it was admitted for, with the recorded
      numbers, unless the run has ended. */
  lemma LoadsAndStarts(x: Run, d: Id)
    requires RunLocal.Enabled(x, Load(d))
    ensures var dr := Apply(x, Load(d)).drivers[d];
            && dr.phase == (if Terminal(x.row.status) then Leaving else AtTop(Some(x.drivers[d].from)))
            && dr.cp == x.row.admission && (forall n :: Get(dr.iter, n) == MaxIteration(x.row.visits, n))
  {
    forall n ensures Get(LoadedIterations(x.row.visits), n) == MaxIteration(x.row.visits, n) { LoadedIsMax(x.row.visits, n); }
  }

  /** The owner enters the node at hand and opens its next visit, as running. */
  lemma EntersItsNode(x: Run, d: Id)
    requires Owned(x) && Numbered(x) && RunLocal.Enabled(x, Enter(d))
    ensures var y, n := Apply(x, Enter(d)), x.drivers[d].phase.cur.value;
            && y.drivers[d].phase == InNode(n)
            && y.row.visits == x.row.visits + [Visit(n, MaxIteration(x.row.visits, n) + 1, VRunning)]
            && y.row.status == x.row.status
            && y.row.admission == if n in x.row.checkpoints then x.drivers[d].cp else x.row.admission
  {
  }

  /** A driver is never stuck: waiting it may claim a free slot, or give up at any time; with
      the claim it loads; and at a node exactly one of three is possible, by whether it owns the
      run and the node is declared; ... */
  lemma AlwaysGoesOn(x: Run, d: Id)
    requires d in x.drivers
    ensures var p, own := x.drivers[d].phase, Owns(x.slot, x.drivers[d]);
            && (p == Polling ==> RunLocal.Enabled(x, Timeout(d)) && (RunLocal.Enabled(x, Acquire(d)) <==> !x.slot.held))
            && (p == Acquired ==> RunLocal.Enabled(x, Load(d)))
            && (p.AtTop? && p.cur.Some? ==>
                  && (RunLocal.Enabled(x, Abandon(d)) <==> !own)
                  && (RunLocal.Enabled(x, Enter(d)) <==> own && p.cur.value in x.row.nodes)
                  && (RunLocal.Enabled(x, NotFound(d)) <==> own && p.cur.value !in x.row.nodes))
  {
  }

  /** ... with no node left, owner or not, it ends; inside a node it returns, whatever the
      outcome; and then it leaves and is gone. */
  lemma AlwaysEnds(x: Run, d: Id, o: Outcome)
    requires d in x.drivers
    ensures x.drivers[d].phase == AtTop(None) <==> RunLocal.Enabled(x, Drain(d))
    ensures x.drivers[d].phase.InNode? <==> RunLocal.Enabled(x, Return(d, o))
    ensures x.drivers[d].phase == Leaving <==> RunLocal.Enabled(x, Leave(d))
    ensures x.drivers[d].phase == Releasing <==> RunLocal.Enabled(x, Release(d))
    ensures HasGen(x.drivers[d].phase) <==> RunLocal.Enabled(x, Crash(d))
  {
  }

  /** A resume that holds a slot is admitted exactly when the run is not running, and else
      refused; refused or without a slot it queues the run. */
  lemma ResumesGoOn(x: Run, t: Id, d: Id)
    requires t in x.tasks && d !in x.drivers
    ensures x.tasks[t].phase == Holds ==>
              && (RunLocal.Enabled(x, TaskAdmit(t, d)) <==> x.row.status != Running)
              && (RunLocal.Enabled(x, TaskRefused(t)) <==> x.row.status == Running)
    ensures x.tasks[t].phase == Wants ==> RunLocal.Enabled(x, TaskAcquire(t)) && RunLocal.Enabled(x, TaskFull(t))
    ensures x.tasks[t].phase == MustQueue <==> RunLocal.Enabled(x, TaskQueue(t))
    ensures RunLocal.Enabled(x, Claim(d)) <==> x.row.status == Queued && ClaimNode(x.row).Some?
  {
  }

  /** What becomes of a resume on its way: with a slot it holds it, without one, or refused,
      it must queue. */
  lemma ResumesMove(x: Run, e: Step, t: Id)
    requires RunLocal.Enabled(x, e)
    ensures t in Apply(x, e).tasks && t !in x.tasks <==> e.Resume? && e.t == t
    ensures e.Resume? && e.t == t ==> Apply(x, e).tasks[t] == Task(e.n, Wants)
    ensures t in x.tasks && t !in Apply(x, e).tasks <==> (e.TaskAdmit? || e.TaskQueue?) && e.t == t
    ensures t in x.tasks && t in Apply(x, e).tasks ==>
              Apply(x, e).tasks[t] ==
              if e.TaskAcquire? && e.t == t then x.tasks[t].(phase := Holds)
              else if (e.TaskFull? || e.TaskRefused?) && e.t == t then x.tasks[t].(phase := MustQueue)
              else x.tasks[t]
  {
    hide Save, FindVisit, MaxIteration;
  }

  /** The owner goes on to the node routing chose, and leaves after any other outcome. */
  lemma GoesWhereRouted(x: Run, d: Id, o: Outcome)
    requires RunLocal.Enabled(x, Return(d, o)) && OwnerReturns(x, Return(d, o))
    ensures var p := Apply(x, Return(d, o)).drivers[d].phase;
            && (o.Routed? ==> p == AtTop(o.next))
            && (!o.Routed? ==> p == Leaving)
  {
    hide Save, FindVisit, MaxIteration;
  }

  /** A driver leaves the loop for good exactly by one of these, and then gives up the claim. */
  lemma LeavesExactly(x: Run, e: Step)
    requires RunLocal.Enabled(x, e) && ByDriver(e) && x.drivers[e.d].phase != Leaving
    ensures Apply(x, e).drivers[e.d].phase == Leaving <==>
            || (e.Load? && Terminal(x.row.status)) || e.Crash? || e.Abandon? || e.NotFound? || e.Drain?
            || (e.Return? && !(OwnerReturns(x, e) && e.o.Routed?))
  {
    hide Save, FindVisit, MaxIteration;
  }

  /** Leaving frees the slot only of the driver that owns the run; then it is gone for good. */
  lemma LeavesAndIsGone(x: Run, d: Id)
    ensures RunLocal.Enabled(x, Leave(d)) ==>
              && (Apply(x, Leave(d)).slot.held <==> x.slot.held && x.slot.gen != x.drivers[d].gen)
              && Apply(x, Leave(d)).drivers[d].phase == Releasing
    ensures RunLocal.Enabled(x, Release(d)) ==> Apply(x, Release(d)).drivers == x.drivers - {d} && Apply(x, Release(d)).row == x.row
  {
  }

  /** Driver by driver, a step concerns no other. */
  lemma OtherDriversStay(x: Run, e: Step, o: Id)
    requires RunLocal.Enabled(x, e) && o in x.drivers
    requires !((ByDriver(e) || e.Release?) && e.d == o)
    ensures o in Apply(x, e).drivers && Apply(x, e).drivers[o] == x.drivers[o]
  {
    hide Save, FindVisit, MaxIteration;
  }

  // --- The visits ------------------------------------------------------------------

  /** saveState's guard: a dead status may always be written; a live visit takes any status; a
      completed one any but waiting; a dead one no other. */
  lemma OverwritesExactly(was: VisitStatus, now: VisitStatus)
    ensures MayOverwrite(was, now) <==>
            || now == VFailed || now == VCancelled
            || was == VRunning || was == VWaiting
            || (was == VCompleted && now != VWaiting)
  {
  }

  /** A save writes the visit of that number, where it may, and touches no other; where there
      is none it adds one. */
  lemma SavesOneVisit(visits: seq<Visit>, n: Node, k: nat, st: VisitStatus, i: nat)
    requires Unique(visits) && k >= 1 && i < |visits|
    ensures |Save(visits, n, k, st)| == |visits| + if HasVisit(visits, n, k) then 0 else 1
    ensures !HasVisit(visits, n, k) ==> Save(visits, n, k, st)[|visits|] == Visit(n, k, st)
    ensures Save(visits, n, k, st)[i] ==
            if visits[i].node == n && visits[i].iteration == k && MayOverwrite(visits[i].status, st)
            then Visit(n, k, st) else visits[i]
  {
  }

  /** What an outcome makes of the visit: waiting after a pause, failed after a failure. */
  lemma SavedStatus(o: Outcome)
    ensures o.Paused? ==> SavedAs(o) == VWaiting
    ensures o == FinalFailure || o == SandboxSetup ==> SavedAs(o) == VFailed
    ensures o.Routed? ==> SavedAs(o) == o.saved
  {
  }

  /** The end of a run as failed or cancelled closes what was running or waiting, as failed or
      cancelled, and nothing else; its completion closes nothing. */
  lemma FinishCloses(row: RunRow, st: Status, i: nat)
    requires i < |row.visits|
    ensures Finish(row, st).status == st && |Finish(row, st).visits| == |row.visits|
    ensures Finish(row, st) == row.(status := st, visits := Finish(row, st).visits)
    ensures var was, now := row.visits[i], Finish(row, st).visits[i];
            && now == was.(status := now.status)
            && ((was.status == VRunning || was.status == VWaiting) && st == Failed ==> now.status == VFailed)
            && ((was.status == VRunning || was.status == VWaiting) && st == Cancelled ==> now.status == VCancelled)
            && (was.status != VRunning && was.status != VWaiting ==> now == was)
            && (st != Failed && st != Cancelled ==> now == was)
  {
  }

  /** The return of the owner saves the visit it was in, with the status of the outcome, and
      no other driver step but an entry touches the visits of a run that goes on. */
  lemma ReturnSavesItsVisit(x: Run, d: Id, o: Outcome)
    requires RunLocal.Enabled(x, Return(d, o)) && OwnerReturns(x, Return(d, o))
    ensures var dr := x.drivers[d];
            var saved := Save(x.row.visits, dr.phase.node, Get(dr.iter, dr.phase.node), SavedAs(o));
            Apply(x, Return(d, o)).row.visits ==
            if o == FinalFailure then Finish(x.row.(visits := saved), Failed).visits else saved
  {
    hide Save, FindVisit, MaxIteration, FinalizeVisit;
  }

  lemma VisitsChangeBy(x: Run, e: Step)
    requires RunLocal.Enabled(x, e) && Apply(x, e).row.visits != x.row.visits
    ensures e.Enter? || OwnerReturns(x, e) || e.Crash? || e.NotFound? || e.Terminate? || e.ResumerSave? || e.RowSave?
  {
    hide Save, FindVisit, MaxIteration, FinalizeVisit;
  }
}
