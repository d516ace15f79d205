/** Traces of one run that end where nobody would expect them to. */
module RunTraces {
  import opened ExecSlot
  import opened RunAttended
  import opened RunLocal
  import opened RunStore

  ghost predicate Goes(x: Run, e: Step, y: Run) {
    RunLocal.Enabled(x, e) && y == Apply(x, e)
  }

  ghost predicate IsTrace(states: seq<Run>, steps: seq<Step>) {
    && |states| == |steps| + 1
    && forall i :: 0 <= i < |steps| ==> Goes(states[i], steps[i], states[i + 1])
  }

  /** Some steps lead from `x` to `y`. */
  ghost predicate Leads(x: Run, y: Run) {
    exists states: seq<Run>, steps: seq<Step> :: IsTrace(states, steps) && states[0] == x && states[|steps|] == y
  }

  lemma LeadsOne(x: Run, e: Step, y: Run)
    requires Goes(x, e, y)
    ensures Leads(x, y)
  {
    assert IsTrace([x, y], [e]) && [x, y][|[e]|] == y;
  }

  lemma TraceSum(a: seq<Run>, es: seq<Step>, b: seq<Run>, fs: seq<Step>)
    requires IsTrace(a, es) && IsTrace(b, fs) && a[|es|] == b[0]
    ensures IsTrace(a + b[1..], es + fs) && (a + b[1..])[0] == a[0] && (a + b[1..])[|es + fs|] == b[|fs|]
  {
    hide Goes;
    var c, gs := a + b[1..], es + fs;
    forall i | 0 <= i < |gs| ensures Goes(c[i], gs[i], c[i + 1]) {
      if i >= |es| {
        assert c[i] == b[i - |es|] && c[i + 1] == b[i - |es| + 1] && gs[i] == fs[i - |es|];
      }
    }
  }

  lemma LeadsTrans(x: Run, y: Run, z: Run)
    requires Leads(x, y) && Leads(y, z)
    ensures Leads(x, z)
  {
    hide Goes;
    var a: seq<Run>, es: seq<Step> :| IsTrace(a, es) && a[0] == x && a[|es|] == y;
    var b: seq<Run>, fs: seq<Step> :| IsTrace(b, fs) && b[0] == y && b[|fs|] == z;
    TraceSum(a, es, b, fs);
    var c, gs := a + b[1..], es + fs;
    assert IsTrace(c, gs) && c[|gs|] == z;
  }

  /** A run starting at `a`, with the checkpoint node `b`, in a given moment. */
  function At(st: Status, admission: Option<Node>, visits: seq<Visit>, slot: Slot, want: Option<Node>, admitted: bool,
              drivers: map<Id, Driver>, tasks: map<Id, Task>): Run
  {
    Run(RunRow(st, admission, Some("a"), {"a", "b"}, {"b"}, visits), slot, want, admitted, drivers, tasks)
  }

  const Fresh := At(Queued, None, [], Slot(false, 0), None, false, map[], map[])
  const Open := [Visit("a", 1, VRunning)]
  const Shut := [Visit("a", 1, VFailed)]
  const Started := At(Running, None, Open, Slot(true, 1), None, true, map[0 := Driver("a", InNode("a"), 1, map["a" := 1], None)], map[])
  const Done := Driver("a", Leaving, 1, map["a" := 1], None)

  lemma Starts()
    ensures Leads(Fresh, Started)
  {
    var x1 := At(Running, None, [], Slot(false, 0), None, true, map[0 := Driver("a", Polling, 0, map[], None)], map[]);
    var x2 := At(Running, None, [], Slot(true, 1), None, true, map[0 := Driver("a", Acquired, 1, map[], None)], map[]);
    assert Goes(Fresh, Claim(0), x1);
    LeadsOne(Fresh, Claim(0), x1);
    assert Goes(x1, Acquire(0), x2);
    LeadsOne(x1, Acquire(0), x2);
    StartsLoaded();
    LeadsTrans(Fresh, x1, x2);
    LeadsTrans(Fresh, x2, Started);
  }

  lemma StartsLoaded()
    ensures Leads(At(Running, None, [], Slot(true, 1), None, true, map[0 := Driver("a", Acquired, 1, map[], None)], map[]), Started)
  {
    var x2 := At(Running, None, [], Slot(true, 1), None, true, map[0 := Driver("a", Acquired, 1, map[], None)], map[]);
    var x3 := At(Running, None, [], Slot(true, 1), None, true, map[0 := Driver("a", AtTop(Some("a")), 1, map[], None)], map[]);
    NothingLoads();
    assert Goes(x2, Load(0), x3);
    LeadsOne(x2, Load(0), x3);
    StartsEntered();
    LeadsTrans(x2, x3, Started);
  }

  lemma NothingLoads()
    ensures LoadedIterations([]) == map[]
  {
  }

  lemma StartsEntered()
    ensures Leads(At(Running, None, [], Slot(true, 1), None, true, map[0 := Driver("a", AtTop(Some("a")), 1, map[], None)], map[]), Started)
  {
    var x3 := At(Running, None, [], Slot(true, 1), None, true, map[0 := Driver("a", AtTop(Some("a")), 1, map[], None)], map[]);
    assert Goes(x3, Enter(0), Started);
    LeadsOne(x3, Enter(0), Started);
  }

  /** The driver's way out once its node returned. */
  lemma Departs(st: Status, visits: seq<Visit>, slot: Slot)
    requires End(slot, 1) == Slot(false, slot.gen)
    ensures Leads(At(st, None, visits, slot, None, true, map[0 := Done], map[]),
                  At(st, None, visits, Slot(false, slot.gen), None, true, map[], map[]))
  {
    var x1 := At(st, None, visits, slot, None, true, map[0 := Done], map[]);
    var x2 := At(st, None, visits, Slot(false, slot.gen), None, true, map[0 := Done.(phase := Releasing)], map[]);
    assert Goes(x1, Leave(0), x2);
    LeadsOne(x1, Leave(0), x2);
    Releases(st, visits, Slot(false, slot.gen));
    LeadsTrans(x1, x2, At(st, None, visits, Slot(false, slot.gen), None, true, map[], map[]));
  }

  lemma Releases(st: Status, visits: seq<Visit>, slot: Slot)
    ensures Leads(At(st, None, visits, slot, None, true, map[0 := Done.(phase := Releasing)], map[]),
                  At(st, None, visits, slot, None, true, map[], map[]))
  {
    var x2 := At(st, None, visits, slot, None, true, map[0 := Done.(phase := Releasing)], map[]);
    var x3 := At(st, None, visits, slot, None, true, map[], map[]);
    assert Goes(x2, Release(0), x3);
    LeadsOne(x2, Release(0), x3);
  }

  /** A run left in the running state with no driver, no admission and no slot in use. */
  ghost predicate LeftRunning(x: Run) {
    x.row.status == Running && SlotsUsed(x) == 0 && !x.slot.held && x.tasks == map[]
  }

  /** Each of the three steps that drop a run can be reached and leaves it running without a
      slot: a sandbox that fails to come up ends its driver without touching the status, ... */
  lemma RunningWithoutASlot()
    ensures exists x :: Leads(Fresh, x) && LeftRunning(x)
  {
    var x1 := At(Running, None, Shut, Slot(true, 1), None, true, map[0 := Done], map[]);
    var x2 := At(Running, None, Shut, Slot(false, 1), None, true, map[], map[]);
    assert Save(Open, "a", 1, VFailed) == Shut;
    assert Goes(Started, Return(0, SandboxSetup), x1);
    LeadsOne(Started, Return(0, SandboxSetup), x1);
    Starts();
    Departs(Running, Shut, Slot(true, 1));
    LeadsTrans(Fresh, Started, x1);
    LeadsTrans(Fresh, x1, x2);
    assert LeftRunning(x2);
  }

  /** ... a pause that is over before its driver looks leaves the run to whoever resumes it, ... */
  lemma PausedTooLate()
    ensures exists x :: Leads(Fresh, x) && LeftRunning(x)
                        && x.row.visits == [Visit("a", 1, VWaiting)]
  {
    var held := [Visit("a", 1, VWaiting)];
    var x1 := At(Running, None, held, Slot(true, 1), None, true, map[0 := Done], map[]);
    var x2 := At(Running, None, held, Slot(false, 1), None, true, map[], map[]);
    assert Save(Open, "a", 1, VWaiting) == held;
    assert Goes(Started, Return(0, Paused(false)), x1);
    LeadsOne(Started, Return(0, Paused(false)), x1);
    Starts();
    Departs(Running, held, Slot(true, 1));
    LeadsTrans(Fresh, Started, x1);
    LeadsTrans(Fresh, x1, x2);
    assert LeftRunning(x2);
  }

  const Cut := [Visit("a", 1, VCancelled)]
  const InA := Driver("a", InNode("a"), 1, map["a" := 1], None)
  const Cleared := At(Cancelled, None, Cut, Slot(false, 2), None, true, map[0 := InA], map[])
  const Again := At(Running, None, Cut, Slot(false, 2), None, true, map[0 := InA, 1 := Driver("a", Polling, 0, map[], None)], map[])
  const Second := Driver("a", Acquired, 3, map[], None)
  const Unclaimed := At(Running, None, Cut, Slot(false, 4), None, true, map[0 := InA, 1 := Second], map[])

  /** A run is cancelled while its driver is inside a node; the resume that follows clears the
      slot the driver still holds. */
  lemma CancelledAndCleared()
    ensures Leads(Started, Cleared)
  {
    var x1 := At(Cancelled, None, Cut, Slot(true, 1), None, true, map[0 := InA], map[]);
    assert Finish(Started.row, Cancelled).visits == Cut;
    assert Goes(Started, Terminate(Cancelled), x1);
    LeadsOne(Started, Terminate(Cancelled), x1);
    assert Goes(x1, ForceClear, Cleared);
    LeadsOne(x1, ForceClear, Cleared);
    LeadsTrans(Started, x1, Cleared);
  }

  /** A flush that read the visit before the run was cancelled saves it as running after. */
  lemma DeadVisitRevived()
    ensures exists x :: Leads(Fresh, x) && x.row.status == Cancelled && x.row.visits == Open
  {
    var x := Cleared.(row := Cleared.row.(visits := Open));
    Starts();
    CancelledAndCleared();
    assert Goes(Cleared, RowSave(0, VRunning), x);
    LeadsOne(Cleared, RowSave(0, VRunning), x);
    LeadsTrans(Fresh, Started, Cleared);
    LeadsTrans(Fresh, Cleared, x);
  }

  lemma AdmittedAgain()
    ensures Leads(Cleared, Again)
  {
    var x1 := Cleared.(tasks := map[0 := Task("a", Wants)]);
    var x2 := Cleared.(tasks := map[0 := Task("a", Holds)]);
    assert Goes(Cleared, Resume(0, "a"), x1);
    LeadsOne(Cleared, Resume(0, "a"), x1);
    assert Goes(x1, TaskAcquire(0), x2);
    LeadsOne(x1, TaskAcquire(0), x2);
    assert Goes(x2, TaskAdmit(0, 1), Again);
    LeadsOne(x2, TaskAdmit(0, 1), Again);
    LeadsTrans(Cleared, x1, x2);
    LeadsTrans(Cleared, x2, Again);
  }

  /** The cancellation comes to its own force-clear only now, and hits the new claim. */
  lemma NewClaimCleared()
    ensures Leads(Again, Unclaimed)
  {
    var x1 := At(Running, None, Cut, Slot(true, 3), None, true, map[0 := InA, 1 := Second], map[]);
    assert Goes(Again, Acquire(1), x1);
    LeadsOne(Again, Acquire(1), x1);
    assert Drops(x1, ForceClear);
    assert Goes(x1, ForceClear, Unclaimed);
    LeadsOne(x1, ForceClear, Unclaimed);
    LeadsTrans(Again, x1, Unclaimed);
  }

  lemma CutLoads()
    ensures LoadedIterations([Visit("a", 1, VCancelled)]) == map["a" := 1]
  {
  }

  const GivenUp := Unclaimed.(drivers := map[0 := InA, 1 := Second.(phase := Leaving, iter := map["a" := 1])])

  const SecondLoaded := Unclaimed.(drivers := map[0 := InA, 1 := Second.(phase := AtTop(Some("a")), iter := map["a" := 1])])

  lemma SecondLoads()
    ensures Leads(Unclaimed, SecondLoaded)
  {
    CutLoads();
    hide LoadedIterations;
    assert Goes(Unclaimed, Load(1), SecondLoaded);
    LeadsOne(Unclaimed, Load(1), SecondLoaded);
  }

  lemma SecondGivesUp()
    ensures Leads(SecondLoaded, GivenUp)
  {
    hide LoadedIterations;
    assert Goes(SecondLoaded, Abandon(1), GivenUp);
    LeadsOne(SecondLoaded, Abandon(1), GivenUp);
  }

  const GoingAway := Unclaimed.(drivers := map[0 := InA, 1 := Second.(phase := Releasing, iter := map["a" := 1])])

  lemma SecondLeaves()
    ensures Leads(GivenUp, GoingAway)
  {
    assert Goes(GivenUp, Leave(1), GoingAway);
    LeadsOne(GivenUp, Leave(1), GoingAway);
  }

  lemma SecondReleases()
    ensures Leads(GoingAway, Unclaimed.(drivers := map[0 := InA]))
  {
    var x := Unclaimed.(drivers := map[0 := InA]);
    assert GoingAway.drivers - {1} == map[0 := InA];
    assert Goes(GoingAway, Release(1), x);
    LeadsOne(GoingAway, Release(1), x);
  }

  lemma FirstLeaves()
    ensures Leads(Unclaimed.(drivers := map[0 := InA]), At(Running, None, Cut, Slot(false, 4), None, true, map[], map[]))
  {
    var x1 := Unclaimed.(drivers := map[0 := InA]);
    var x2 := At(Running, None, Cut, Slot(false, 4), None, true, map[0 := Done], map[]);
    assert Goes(x1, Return(0, FinalFailure), x2);
    LeadsOne(x1, Return(0, FinalFailure), x2);
    Departs(Running, Cut, Slot(false, 4));
    LeadsTrans(x1, x2, At(Running, None, Cut, Slot(false, 4), None, true, map[], map[]));
  }

  /** ... and a cancellation whose force-clear comes after the run was resumed takes the slot
      from the new driver, so that neither driver goes on. */
  lemma ClearedWhileRunning()
    ensures exists x :: Leads(Fresh, x) && LeftRunning(x) && x.row.visits == [Visit("a", 1, VCancelled)]
  {
    var x := At(Running, None, Cut, Slot(false, 4), None, true, map[], map[]);
    Starts();
    CancelledAndCleared();
    AdmittedAgain();
    NewClaimCleared();
    SecondLoads();
    SecondGivesUp();
    SecondLeaves();
    SecondReleases();
    FirstLeaves();
    LeadsTrans(Fresh, Started, Cleared);
    LeadsTrans(Fresh, Cleared, Again);
    LeadsTrans(Fresh, Again, Unclaimed);
    LeadsTrans(Fresh, Unclaimed, SecondLoaded);
    LeadsTrans(Fresh, SecondLoaded, GivenUp);
    LeadsTrans(Fresh, GivenUp, GoingAway);
    LeadsTrans(Fresh, GoingAway, Unclaimed.(drivers := map[0 := InA]));
    LeadsTrans(Fresh, Unclaimed.(drivers := map[0 := InA]), x);
    assert LeftRunning(x);
  }

  const Stopped := At(Failed, None, Shut, Slot(false, 1), None, true, map[], map[])
  const Asked := At(Failed, None, Shut, Slot(false, 1), None, true, map[], map[0 := Task("b", Wants), 1 := Task("b", Wants)])
  const Ready := Driver("b", AtTop(Some("b")), 2, map["a" := 1], None)
  const Driving := At(Running, None, Shut, Slot(true, 2), None, true, map[1 := Ready], map[1 := Task("b", Wants)])
  const Waiting := At(Queued, Some("b"), Shut, Slot(true, 2), Some("b"), true, map[1 := Ready], map[])

  lemma FailsAndIsAskedTwice()
    ensures Leads(Started, Asked)
  {
    var x1 := At(Failed, None, Shut, Slot(true, 1), None, true, map[0 := Done], map[]);
    assert Save(Open, "a", 1, VFailed) == Shut;
    assert Goes(Started, Return(0, FinalFailure), x1);
    LeadsOne(Started, Return(0, FinalFailure), x1);
    Departs(Failed, Shut, Slot(true, 1));
    AskedTwice();
    LeadsTrans(Started, x1, Stopped);
    LeadsTrans(Started, Stopped, Asked);
  }

  lemma AskedTwice()
    ensures Leads(Stopped, Asked)
  {
    var x1 := At(Failed, None, Shut, Slot(false, 1), None, true, map[], map[0 := Task("b", Wants)]);
    assert Goes(Stopped, Resume(0, "b"), x1);
    LeadsOne(Stopped, Resume(0, "b"), x1);
    assert Goes(x1, Resume(1, "b"), Asked);
    LeadsOne(x1, Resume(1, "b"), Asked);
    LeadsTrans(Stopped, x1, Asked);
  }

  const Polled :=
    At(Running, None, Shut, Slot(false, 1), None, true, map[1 := Driver("b", Polling, 0, map[], None)], map[1 := Task("b", Wants)])

  lemma FirstResumeAdmitted()
    ensures Leads(Asked, Polled)
  {
    var x1 := At(Failed, None, Shut, Slot(false, 1), None, true, map[], map[0 := Task("b", Holds), 1 := Task("b", Wants)]);
    assert Goes(Asked, TaskAcquire(0), x1);
    LeadsOne(Asked, TaskAcquire(0), x1);
    assert Goes(x1, TaskAdmit(0, 1), Polled);
    LeadsOne(x1, TaskAdmit(0, 1), Polled);
    LeadsTrans(Asked, x1, Polled);
  }

  const Claimed := At(Running, None, Shut, Slot(true, 2), None, true, map[1 := Driver("b", Acquired, 2, map[], None)], map[1 := Task("b", Wants)])

  lemma FirstResumeDrives()
    ensures Leads(Polled, Driving)
  {
    assert Goes(Polled, Acquire(1), Claimed);
    LeadsOne(Polled, Acquire(1), Claimed);
    FirstResumeLoads();
    LeadsTrans(Polled, Claimed, Driving);
  }

  lemma ShutLoads()
    ensures LoadedIterations([Visit("a", 1, VFailed)]) == map["a" := 1]
  {
  }

  lemma FirstResumeLoads()
    ensures Leads(Claimed, Driving)
  {
    ShutLoads();
    assert Goes(Claimed, Load(1), Driving);
    LeadsOne(Claimed, Load(1), Driving);
  }

  lemma SecondResumeQueues()
    ensures Leads(Driving, Waiting)
  {
    var x1 := At(Running, None, Shut, Slot(true, 2), None, true, map[1 := Ready], map[1 := Task("b", Holds)]);
    var x2 := At(Running, None, Shut, Slot(true, 2), None, true, map[1 := Ready], map[1 := Task("b", MustQueue)]);
    assert Goes(Driving, TaskAcquire(1), x1);
    LeadsOne(Driving, TaskAcquire(1), x1);
    assert Goes(x1, TaskRefused(1), x2);
    LeadsOne(x1, TaskRefused(1), x2);
    assert Goes(x2, TaskQueue(1), Waiting);
    LeadsOne(x2, TaskQueue(1), Waiting);
    LeadsTrans(Driving, x1, x2);
    LeadsTrans(Driving, x2, Waiting);
  }

  /** Two resumes of a failed run at `b`, both accepted before the first was
      admitted: the second queues the run while the first drives it, and the
      first's snapshot at the checkpoint `b` drops the recorded node. */
  lemma ResumePointCanBeLost()
    ensures exists x :: Leads(Fresh, x) && x.admitted && x.row.status == Queued
                        && x.want == Some("b") && ClaimNode(x.row) == Some("a")
  {
    var y := Apply(Waiting, Enter(1));
    LeadsOne(Waiting, Enter(1), y);
    Starts();
    FailsAndIsAskedTwice();
    FirstResumeAdmitted();
    FirstResumeDrives();
    SecondResumeQueues();
    LeadsTrans(Fresh, Started, Asked);
    LeadsTrans(Fresh, Asked, Polled);
    LeadsTrans(Fresh, Polled, Driving);
    LeadsTrans(Fresh, Driving, Waiting);
    LeadsTrans(Fresh, Waiting, y);
  }
}
