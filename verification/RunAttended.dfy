/** Whether somebody moves a running run on, and which steps leave it to nobody. */
module RunAttended {
  import opened RunLocal
  import opened RunStore

  /** A driver that will still move the run on: it is about to claim the slot, or it
      owns the run and is not on its way out. */
  predicate Working(x: Run, d: Id) {
    && d in x.drivers
    && (x.drivers[d].phase == Polling || (x.drivers[d].phase != Leaving && Owns(x.slot, x.drivers[d])))
  }

  /** A run in the running state has a working driver or an admission scheduled. */
  ghost predicate Attended(x: Run) {
    x.row.status == Running ==> x.tasks != map[] || exists d :: Working(x, d)
  }

  /** Nothing but the owner could move the run on. */
  ghost predicate OnlyTheOwner(x: Run) {
    x.tasks == map[] && forall d :: d in x.drivers ==> x.drivers[d].phase != Polling
  }

  /** The steps that leave a running run to nobody: its owner, alone, is force-cleared,
      or gives up on a sandbox, or finds its pause already over. */
  ghost predicate Drops(x: Run, e: Step) {
    && x.row.status == Running && OnlyTheOwner(x)
    && (e.ForceClear?
        || (e.Return? && e.d in x.drivers && Owns(x.slot, x.drivers[e.d]) && (e.o.SandboxSetup? || e.o == Paused(false))))
  }

  lemma AttendedStep(x: Run, e: Step)
    requires Owned(x) && Attended(x) && Enabled(x, e)
    ensures Attended(Apply(x, e)) <==> !Drops(x, e)
  {
    hide Apply, DriverMove;
    if e.Return? {
      AttendedReturn(x, e.d, e.o);
    } else if ByDriver(e) {
      AttendedByDriver(x, e);
    } else if e.ForceClear? {
      AttendedCleared(x);
    } else {
      AttendedOutside(x, e);
    }
  }

  /** A driver's step takes no other driver's work away, and starts no run. */
  lemma OthersKeepWorking(x: Run, e: Step, o: Id)
    requires Owned(x) && Enabled(x, e) && ByDriver(e)
    ensures Apply(x, e).row.status == Running ==> x.row.status == Running
    ensures o != e.d && Working(x, o) ==> Working(Apply(x, e), o)
  {
    DriverMovesFairly(x, e);
    hide DriverMove;
    NoDriverStartsARun(x, e);
    assert Apply(x, e) == Moved(x, e.d, DriverMove(x, e, x.drivers[e.d]));
  }

  lemma NoDriverStartsARun(x: Run, e: Step)
    requires Enabled(x, e) && ByDriver(e)
    ensures DriverMove(x, e, x.drivers[e.d]).row.status == Running ==> x.row.status == Running
  {
  }

  /** A working driver goes on working, or ends or queues the run, but for its node's return. */
  lemma KeepsWorking(x: Run, e: Step)
    requires Enabled(x, e) && ByDriver(e) && !e.Return? && Working(x, e.d)
    ensures Apply(x, e).row.status == Running ==> Working(Apply(x, e), e.d)
  {
  }

  lemma AttendedByDriver(x: Run, e: Step)
    requires Owned(x) && Attended(x) && Enabled(x, e) && ByDriver(e) && !e.Return?
    ensures Attended(Apply(x, e))
  {
    hide Apply, DriverMove, Owned, Working;
    assert Apply(x, e).tasks == x.tasks by { KeepsTasks(x, e); }
    OthersKeepWorking(x, e, e.d);
    if Apply(x, e).row.status == Running && x.tasks == map[] {
      var o :| Working(x, o);
      if o == e.d { KeepsWorking(x, e); } else { OthersKeepWorking(x, e, o); }
      assert Working(Apply(x, e), o);
    }
  }

  lemma KeepsTasks(x: Run, e: Step)
    requires Enabled(x, e) && ByDriver(e)
    ensures Apply(x, e).tasks == x.tasks
  {
  }

  lemma AttendedReturn(x: Run, d: Id, o: Outcome)
    requires Owned(x) && Attended(x) && Enabled(x, Return(d, o))
    ensures Attended(Apply(x, Return(d, o))) <==> !Drops(x, Return(d, o))
  {
    var e, y := Return(d, o), Apply(x, Return(d, o));
    ReturnOf(x, d, o);
    hide Apply, DriverMove;
    if y.row.status == Running && x.tasks == map[] {
      if Drops(x, e) {
        forall p ensures !Working(y, p) { if p != d { NobodyElse(x, d, p); } }
      } else {
        var p :| Working(x, p);
        if p == d && !o.Routed? {
          var q :| q in x.drivers && x.drivers[q].phase == Polling;
          assert Working(y, q);
        } else {
          assert Working(y, p);
        }
      }
    }
  }

  /** With the owner `d` inside its node, nobody else works but drivers still polling. */
  lemma NobodyElse(x: Run, d: Id, p: Id)
    requires Owned(x) && d in x.drivers && Owns(x.slot, x.drivers[d]) && x.drivers[d].phase.InNode?
    requires OnlyTheOwner(x) && p != d
    ensures !Working(x, p)
  {
  }

  /** Where a return leaves the driver and the run. */
  lemma ReturnOf(x: Run, d: Id, o: Outcome)
    requires Enabled(x, Return(d, o))
    ensures var y := Apply(x, Return(d, o));
            && y.tasks == x.tasks && (forall p :: p != d ==> (Working(y, p) <==> Working(x, p)))
            && (y.row.status == Running ==> x.row.status == Running)
            && (Working(y, d) <==> Owns(x.slot, x.drivers[d]) && x.row.status != Cancelled && x.row.status != Failed && o.Routed?)
            && (y.row.status == Running && Owns(x.slot, x.drivers[d]) ==> o.Routed? || o.SandboxSetup? || o == Paused(false))
            && (x.row.status == Running && (o.SandboxSetup? || o == Paused(false)) ==> y.row.status == Running)
  {
  }

  lemma AttendedCleared(x: Run)
    requires Owned(x) && Attended(x)
    ensures Attended(Apply(x, ForceClear)) <==> !Drops(x, ForceClear)
  {
    var y := Apply(x, ForceClear);
    forall d ensures Working(y, d) <==> d in x.drivers && x.drivers[d].phase == Polling {
      if d in x.drivers && x.slot.held { assert HasGen(x.drivers[d].phase) ==> x.drivers[d].gen <= x.slot.gen; }
    }
  }

  lemma AttendedOutside(x: Run, e: Step)
    requires Owned(x) && Attended(x) && Enabled(x, e) && !ByDriver(e) && !e.ForceClear?
    ensures Attended(Apply(x, e))
  {
    var y := Apply(x, e);
    match e {
      case Claim(d) => assert Working(y, d);
      case TaskAdmit(t, d) => assert Working(y, d);
      case Resume(t, n) => assert t in y.tasks;
      case TaskAcquire(t) => assert t in y.tasks;
      case TaskFull(t) => assert t in y.tasks;
      case TaskRefused(t) => assert t in y.tasks;
      case TaskQueue(t) =>
      case Terminate(st) =>
      case RowSave(i, saved) => if o :| Working(x, o) { assert Working(y, o); }
      case ResumerSave(n, k, saved) => if o :| Working(x, o) { assert Working(y, o); }
      case Release(d) => if o :| Working(x, o) { assert Working(y, o); }
    }
  }

  /** An attended running run with no admission scheduled holds a slot. */
  lemma AttendedHoldsASlot(x: Run)
    requires Attended(x) && x.row.status == Running && x.tasks == map[]
    ensures SlotsUsed(x) >= 1
  {
    var d :| Working(x, d);
    assert d in x.drivers.Keys;
  }
}
