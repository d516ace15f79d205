/** Everything that can happen to one run: its drivers, the goroutines asking to
    resume it, the dispatcher's claim, cancellation and force-clearing.  A step
    is one mutex section or one guarded write; an ownership test and the commit
    it protects, `finish`, a claim and a direct admission are one step each.
    ResumerSave is saveState as a gate resume or the end of a dialogue calls it, for
    a visit that was open when the resume loaded its context.  RowSave is the later half of
    anything that reads a visit and then saves its whole row, status included: a flush of
    calls or usage, a sync of outputs, or a saveState that read the visit before it ended. */
module RunLocal {
  import opened ExecSlot
  import opened RunStore

  type Id = nat

  datatype Phase =
    | Polling                     // acquireExecuteSlot
    | Acquired                    // owns the slot, context not loaded
    | AtTop(cur: Option<Node>)    // about to test the loop condition
    | InNode(node: Node)          // the node is executing
    | Leaving                     // endExecute is deferred
    | Releasing                   // runAdmitted's release is deferred

  /** A runAdmitted goroutine with its in-memory copies: iteration numbers and
      the checkpoint map's `__admission_from__` entry. */
  datatype Driver = Driver(from: Node, phase: Phase, gen: Gen, iter: map<Node, nat>, cp: Option<Node>)

  datatype TaskPhase = Wants | Holds | MustQueue

  /** A scheduleRunAdmission goroutine. */
  datatype Task = Task(node: Node, phase: TaskPhase)

  /** The run's row and slot, two ghosts of its history (the node recorded by the
      last enqueue not yet admitted, and whether it was ever admitted), and the
      goroutines working on it. */
  datatype Run = Run(row: RunRow, slot: Slot, want: Option<Node>, admitted: bool,
                     drivers: map<Id, Driver>, tasks: map<Id, Task>)

  /** What an executed node led to, after routing. */
  datatype Outcome =
    | Paused(pending: bool)
    | FinalFailure
    | SandboxSetup
    | Routed(saved: VisitStatus, next: Option<Node>)

  datatype Step =
    | Claim(d: Id)
    | Resume(t: Id, n: Node)
    | TaskAcquire(t: Id)
    | TaskFull(t: Id)
    | TaskAdmit(t: Id, d: Id)
    | TaskRefused(t: Id)
    | TaskQueue(t: Id)
    | ResumerSave(n: Node, k: nat, saved: VisitStatus)
    | RowSave(i: nat, saved: VisitStatus)
    | ForceClear
    | Terminate(st: Status)
    | Acquire(d: Id)
    | Timeout(d: Id)
    | Load(d: Id)
    | Crash(d: Id)
    | Abandon(d: Id)
    | Enter(d: Id)
    | NotFound(d: Id)
    | Drain(d: Id)
    | Return(d: Id, o: Outcome)
    | Leave(d: Id)
    | Release(d: Id)

  predicate HasGen(p: Phase) {
    !p.Polling? && !p.Releasing?
  }

  predicate Loaded(p: Phase) {
    p.AtTop? || p.InNode?
  }

  predicate Owns(slot: Slot, dr: Driver) {
    HasGen(dr.phase) && IsOwner(slot, dr.gen)
  }

  predicate AtNode(dr: Driver) {
    dr.phase.AtTop? && dr.phase.cur.Some?
  }

  predicate DriverEnabled(x: Run, e: Step, dr: Driver) {
    match e
    case Acquire(_) => dr.phase == Polling && !x.slot.held
    case Timeout(_) => dr.phase == Polling
    case Load(_) => dr.phase == Acquired
    case Crash(_) => HasGen(dr.phase)
    case Abandon(_) => AtNode(dr) && !Owns(x.slot, dr)
    case Enter(_) => AtNode(dr) && Owns(x.slot, dr) && dr.phase.cur.value in x.row.nodes
    case NotFound(_) => AtNode(dr) && Owns(x.slot, dr) && dr.phase.cur.value !in x.row.nodes
    case Drain(_) => dr.phase == AtTop(None)
    case Return(_, _) => dr.phase.InNode?
    case Leave(_) => dr.phase == Leaving
    case _ => false
  }

  predicate Enabled(x: Run, e: Step) {
    match e
    case Claim(d) => d !in x.drivers && x.row.status == Queued && ClaimNode(x.row).Some?
    case Resume(t, n) => t !in x.tasks && n != ""
    case TaskAcquire(t) => t in x.tasks && x.tasks[t].phase == Wants
    case TaskFull(t) => t in x.tasks && x.tasks[t].phase == Wants
    case TaskAdmit(t, d) => t in x.tasks && x.tasks[t].phase == Holds && d !in x.drivers && x.row.status != Running
    case TaskRefused(t) => t in x.tasks && x.tasks[t].phase == Holds && x.row.status == Running
    case TaskQueue(t) => t in x.tasks && x.tasks[t].phase == MustQueue
    case ResumerSave(n, k, saved) => k >= 1 && FindVisit(x.row.visits, n, k) < |x.row.visits|
    case RowSave(i, saved) => i < |x.row.visits|
    case ForceClear => true
    case Terminate(st) => Terminal(st)
    case Release(d) => d in x.drivers && x.drivers[d].phase == Releasing
    case _ => e.d in x.drivers && DriverEnabled(x, e, x.drivers[e.d])
  }

  // --- Effects ------------------------------------------------------------

  function Enqueued(x: Run, n: Node): Run {
    x.(row := Enqueue(x.row, n), want := Some(n))
  }

  function AdmittedAt(x: Run, d: Id, n: Node): Run {
    x.(row := Admit(x.row), want := None, admitted := true,
       drivers := x.drivers[d := Driver(n, Polling, 0, map[], None)])
  }

  function Finished(x: Run, st: Status): Run {
    x.(row := Finish(x.row, st))
  }

  /** Enter `cur`: snapshot at a checkpoint node, bump the iteration, open the
      visit.  The snapshot writes the driver's whole in-memory checkpoint map. */
  function EnteredRow(row: RunRow, dr: Driver, cur: Node): RunRow {
    row.(admission := if cur in row.checkpoints then dr.cp else row.admission,
         visits := row.visits + [Visit(cur, Get(dr.iter, cur) + 1, VRunning)])
  }

  function SavedAs(o: Outcome): VisitStatus {
    match o
    case Paused(_) => VWaiting
    case FinalFailure => VFailed
    case SandboxSetup => VFailed
    case Routed(st, _) => st
  }

  /** Save the visit of `node`, then apply what the outcome does to the run. */
  function ReturnedRow(row: RunRow, k: nat, node: Node, o: Outcome): RunRow {
    var row1 := row.(visits := Save(row.visits, node, k, SavedAs(o)));
    match o
    case Paused(pending) => if pending && row1.status == Running then row1.(status := WaitingHuman) else row1
    case FinalFailure => Finish(row1, Failed)
    case SandboxSetup => row1
    case Routed(_, _) => row1
  }

  /** A driver step changes the row, the slot, the recorded node, and itself. */
  datatype Move = Move(row: RunRow, slot: Slot, want: Option<Node>, dr: Driver)

  function DriverMove(x: Run, e: Step, dr: Driver): Move
    requires DriverEnabled(x, e, dr)
  {
    var stay := Move(x.row, x.slot, x.want, dr);
    match e
    case Acquire(_) => stay.(slot := Begin(x.slot).0, dr := dr.(phase := Acquired, gen := Begin(x.slot).1.value))
    case Timeout(_) =>
      if x.row.status == Running
      then stay.(row := Enqueue(x.row, dr.from), want := Some(dr.from), dr := dr.(phase := Releasing))
      else stay.(dr := dr.(phase := Releasing))
    case Load(_) =>
      stay.(dr := dr.(iter := LoadedIterations(x.row.visits), cp := x.row.admission,
                      phase := if Terminal(x.row.status) then Leaving else AtTop(Some(dr.from))))
    case Crash(_) => stay.(row := Finish(x.row, Failed), dr := dr.(phase := Leaving))
    case Abandon(_) => stay.(dr := dr.(phase := Leaving))
    case Enter(_) =>
      var cur := dr.phase.cur.value;
      stay.(row := EnteredRow(x.row, dr, cur),
            dr := dr.(iter := dr.iter[cur := Get(dr.iter, cur) + 1], phase := InNode(cur)))
    case NotFound(_) => stay.(row := Finish(x.row, Failed), dr := dr.(phase := Leaving))
    case Drain(_) =>
      stay.(row := if Terminal(x.row.status) then x.row else Finish(x.row, Completed), dr := dr.(phase := Leaving))
    case Return(_, o) =>
      if !Owns(x.slot, dr) || x.row.status == Cancelled || x.row.status == Failed then stay.(dr := dr.(phase := Leaving))
      else stay.(row := ReturnedRow(x.row, Get(dr.iter, dr.phase.node), dr.phase.node, o),
                 dr := dr.(phase := if o.Routed? then AtTop(o.next) else Leaving))
    case Leave(_) => stay.(slot := End(x.slot, dr.gen), dr := dr.(phase := Releasing))
  }

  function Moved(x: Run, d: Id, m: Move): Run {
    x.(row := m.row, slot := m.slot, want := m.want, drivers := x.drivers[d := m.dr])
  }

  function Apply(x: Run, e: Step): Run
    requires Enabled(x, e)
  {
    match e
    case Claim(d) => AdmittedAt(x, d, ClaimNode(x.row).value)
    case Resume(t, n) => x.(tasks := x.tasks[t := Task(n, Wants)])
    case TaskAcquire(t) => x.(tasks := x.tasks[t := x.tasks[t].(phase := Holds)])
    case TaskFull(t) => x.(tasks := x.tasks[t := x.tasks[t].(phase := MustQueue)])
    case TaskAdmit(t, d) => AdmittedAt(x, d, x.tasks[t].node).(tasks := x.tasks - {t})
    case TaskRefused(t) => x.(tasks := x.tasks[t := x.tasks[t].(phase := MustQueue)])
    case TaskQueue(t) => Enqueued(x, x.tasks[t].node).(tasks := x.tasks - {t})
    case ResumerSave(n, k, saved) => x.(row := x.row.(visits := Save(x.row.visits, n, k, saved)))
    case RowSave(i, saved) => x.(row := x.row.(visits := x.row.visits[i := x.row.visits[i].(status := saved)]))
    case ForceClear => x.(slot := ForceEnd(x.slot))
    case Terminate(st) => Finished(x, st)
    case Release(d) => x.(drivers := x.drivers - {d})
    case _ => Moved(x, e.d, DriverMove(x, e, x.drivers[e.d]))
  }

  // --- Slots ----------------------------------------------------------------

  function Holders(tasks: map<Id, Task>): set<Id> {
    set t | t in tasks && tasks[t].phase == Holds
  }

  /** Slots this run has in use: live drivers plus undecided acquisitions. */
  function SlotsUsed(x: Run): nat {
    |x.drivers.Keys| + |Holders(x.tasks)|
  }

  /** How a step changes the number of slots in use. */
  function SlotDelta(e: Step): int {
    match e
    case Claim(_) => 1
    case TaskAcquire(_) => 1
    case TaskRefused(_) => -1
    case Release(_) => -1
    case _ => 0
  }

  /** A step of one of the drivers that keeps it in the table. */
  predicate ByDriver(e: Step) {
    e.Acquire? || e.Timeout? || e.Load? || e.Crash? || e.Abandon? || e.Enter? || e.NotFound? || e.Drain? || e.Return? || e.Leave?
  }

  lemma SlotsFollow(x: Run, e: Step)
    requires Enabled(x, e)
    ensures SlotsUsed(Apply(x, e)) == SlotsUsed(x) + SlotDelta(e)
  {
    if ByDriver(e) {
      var m := DriverMove(x, e, x.drivers[e.d]);
      assert Apply(x, e) == Moved(x, e.d, m);
      MovedKeepsSlots(x, e.d, m);
    } else {
      SlotsFollowTasks(x, e);
    }
  }

  lemma MovedKeepsSlots(x: Run, d: Id, m: Move)
    requires d in x.drivers
    ensures SlotsUsed(Moved(x, d, m)) == SlotsUsed(x)
  {
  }

  lemma TaskPut(tasks: map<Id, Task>, t: Id, task: Task)
    ensures Holders(tasks[t := task]) == if task.phase == Holds then Holders(tasks) + {t} else Holders(tasks) - {t}
  {
  }

  lemma TaskGone(tasks: map<Id, Task>, t: Id)
    ensures Holders(tasks - {t}) == Holders(tasks) - {t}
  {
  }

  lemma SlotsFollowTasks(x: Run, e: Step)
    requires Enabled(x, e) && !ByDriver(e)
    ensures SlotsUsed(Apply(x, e)) == SlotsUsed(x) + SlotDelta(e)
  {
    match e {
      case Claim(d) => SlotsAdmitted(x, d, ClaimNode(x.row).value);
      case Release(d) => assert (x.drivers - {d}).Keys == x.drivers.Keys - {d};
      case TaskAdmit(t, d) =>
        SlotsAdmitted(x, d, x.tasks[t].node);
        TaskGone(x.tasks, t);
        assert Apply(x, e).drivers == AdmittedAt(x, d, x.tasks[t].node).drivers;
      case TaskQueue(t) => TaskGone(x.tasks, t);
      case Resume(t, n) => TaskPut(x.tasks, t, Task(n, Wants));
      case TaskAcquire(t) => TaskPut(x.tasks, t, x.tasks[t].(phase := Holds));
      case TaskFull(t) => TaskPut(x.tasks, t, x.tasks[t].(phase := MustQueue));
      case TaskRefused(t) => TaskPut(x.tasks, t, x.tasks[t].(phase := MustQueue));
      case ResumerSave(_, _, _) =>
      case RowSave(_, _) =>
      case ForceClear =>
      case Terminate(_) =>
    }
  }

  lemma SlotsAdmitted(x: Run, d: Id, n: Node)
    requires d !in x.drivers
    ensures SlotsUsed(AdmittedAt(x, d, n)) == SlotsUsed(x) + 1
  {
  }

  // --- Ownership --------------------------------------------------------------

  predicate OwnerOf(x: Run, d: Id) {
    d in x.drivers && HasGen(x.drivers[d].phase) && x.drivers[d].gen == x.slot.gen
  }

  /** The step that makes the run's generation counter start again from 0. */
  predicate Wraps(x: Run, e: Step) {
    x.slot.gen + 1 == WRAP && (e.Acquire? || (e.ForceClear? && x.slot.held))
  }

  /** Generations are never shared, a driver showing the current one still holds
      the slot, and a held slot has a live driver. */
  ghost predicate Owned(x: Run) {
    && (forall d :: d in x.drivers && HasGen(x.drivers[d].phase) ==> x.drivers[d].gen <= x.slot.gen)
    && (forall d :: OwnerOf(x, d) ==> x.slot.held)
    && (forall d, e :: (d in x.drivers && e in x.drivers && d != e && HasGen(x.drivers[d].phase) && HasGen(x.drivers[e].phase))
          ==> x.drivers[d].gen != x.drivers[e].gen)
    && (x.slot.held ==> exists d :: OwnerOf(x, d))
  }

  /** What a driver's own step may do to the slot: nothing, take a free one, or
      end with the generation it holds. */
  predicate FairMove(x: Run, dr: Driver, m: Move) {
    || (m.slot == x.slot && HasGen(m.dr.phase) == HasGen(dr.phase) && m.dr.gen == dr.gen)
    || (m.slot == x.slot && !HasGen(m.dr.phase) && !HasGen(dr.phase))
    || (!HasGen(dr.phase) && !x.slot.held && HasGen(m.dr.phase) && m.slot == Begin(x.slot).0 && m.dr.gen == m.slot.gen)
    || (HasGen(dr.phase) && m.slot == End(x.slot, dr.gen) && !HasGen(m.dr.phase))
  }

  lemma DriverMovesFairly(x: Run, e: Step)
    requires ByDriver(e) && Enabled(x, e)
    ensures FairMove(x, x.drivers[e.d], DriverMove(x, e, x.drivers[e.d]))
  {
  }

  lemma OwnedMove(x: Run, d: Id, m: Move)
    requires Owned(x) && d in x.drivers && FairMove(x, x.drivers[d], m) && x.slot.gen <= m.slot.gen
    ensures Owned(Moved(x, d, m))
  {
    var y := Moved(x, d, m);
    if !x.slot.held && y.slot.held {
      assert OwnerOf(y, d);
    } else if y.slot.held {
      var o :| OwnerOf(x, o);
      assert OwnerOf(y, o);
    }
    forall o | OwnerOf(y, o) ensures y.slot.held {
      assert OwnerOf(x, o) || o == d;
      if OwnerOf(x, d) && o != d {
        assert x.drivers[o].gen != x.drivers[d].gen;
      }
    }
  }

  lemma OwnedStep(x: Run, e: Step)
    requires Owned(x) && Enabled(x, e) && !Wraps(x, e)
    ensures Owned(Apply(x, e))
  {
    if ByDriver(e) {
      DriverMovesFairly(x, e);
      OwnedMove(x, e.d, DriverMove(x, e, x.drivers[e.d]));
    } else {
      OwnedOutside(x, e);
    }
  }

  /** The slot is force-cleared or untouched, and no driver gains a generation. */
  ghost predicate FairOutside(x: Run, y: Run) {
    && (y.slot == x.slot || y.slot == ForceEnd(x.slot))
    && (forall d :: d in y.drivers && HasGen(y.drivers[d].phase) ==> d in x.drivers && y.drivers[d] == x.drivers[d])
    && (forall d :: d in x.drivers && HasGen(x.drivers[d].phase) ==> d in y.drivers && y.drivers[d] == x.drivers[d])
  }

  lemma StepsFairlyOutside(x: Run, e: Step)
    requires Enabled(x, e) && !ByDriver(e)
    ensures FairOutside(x, Apply(x, e))
  {
  }

  lemma OwnedFair(x: Run, y: Run)
    requires Owned(x) && FairOutside(x, y) && x.slot.gen <= y.slot.gen
    ensures Owned(y)
  {
    if y.slot.held {
      var o :| OwnerOf(x, o);
      assert OwnerOf(y, o);
    }
    forall o | OwnerOf(y, o) ensures y.slot.held {
      assert x.drivers[o].gen <= x.slot.gen;
      assert y.slot == x.slot ==> OwnerOf(x, o);
    }
  }

  lemma OwnedOutside(x: Run, e: Step)
    requires Owned(x) && Enabled(x, e) && !ByDriver(e) && !Wraps(x, e)
    ensures Owned(Apply(x, e))
  {
    StepsFairlyOutside(x, e);
    OwnedFair(x, Apply(x, e));
  }

  // --- Iteration numbers ------------------------------------------------------

  /** The loaded owner's numbering is the recorded maximum, for every node. */
  ghost predicate InStep(dr: Driver, visits: seq<Visit>) {
    && (forall n :: Get(dr.iter, n) == MaxIteration(visits, n))
    && (dr.phase.InNode? ==> Get(dr.iter, dr.phase.node) >= 1 && HasVisit(visits, dr.phase.node, Get(dr.iter, dr.phase.node)))
  }

  ghost predicate Numbered(x: Run) {
    && Unique(x.row.visits)
    && (forall d :: d in x.drivers && Loaded(x.drivers[d].phase) && Owns(x.slot, x.drivers[d]) ==>
          InStep(x.drivers[d], x.row.visits))
  }

  lemma InStepSame(dr: Driver, a: seq<Visit>, b: seq<Visit>)
    requires InStep(dr, a) && SameVisits(a, b)
    ensures InStep(dr, b)
  {
    forall n ensures Get(dr.iter, n) == MaxIteration(b, n) {
      MaxSame(a, b, n);
    }
    if dr.phase.InNode? {
      var i :| 0 <= i < |a| && a[i].node == dr.phase.node && a[i].iteration == Get(dr.iter, dr.phase.node);
      assert b[i].node == dr.phase.node;
    }
  }

  /** Nobody opened a visit, and the loaded owners were loaded owners before. */
  ghost predicate Quiet(x: Run, y: Run) {
    && SameVisits(x.row.visits, y.row.visits)
    && forall d :: d in y.drivers && Loaded(y.drivers[d].phase) && Owns(y.slot, y.drivers[d]) ==>
         && d in x.drivers && Loaded(x.drivers[d].phase) && Owns(x.slot, x.drivers[d])
         && y.drivers[d].iter == x.drivers[d].iter
         && (y.drivers[d].phase.InNode? ==> y.drivers[d].phase == x.drivers[d].phase)
  }

  lemma NumberedQuiet(x: Run, y: Run)
    requires Numbered(x) && Quiet(x, y)
    ensures Numbered(y)
  {
    forall d | d in y.drivers && Loaded(y.drivers[d].phase) && Owns(y.slot, y.drivers[d])
      ensures InStep(y.drivers[d], y.row.visits)
    {
      InStepSame(x.drivers[d], x.row.visits, y.row.visits);
    }
  }

  lemma OneOwner(x: Run, d: Id, e: Id)
    requires Owned(x) && d in x.drivers && e in x.drivers
    requires Owns(x.slot, x.drivers[d]) && Owns(x.slot, x.drivers[e])
    ensures d == e
  {
  }

  lemma InStepEnter(dr: Driver, cur: Node, visits: seq<Visit>)
    requires forall n :: Get(dr.iter, n) == MaxIteration(visits, n)
    ensures var k := Get(dr.iter, cur) + 1;
            InStep(dr.(iter := dr.iter[cur := k], phase := InNode(cur)), visits + [Visit(cur, k, VRunning)])
  {
    var k := Get(dr.iter, cur) + 1;
    var v := Visit(cur, k, VRunning);
    forall n ensures Get(dr.iter[cur := k], n) == MaxIteration(visits + [v], n) {
      MaxAppend(visits, v, n);
    }
    assert (visits + [v])[|visits|] == v;
  }

  lemma NumberedOpened(x: Run, d: Id, m: Move)
    requires Owned(x) && d in x.drivers && Owns(x.slot, x.drivers[d])
    requires m.slot == x.slot && Unique(m.row.visits) && InStep(m.dr, m.row.visits)
    ensures Numbered(Moved(x, d, m))
  {
  }

  lemma NumberedEnter(x: Run, d: Id)
    requires Owned(x) && Numbered(x) && Enabled(x, Enter(d))
    ensures Numbered(Apply(x, Enter(d)))
  {
    var dr := x.drivers[d];
    var cur := dr.phase.cur.value;
    assert InStep(dr, x.row.visits);
    assert Get(dr.iter, cur) == MaxIteration(x.row.visits, cur);
    OpenNextIsFresh(x.row.visits, cur, VRunning);
    InStepEnter(dr, cur, x.row.visits);
    NumberedOpened(x, d, DriverMove(x, Enter(d), dr));
  }

  lemma NumberedLoad(x: Run, d: Id)
    requires Owned(x) && Numbered(x) && Enabled(x, Load(d))
    ensures Numbered(Apply(x, Load(d)))
  {
    var y := Apply(x, Load(d));
    forall n ensures Get(y.drivers[d].iter, n) == MaxIteration(y.row.visits, n) {
      LoadedIsMax(x.row.visits, n);
    }
    forall o | o in y.drivers && Loaded(y.drivers[o].phase) && Owns(y.slot, y.drivers[o])
      ensures InStep(y.drivers[o], y.row.visits)
    {
      if o != d {
        assert InStep(x.drivers[o], x.row.visits);
      }
    }
  }

  lemma NumberedStep(x: Run, e: Step)
    requires Owned(x) && Numbered(x) && Enabled(x, e) && !Wraps(x, e)
    ensures Numbered(Apply(x, e))
  {
    if e.Enter? {
      NumberedEnter(x, e.d);
    } else if e.Load? {
      NumberedLoad(x, e.d);
    } else if e.Return? {
      NumberedReturn(x, e.d, e.o);
    } else {
      QuietOtherwise(x, e);
      NumberedQuiet(x, Apply(x, e));
    }
  }

  lemma NumberedReturn(x: Run, d: Id, o: Outcome)
    requires Numbered(x) && Enabled(x, Return(d, o))
    ensures Numbered(Apply(x, Return(d, o)))
  {
    var dr := x.drivers[d];
    var m := DriverMove(x, Return(d, o), dr);
    if Owns(x.slot, dr) && Loaded(dr.phase) {
      assert InStep(dr, x.row.visits);
      SaveContinues(x.row.visits, dr.phase.node, Get(dr.iter, dr.phase.node), SavedAs(o));
      ReturnedSameVisits(x.row, Get(dr.iter, dr.phase.node), dr.phase.node, o);
    }
    ReturnMoves(x, d, o);
    hide Numbered, DriverMove, Save;
    NumberedMoved(x, d, m);
  }

  lemma ReturnMoves(x: Run, d: Id, o: Outcome)
    requires Enabled(x, Return(d, o))
    ensures var m, dr := DriverMove(x, Return(d, o), x.drivers[d]), x.drivers[d];
            m.slot == x.slot && m.dr.iter == dr.iter && m.dr.gen == dr.gen && !m.dr.phase.InNode?
  {
  }

  lemma ReturnedSameVisits(row: RunRow, k: nat, node: Node, o: Outcome)
    requires SameVisits(row.visits, Save(row.visits, node, k, SavedAs(o)))
    ensures SameVisits(row.visits, ReturnedRow(row, k, node, o).visits)
  {
  }

  lemma NumberedMoved(x: Run, d: Id, m: Move)
    requires Numbered(x) && d in x.drivers && SameVisits(x.row.visits, m.row.visits)
    requires m.slot == x.slot && m.dr.iter == x.drivers[d].iter && m.dr.gen == x.drivers[d].gen
    requires Loaded(x.drivers[d].phase) && !m.dr.phase.InNode?
    ensures Numbered(Moved(x, d, m))
  {
    NumberedQuiet(x, Moved(x, d, m));
  }

  lemma QuietOtherwise(x: Run, e: Step)
    requires Owned(x) && Enabled(x, e) && !e.Enter? && !e.Load? && !e.Return? && !Wraps(x, e)
    ensures Quiet(x, Apply(x, e))
  {
    if ByDriver(e) {
      hide DriverMove, Owned, Quiet, Moved, FairMove, SameVisits, Loaded;
      DriverMovesFairly(x, e);
      OtherMovesKeepVisits(x, e);
      QuietMove(x, e.d, DriverMove(x, e, x.drivers[e.d]));
    } else {
      QuietOutside(x, e);
    }
  }

  lemma OtherMovesKeepVisits(x: Run, e: Step)
    requires ByDriver(e) && Enabled(x, e) && !e.Enter? && !e.Load? && !e.Return?
    ensures var m := DriverMove(x, e, x.drivers[e.d]);
            SameVisits(x.row.visits, m.row.visits) && !Loaded(m.dr.phase)
  {
  }

  lemma QuietMove(x: Run, d: Id, m: Move)
    requires Owned(x) && d in x.drivers && FairMove(x, x.drivers[d], m) && x.slot.gen <= m.slot.gen
    requires SameVisits(x.row.visits, m.row.visits) && !Loaded(m.dr.phase)
    ensures Quiet(x, Moved(x, d, m))
  {
  }

  lemma QuietOutside(x: Run, e: Step)
    requires Owned(x) && Enabled(x, e) && !ByDriver(e) && !Wraps(x, e)
    ensures Quiet(x, Apply(x, e))
  {
    var y := Apply(x, e);
    assert SameVisits(x.row.visits, y.row.visits);
    forall o | o in y.drivers && Loaded(y.drivers[o].phase) && Owns(y.slot, y.drivers[o])
      ensures o in x.drivers && y.drivers[o] == x.drivers[o] && Owns(x.slot, x.drivers[o])
    {
    }
  }

  // --- No visit comes back to life ------------------------------------------

  /** A row saved over a visit that failed or was cancelled since it was read. */
  predicate Revives(x: Run, e: Step) {
    e.RowSave? && e.i < |x.row.visits| && Dead(x.row.visits[e.i].status) && !Dead(e.saved)
  }

  lemma ContinuesStep(x: Run, e: Step)
    requires Enabled(x, e)
    ensures Continues(x.row.visits, Apply(x, e).row.visits) <==> !Revives(x, e)
  {
    if e.Return? {
      ContinuesReturn(x, e.d, e.o);
    } else if e.ResumerSave? {
      SaveContinues(x.row.visits, e.n, e.k, e.saved);
    } else if !e.RowSave? {
      hide Revives, Save;
      ContinuesOtherwise(x, e);
    }
  }

  lemma ContinuesReturn(x: Run, d: Id, o: Outcome)
    requires Enabled(x, Return(d, o))
    ensures Continues(x.row.visits, Apply(x, Return(d, o)).row.visits)
  {
    hide Save, MaxIteration, FindVisit;
    var dr := x.drivers[d];
    SaveContinues(x.row.visits, dr.phase.node, Get(dr.iter, dr.phase.node), SavedAs(o));
  }

  lemma ContinuesOtherwise(x: Run, e: Step)
    requires Enabled(x, e) && !e.Return? && !e.ResumerSave? && !e.RowSave?
    ensures Continues(x.row.visits, Apply(x, e).row.visits) && !Revives(x, e)
  {
    hide Save, MaxIteration, FindVisit;
  }

  /** A driver whose slot was force-cleared while its node ran neither saves the
      visit nor routes on: its return changes nothing but its own phase. */
  lemma LateReturnIsInert(x: Run, d: Id, o: Outcome)
    requires Enabled(x, Return(d, o)) && !Owns(x.slot, x.drivers[d])
    ensures var y := Apply(x, Return(d, o));
            y.row == x.row && y.slot == x.slot && y.want == x.want && y.drivers[d].phase == Leaving
  {
  }

  /** After that the driver stays without ownership and leaves the run alone, but for two
      unguarded writes: a panic fails the run, and a loop that had already ended completes it. */
  lemma ClearedDriverIsInert(x: Run, e: Step)
    requires Enabled(x, e) && ByDriver(e) && HasGen(x.drivers[e.d].phase) && !Owns(x.slot, x.drivers[e.d])
    ensures var y := Apply(x, e);
            && y.slot == x.slot && y.want == x.want && !Owns(y.slot, y.drivers[e.d])
            && y.row == if e.Crash? then Finish(x.row, Failed)
                        else if e.Drain? && !Terminal(x.row.status) then Finish(x.row, Completed)
                        else x.row
  {
  }

  // --- The resume point ------------------------------------------------------

  /** What keeps a queued run resumable at the node its last enqueue recorded. */
  ghost predicate Resumable(x: Run) {
    && (x.row.status == Queued && x.want.Some? ==> x.row.admission == x.want)
    && (x.row.status == Queued && x.admitted ==> x.want.Some?)
    && (x.row.status == Queued && x.want.None? ==> x.row.admission.None?)
    && (x.want == Some("") ==> x.row.start == Some(""))
    && (forall d :: d in x.drivers ==> x.admitted && (x.drivers[d].from == "" ==> x.row.start == Some("")))
    && (forall t :: t in x.tasks ==> x.tasks[t].node != "")
  }

  /** The one step that loses a recorded node: a driver that still owns the run
      enters a checkpoint node while the run is queued, and its in-memory
      checkpoint map does not hold the recorded node. */
  predicate Forgets(x: Run, e: Step) {
    && Enabled(x, e) && e.Enter? && x.row.status == Queued
    && x.drivers[e.d].phase.cur.value in x.row.checkpoints
    && x.drivers[e.d].cp != x.want
  }

  lemma ResumableStep(x: Run, e: Step)
    requires Resumable(x) && Enabled(x, e)
    ensures Resumable(Apply(x, e)) <==> !Forgets(x, e)
  {
    if e.Enter? {
      ResumableEnter(x, e.d);
    } else if ByDriver(e) {
      ResumableByDriver(x, e);
    } else {
      ResumableOutside(x, e);
    }
  }

  lemma ResumableEnter(x: Run, d: Id)
    requires Resumable(x) && Enabled(x, Enter(d))
    ensures Resumable(Apply(x, Enter(d))) <==> !Forgets(x, Enter(d))
  {
  }

  lemma ResumableByDriver(x: Run, e: Step)
    requires Resumable(x) && ByDriver(e) && Enabled(x, e) && !e.Enter?
    ensures Resumable(Apply(x, e))
  {
    var m := DriverMove(x, e, x.drivers[e.d]);
    assert m.dr.from == x.drivers[e.d].from && m.row.start == x.row.start;
    assert m.row.status == Queued ==> (m.row.admission == x.row.admission && m.want == x.want && x.row.status == Queued)
                                      || (m.row.admission == m.want == Some(m.dr.from));
    assert m.want == x.want || m.want == Some(m.dr.from);
    assert Apply(x, e) == Moved(x, e.d, m);
  }

  lemma ResumableOutside(x: Run, e: Step)
    requires Resumable(x) && !ByDriver(e) && Enabled(x, e)
    ensures Resumable(Apply(x, e))
  {
  }

  /** A queued run that is resumable is driven from exactly the recorded node,
      and only a run that was never admitted falls back to the start node. */
  lemma ClaimDrivesRecordedNode(x: Run, d: Id)
    requires Resumable(x) && Enabled(x, Claim(d))
    ensures var y := Apply(x, Claim(d));
            && (x.admitted ==> x.want == Some(y.drivers[d].from))
            && (x.want.Some? ==> x.want.value == y.drivers[d].from)
            && (x.want.None? ==> x.row.start == Some(y.drivers[d].from))
  {
  }
}
