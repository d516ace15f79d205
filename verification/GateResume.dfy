/** Pauses for a human, for one run: drivers that pause, approvers that resolve a gate
    or confirm a dialogue under a per-node lock, the admissions those resumes schedule, and
    whatever saves the row of a pause without holding the lock.  Each critical section or
    database write is a step; a driver's pending test and its `finish("waiting_human")` are
    one step. */
module GateResume {
  import opened RunStore

  type Id = nat

  /** One gate visit, or one dialogue, which is resolved when it is done; `scheduled`
      counts how often the run went on from it: by a resume, or by the driver that
      concluded the dialogue itself. */
  datatype Gate = Gate(resolved: bool, scheduled: nat)

  /** A resumeGateLocked call, a forced reactReply or a dialogue turn: waiting for the node's
      lock, past the tests on visit `i`, or past the write that resolves it. */
  datatype Phase = Entering | Checked(i: nat) | Saved(i: nat)

  datatype Resumer = Resumer(node: Node, phase: Phase)

  /** Whoever read visit `i` of a node while it was open and may save the whole row later:
      an artifact edit, the refresh after a producer's revision, or the rounds in which
      a driver answers a dialogue by itself. */
  datatype Writer = Writer(node: Node, i: nat)

  datatype State = State(
    status: Status,
    proposals: set<Node>,             // proposal_select nodes
    dialogues: set<Node>,             // react, approve and review nodes; the others are human gates
    gates: map<Node, seq<Gate>>,      // visits per node, oldest first
    driving: set<Id>,                 // drivers that advance the run
    pausing: map<Id, Node>,           // drivers whose node just paused
    resumers: map<Id, Resumer>,
    writers: map<Id, Writer>,
    tasks: set<Id>,                   // scheduled admissions not yet decided
    failed: bool)                     // some visit of the run has failed

  datatype Step =
    | Open(d: Id, n: Node)
    | LateOpen(n: Node)
    | Pause(d: Id)
    | Lose(d: Id)
    | GiveUp(d: Id)
    | NodeFails(d: Id)
    | TurnFails(t: Id)
    | MarkFailed
    | Request(t: Id, n: Node)
    | Check(t: Id)
    | Reject(t: Id)
    | SaveGate(t: Id)
    | Schedule(t: Id, a: Id)
    | Reopen(t: Id)
    | SelectionFails(t: Id)
    | EndRun(t: Id, st: Status)
    | Read(w: Id, n: Node, i: nat)
    | Write(w: Id)
    | Forget(w: Id)
    | Conclude(d: Id, w: Id)
    | LateConclude(w: Id)
    | Admit(a: Id, d: Id)
    | Enqueue(a: Id)
    | Dispatch(d: Id)
    | Terminate(st: Status)
    | Retry(a: Id)

  // LateOpen and LateConclude are the work of a driver that no longer owns the run.  Lose is
  // a driver that leaves without touching the status or its visit: force-cleared.  GiveUp is
  // one that records a failed sandbox setup and leaves the status alone.  NodeFails records a
  // failure that is routed on, TurnFails a dialogue's, MarkFailed the visits a failed run left
  // active.  Conclude is the round in which a dialogue ends and its driver goes on.

  predicate Inside(p: Phase) {
    !p.Entering?
  }

  function Visits(s: State, n: Node): seq<Gate> {
    if n in s.gates then s.gates[n] else []
  }

  /** The latest visit of `n` is open. */
  predicate Pending(s: State, n: Node) {
    var g := Visits(s, n);
    g != [] && !g[|g| - 1].resolved
  }

  predicate Locked(s: State, n: Node) {
    exists t :: t in s.resumers && s.resumers[t].node == n && Inside(s.resumers[t].phase)
  }

  /** `t` holds its node's lock, past the write, on an existing visit. */
  predicate AtSaved(s: State, t: Id) {
    t in s.resumers && s.resumers[t].phase.Saved? && s.resumers[t].phase.i < |Visits(s, s.resumers[t].node)|
  }

  /** `w` read a visit that exists. */
  predicate AtRow(s: State, w: Id) {
    w in s.writers && s.writers[w].i < |Visits(s, s.writers[w].node)|
  }

  /** ResumeFrom takes an ended run, and a running one in which a visit failed. */
  predicate MayRetry(s: State) {
    s.status == Failed || s.status == Cancelled || (s.status == Running && s.failed)
  }

  predicate Enabled(s: State, e: Step) {
    match e
    case Open(d, n) => d in s.driving && d !in s.pausing
    case LateOpen(n) => true
    case Pause(d) => d in s.pausing
    case Lose(d) => d in s.driving
    case GiveUp(d) => d in s.driving
    case NodeFails(d) => d in s.driving
    case TurnFails(t) => AtSaved(s, t) && s.resumers[t].node in s.dialogues
    case MarkFailed => s.status == Failed
    case Request(t, n) => t !in s.resumers
    case Check(t) =>
      t in s.resumers && s.resumers[t].phase.Entering? && !Locked(s, s.resumers[t].node)
      && (s.resumers[t].node in s.dialogues || !Terminal(s.status)) && Pending(s, s.resumers[t].node)
    case Reject(t) => t in s.resumers && !s.resumers[t].phase.Saved?
    case SaveGate(t) =>
      t in s.resumers && s.resumers[t].phase.Checked? && s.resumers[t].phase.i < |Visits(s, s.resumers[t].node)|
    case Schedule(t, a) => AtSaved(s, t) && a !in s.tasks
    case Reopen(t) => AtSaved(s, t) && s.resumers[t].node !in s.proposals
    case SelectionFails(t) => AtSaved(s, t) && s.resumers[t].node in s.proposals
    case EndRun(t, st) => AtSaved(s, t) && Terminal(st)
    case Read(w, n, i) => w !in s.writers && i < |Visits(s, n)| && !Visits(s, n)[i].resolved
    case Write(w) => AtRow(s, w)
    case Forget(w) => w in s.writers
    case Conclude(d, w) =>
      AtRow(s, w) && s.writers[w].node in s.dialogues && d in s.pausing && s.pausing[d] == s.writers[w].node && d !in s.driving
    case LateConclude(w) => AtRow(s, w) && s.writers[w].node in s.dialogues
    case Admit(a, d) => a in s.tasks && s.status != Running && d !in s.driving && d !in s.pausing
    case Enqueue(a) => a in s.tasks
    case Dispatch(d) => s.status == Queued && d !in s.driving && d !in s.pausing
    case Terminate(st) => Terminal(st)
    case Retry(a) => a !in s.tasks && MayRetry(s)
  }

  function SetGate(s: State, n: Node, i: nat, g: Gate): (y: State)
    requires i < |Visits(s, n)|
    ensures y == s.(gates := y.gates)
  {
    s.(gates := s.gates[n := Visits(s, n)[i := g]])
  }

  /** The row `w` read is saved, open or done. */
  function Overwritten(s: State, w: Id, resolved: bool): (y: State)
    requires AtRow(s, w)
    ensures y == s.(gates := y.gates)
  {
    var x := s.writers[w];
    SetGate(s, x.node, x.i, Visits(s, x.node)[x.i].(resolved := resolved))
  }

  function Opened(s: State, n: Node): (y: State)
    ensures y == s.(gates := y.gates)
  {
    s.(gates := s.gates[n := Visits(s, n) + [Gate(false, 0)]])
  }

  function Superseded(gates: seq<Gate>): seq<Gate> {
    seq(|gates|, i requires 0 <= i < |gates| => gates[i].(resolved := true))
  }

  /** finish: failed and cancelled runs supersede every open gate, but no dialogue. */
  function Finished(s: State, st: Status): (y: State)
    ensures y == s.(status := st, gates := y.gates)
  {
    if st == Failed || st == Cancelled
    then s.(status := st,
            gates := map n | n in s.gates :: if n in s.dialogues then s.gates[n] else Superseded(s.gates[n]))
    else s.(status := st)
  }

  function Drop(s: State, t: Id): State {
    s.(resumers := s.resumers - {t})
  }

  function Apply(s: State, e: Step): State
    requires Enabled(s, e)
  {
    match e
    case Open(d, n) => Opened(s, n).(driving := s.driving - {d}, pausing := s.pausing[d := n])
    case LateOpen(n) => Opened(s, n)
    case Pause(d) =>
      s.(pausing := s.pausing - {d},
         status := if Pending(s, s.pausing[d]) && s.status == Running then WaitingHuman else s.status)
    case Lose(d) => s.(driving := s.driving - {d})
    case GiveUp(d) => s.(driving := s.driving - {d}, failed := true)
    case NodeFails(d) => s.(failed := true)
    case TurnFails(t) => s.(failed := true)
    case MarkFailed => s.(failed := true)
    case Request(t, n) => s.(resumers := s.resumers[t := Resumer(n, Entering)])
    case Check(t) =>
      var n := s.resumers[t].node;
      s.(resumers := s.resumers[t := Resumer(n, Checked(|Visits(s, n)| - 1))])
    case Reject(t) => Drop(s, t)
    case SaveGate(t) =>
      var r := s.resumers[t];
      SetGate(s, r.node, r.phase.i, Visits(s, r.node)[r.phase.i].(resolved := true)).(
        resumers := s.resumers[t := Resumer(r.node, Saved(r.phase.i))])
    case Schedule(t, a) =>
      var r := s.resumers[t];
      var g := Visits(s, r.node)[r.phase.i];
      Drop(SetGate(s, r.node, r.phase.i, g.(scheduled := g.scheduled + 1)), t).(tasks := s.tasks + {a})
    case Reopen(t) =>
      var r := s.resumers[t];
      Drop(SetGate(s, r.node, r.phase.i, Visits(s, r.node)[r.phase.i].(resolved := false)), t)
    case SelectionFails(t) => Drop(s, t)
    case EndRun(t, st) => Finished(Drop(s, t), st)
    case Read(w, n, i) => s.(writers := s.writers[w := Writer(n, i)])
    case Write(w) => Overwritten(s, w, false)
    case Forget(w) => s.(writers := s.writers - {w})
    case Conclude(d, w) =>
      var x := s.writers[w];
      SetGate(s, x.node, x.i, Gate(true, Visits(s, x.node)[x.i].scheduled + 1)).(
        writers := s.writers - {w}, pausing := s.pausing - {d}, driving := s.driving + {d})
    case LateConclude(w) => Overwritten(s, w, true).(writers := s.writers - {w})
    case Admit(a, d) => s.(status := Running, tasks := s.tasks - {a}, driving := s.driving + {d})
    case Enqueue(a) => s.(status := Queued, tasks := s.tasks - {a})
    case Dispatch(d) => s.(status := Running, driving := s.driving + {d})
    case Terminate(st) => Finished(s, st)
    case Retry(a) => s.(tasks := s.tasks + {a})
  }

  ghost predicate IsTrace(states: seq<State>, steps: seq<Step>) {
    && |states| == |steps| + 1
    && states[0].gates == map[] && states[0].resumers == map[] && states[0].writers == map[]
    && states[0].status == Running && states[0].driving != {}
    && forall k :: 0 <= k < |steps| ==> Goes(states[k], steps[k], states[k + 1])
  }

  ghost predicate Goes(s: State, e: Step, s': State) {
    Enabled(s, e) && s' == Apply(s, e)
  }

  // --- The lock -------------------------------------------------------------

  /** One approver at a time inside a node's lock, on a visit that exists. */
  ghost predicate Locks(s: State) {
    && (forall t, u :: (t in s.resumers && u in s.resumers && Inside(s.resumers[t].phase) && Inside(s.resumers[u].phase)
                        && s.resumers[t].node == s.resumers[u].node) ==> t == u)
    && (forall t :: t in s.resumers && Inside(s.resumers[t].phase) ==> s.resumers[t].phase.i < |Visits(s, s.resumers[t].node)|)
  }

  /** How a step may change the visits of a node: a pause adds one, and no step but the last
      five lets one go on or opens it again. */
  ghost predicate VisitsFollow(s: State, e: Step, y: State, n: Node) {
    var was, now := Visits(s, n), Visits(y, n);
    && |now| == |was| + (if (e.Open? || e.LateOpen?) && e.n == n then 1 else 0)
    && (|now| > |was| ==> now[|was|] == Gate(false, 0))
    && forall i :: 0 <= i < |was| && !e.Schedule? && !e.Conclude? && !e.Write? && !e.Reopen? ==>
         now[i].scheduled == was[i].scheduled && (was[i].resolved ==> now[i].resolved)
  }

  predicate SavesAVisit(e: Step) {
    e.SaveGate? || e.Schedule? || e.Reopen? || e.Write? || e.Conclude? || e.LateConclude?
  }

  lemma OpenedFollow(s: State, e: Step, n: Node)
    requires Enabled(s, e) && (e.Open? || e.LateOpen?)
    ensures VisitsFollow(s, e, Apply(s, e), n)
  {
  }

  lemma SavedFollow(s: State, e: Step, n: Node)
    requires Enabled(s, e) && SavesAVisit(e)
    ensures VisitsFollow(s, e, Apply(s, e), n)
  {
    hide Locked, Pending, MayRetry, Finished, Opened, SetGate;
    var (m, i) := if e.SaveGate? || e.Schedule? || e.Reopen? then (s.resumers[e.t].node, s.resumers[e.t].phase.i)
                  else (s.writers[e.w].node, s.writers[e.w].i);
    forall g ensures i < |Visits(s, m)| && OnlyVisitSet(s, SetGate(s, m, i, g), m, i, g) { OneVisitSet(s, m, i, g); }
  }

  ghost predicate OnlyVisitSet(s: State, y: State, n: Node, i: nat, g: Gate) {
    forall m :: |Visits(y, m)| == |Visits(s, m)|
      && forall k :: 0 <= k < |Visits(s, m)| ==> Visits(y, m)[k] == if m == n && k == i then g else Visits(s, m)[k]
  }

  lemma OneVisitSet(s: State, n: Node, i: nat, g: Gate)
    requires i < |Visits(s, n)|
    ensures OnlyVisitSet(s, SetGate(s, n, i, g), n, i, g)
  {
  }

  lemma FinishedFollow(s: State, e: Step, n: Node)
    requires Enabled(s, e) && (e.EndRun? || e.Terminate?)
    ensures VisitsFollow(s, e, Apply(s, e), n)
  {
    hide Locked, Pending, MayRetry, Finished;
    var from := if e.EndRun? then Drop(s, e.t) else s;
    FinishedVisits(from, e.st, n);
    assert Apply(s, e) == Finished(from, e.st) && Visits(from, n) == Visits(s, n);
  }

  lemma FinishedVisits(s: State, st: Status, n: Node)
    ensures |Visits(Finished(s, st), n)| == |Visits(s, n)|
    ensures forall i :: 0 <= i < |Visits(s, n)| ==>
              Visits(Finished(s, st), n)[i].scheduled == Visits(s, n)[i].scheduled
              && (Visits(s, n)[i].resolved ==> Visits(Finished(s, st), n)[i].resolved)
  {
  }

  lemma OthersFollow(s: State, e: Step, n: Node)
    requires Enabled(s, e) && !e.Open? && !e.LateOpen? && !SavesAVisit(e) && !e.EndRun? && !e.Terminate?
    ensures VisitsFollow(s, e, Apply(s, e), n)
  {
    hide SetGate, Overwritten, Opened, Finished, Superseded, Locked, Pending, MayRetry;
    assert Apply(s, e).gates == s.gates;
  }

  lemma VisitsStep(s: State, e: Step, n: Node)
    requires Enabled(s, e)
    ensures VisitsFollow(s, e, Apply(s, e), n)
  {
    hide Apply, Enabled, VisitsFollow;
    if e.Open? || e.LateOpen? {
      OpenedFollow(s, e, n);
    } else if SavesAVisit(e) {
      SavedFollow(s, e, n);
    } else if e.EndRun? || e.Terminate? {
      FinishedFollow(s, e, n);
    } else {
      OthersFollow(s, e, n);
    }
  }

  lemma LocksStep(s: State, e: Step)
    requires Locks(s) && Enabled(s, e)
    ensures Locks(Apply(s, e))
  {
    hide Apply, Enabled, Locks;
    if e.Check? {
      LocksCheck(s, e.t);
    } else {
      var y := Apply(s, e);
      forall n ensures |Visits(y, n)| >= |Visits(s, n)| { VisitsStep(s, e, n); }
      ResumersStay(s, e);
      LocksKept(s, e, y);
    }
  }

  lemma LocksKept(s: State, e: Step, y: State)
    requires Locks(s) && !e.Check? && NobodyEnters(s, e, y) && forall n :: |Visits(y, n)| >= |Visits(s, n)|
    ensures Locks(y)
  {
    hide Visits;
  }

  lemma LocksCheck(s: State, t: Id)
    requires Locks(s) && Enabled(s, Check(t))
    ensures Locks(Apply(s, Check(t)))
  {
  }

  predicate ByApprover(e: Step) {
    e.Request? || e.Check? || e.Reject? || e.SaveGate? || e.Schedule? || e.Reopen? || e.SelectionFails? || e.EndRun?
  }

  lemma OthersKeepResumers(s: State, e: Step)
    requires Enabled(s, e) && !ByApprover(e)
    ensures Apply(s, e).resumers == s.resumers
  {
    hide SetGate, Overwritten, Opened, Finished, Superseded, Locked, Pending, MayRetry;
  }

  /** Nobody is inside a lock who was not, but for the approver that passes its tests. */
  ghost predicate NobodyEnters(s: State, e: Step, y: State) {
    forall t :: t in y.resumers && Inside(y.resumers[t].phase) && !(e.Check? && e.t == t) ==>
      t in s.resumers && Inside(s.resumers[t].phase) && s.resumers[t].node == y.resumers[t].node
      && s.resumers[t].phase.i == y.resumers[t].phase.i
  }

  lemma ApproversStay(s: State, e: Step)
    requires Enabled(s, e) && ByApprover(e)
    ensures NobodyEnters(s, e, Apply(s, e))
  {
    hide SetGate, Overwritten, Opened, Finished, Superseded, Locked, Pending, MayRetry;
  }

  lemma ResumersStay(s: State, e: Step)
    requires Enabled(s, e)
    ensures NobodyEnters(s, e, Apply(s, e))
  {
    hide Apply, Enabled;
    if ByApprover(e) { ApproversStay(s, e); } else { OthersKeepResumers(s, e); }
  }

  lemma {:induction false} LocksAlways(states: seq<State>, steps: seq<Step>, k: nat)
    requires IsTrace(states, steps) && k <= |steps|
    ensures Locks(states[k])
  {
    if k > 0 {
      LocksAlways(states, steps, k - 1);
      assert Goes(states[k - 1], steps[k - 1], states[k]);
      LocksStep(states[k - 1], steps[k - 1]);
    }
  }

  // --- No double resume -----------------------------------------------------

  /** The approver of visit `i` of `n` is past its tests. */
  ghost predicate Attended(s: State, n: Node, i: nat) {
    exists t :: t in s.resumers && s.resumers[t].node == n && Inside(s.resumers[t].phase) && s.resumers[t].phase.i == i
  }

  /** A visit continued the run at most once, and one that did takes no approver again: none
      is past its tests, and it is resolved or hidden by a newer visit of the node. */
  ghost predicate Spent(s: State, n: Node, i: nat)
    requires i < |Visits(s, n)|
  {
    var g := Visits(s, n)[i];
    g.scheduled <= 1 && (g.scheduled == 1 ==> !Attended(s, n, i) && (g.resolved || i < |Visits(s, n)| - 1))
  }

  ghost predicate SingleUse(s: State) {
    forall n, i: nat {:trigger Spent(s, n, i)} :: i < |Visits(s, n)| ==> Spent(s, n, i)
  }

  ghost predicate Once(s: State) {
    Locks(s) && SingleUse(s)
  }

  /** The steps that break the rule: the latest visit of a node is saved, from a row read while
      it was open, after the run went on from it; the run goes on from it after such a save
      undid the write that resolved it; or its driver concludes a dialogue from which the run
      went on before, or whose approver is past its tests. */
  ghost predicate Undoes(s: State, e: Step) {
    match e
    case Write(w) =>
      AtRow(s, w) && s.writers[w].i == |Visits(s, s.writers[w].node)| - 1
      && Visits(s, s.writers[w].node)[s.writers[w].i].scheduled > 0
    case Schedule(t, a) =>
      AtSaved(s, t) && s.resumers[t].phase.i == |Visits(s, s.resumers[t].node)| - 1
      && !Visits(s, s.resumers[t].node)[s.resumers[t].phase.i].resolved
    case Conclude(d, w) =>
      AtRow(s, w)
      && (Visits(s, s.writers[w].node)[s.writers[w].i].scheduled > 0 || Attended(s, s.writers[w].node, s.writers[w].i))
    case _ => false
  }

  lemma OnceQuiet(s: State, e: Step)
    requires Once(s) && Enabled(s, e) && !e.Schedule? && !e.Write? && !e.Reopen? && !e.Conclude?
    ensures Once(Apply(s, e))
  {
    var y := Apply(s, e);
    LocksStep(s, e);
    hide Apply, Locks, Enabled, Attended;
    forall n, i: nat | i < |Visits(y, n)| ensures Spent(y, n, i) {
      VisitsStep(s, e, n);
      if i < |Visits(s, n)| {
        assert Spent(s, n, i);
        if Attended(y, n, i) { AttendedBefore(s, e, n, i); }
      }
    }
  }

  /** Only a visit from which the run has not gone on gets an approver. */
  lemma AttendedBefore(s: State, e: Step, n: Node, i: nat)
    requires SingleUse(s) && Enabled(s, e) && i < |Visits(s, n)| && Attended(Apply(s, e), n, i)
    ensures Visits(s, n)[i].scheduled == 0
  {
    var y := Apply(s, e);
    ResumersStay(s, e);
    hide Apply;
    var t :| t in y.resumers && y.resumers[t].node == n && Inside(y.resumers[t].phase) && y.resumers[t].phase.i == i;
    if e.Check? && e.t == t {
      ChecksAnOpenVisit(s, t);
    } else {
      assert Attended(s, n, i);
    }
    assert Spent(s, n, i);
  }

  lemma ChecksAnOpenVisit(s: State, t: Id)
    requires Enabled(s, Check(t))
    ensures var r := Apply(s, Check(t)).resumers[t];
            r.node == s.resumers[t].node && r.phase.i == |Visits(s, r.node)| - 1 && !Visits(s, r.node)[r.phase.i].resolved
  {
  }

  /** Where one visit alone changes, and nobody else gets inside a lock. */
  lemma OnceElsewhere(s: State, y: State, n: Node, i: nat)
    requires Once(s) && Locks(y) && i < |Visits(s, n)|
    requires forall m :: |Visits(y, m)| == |Visits(s, m)|
    requires forall m, k: nat :: k < |Visits(s, m)| && (m, k) != (n, i) ==> Visits(y, m)[k] == Visits(s, m)[k]
    requires forall m, k: nat {:trigger Attended(y, m, k)} :: Attended(y, m, k) ==> Attended(s, m, k)
    ensures Once(y) <==> Spent(y, n, i)
  {
    hide Locks, Attended;
    if Spent(y, n, i) {
      forall m, k: nat | k < |Visits(y, m)| ensures Spent(y, m, k) { assert Spent(s, m, k); }
    }
  }

  lemma OnceSchedule(s: State, t: Id, a: Id)
    requires Once(s) && Enabled(s, Schedule(t, a))
    ensures Once(Apply(s, Schedule(t, a))) <==> !Undoes(s, Schedule(t, a))
  {
    var y, r := Apply(s, Schedule(t, a)), s.resumers[t];
    LocksStep(s, Schedule(t, a));
    assert Attended(s, r.node, r.phase.i) && Spent(s, r.node, r.phase.i);
    assert !Attended(y, r.node, r.phase.i);
    OnceElsewhere(s, y, r.node, r.phase.i);
  }

  lemma OnceReopen(s: State, t: Id)
    requires Once(s) && Enabled(s, Reopen(t))
    ensures Once(Apply(s, Reopen(t)))
  {
    var y, r := Apply(s, Reopen(t)), s.resumers[t];
    LocksStep(s, Reopen(t));
    assert Attended(s, r.node, r.phase.i) && Spent(s, r.node, r.phase.i);
    OnceElsewhere(s, y, r.node, r.phase.i);
  }

  lemma OnceWrite(s: State, w: Id)
    requires Once(s) && Enabled(s, Write(w))
    ensures Once(Apply(s, Write(w))) <==> !Undoes(s, Write(w))
  {
    var y, x := Apply(s, Write(w)), s.writers[w];
    LocksStep(s, Write(w));
    assert Spent(s, x.node, x.i) && (Attended(y, x.node, x.i) <==> Attended(s, x.node, x.i));
    OnceElsewhere(s, y, x.node, x.i);
  }

  lemma OnceConclude(s: State, d: Id, w: Id)
    requires Once(s) && Enabled(s, Conclude(d, w))
    ensures Once(Apply(s, Conclude(d, w))) <==> !Undoes(s, Conclude(d, w))
  {
    var y, x := Apply(s, Conclude(d, w)), s.writers[w];
    LocksStep(s, Conclude(d, w));
    assert Spent(s, x.node, x.i) && (Attended(y, x.node, x.i) <==> Attended(s, x.node, x.i));
    OnceElsewhere(s, y, x.node, x.i);
  }

  lemma OnceStep(s: State, e: Step)
    requires Once(s) && Enabled(s, e)
    ensures Once(Apply(s, e)) <==> !Undoes(s, e)
  {
    match e {
      case Schedule(t, a) => OnceSchedule(s, t, a);
      case Write(w) => OnceWrite(s, w);
      case Reopen(t) => OnceReopen(s, t);
      case Conclude(d, w) => OnceConclude(s, d, w);
      case _ => OnceQuiet(s, e);
    }
  }

  lemma {:induction false} OnceUntil(states: seq<State>, steps: seq<Step>, k: nat)
    requires IsTrace(states, steps) && k <= |steps|
    requires forall j :: 0 <= j < k ==> !Undoes(states[j], steps[j])
    ensures Once(states[k])
  {
    hide Once, Undoes;
    if k > 0 {
      OnceUntil(states, steps, k - 1);
      assert Goes(states[k - 1], steps[k - 1], states[k]);
      OnceStep(states[k - 1], steps[k - 1]);
    } else {
      OnceAtFirst(states[0]);
    }
  }

  lemma OnceAtFirst(s: State)
    requires s.gates == map[] && s.resumers == map[]
    ensures Once(s)
  {
  }

  /** The run goes on from every visit at most once, and a visit from which it did takes no
      approver again, at every moment of a trace, exactly when no step of it saves a row that
      was read open over the latest visit after, or while, the run goes on from it, and no
      driver concludes a dialogue that an approver is concluding. */
  lemma {:induction false} AtMostOneContinuation(states: seq<State>, steps: seq<Step>)
    requires IsTrace(states, steps)
    ensures (forall k :: 0 <= k <= |steps| ==> SingleUse(states[k])) <==>
            (forall k :: 0 <= k < |steps| ==> !Undoes(states[k], steps[k]))
  {
    hide Undoes, SingleUse, Locks;
    if forall k :: 0 <= k < |steps| ==> !Undoes(states[k], steps[k]) {
      forall k | 0 <= k <= |steps| ensures SingleUse(states[k]) { OnceUntil(states, steps, k); }
    } else {
      var k := FirstUndone(states, steps);
      OnceUntil(states, steps, k);
      assert Goes(states[k], steps[k], states[k + 1]);
      OnceStep(states[k], steps[k]);
      LocksAlways(states, steps, k + 1);
    }
  }

  lemma {:induction false} FirstUndone(states: seq<State>, steps: seq<Step>) returns (k: nat)
    requires |states| == |steps| + 1 && exists j :: 0 <= j < |steps| && Undoes(states[j], steps[j])
    ensures k < |steps| && Undoes(states[k], steps[k])
    ensures forall j :: 0 <= j < k ==> !Undoes(states[j], steps[j])
  {
    hide Undoes;
    k := 0;
    while !Undoes(states[k], steps[k])
      invariant k < |steps| && forall j :: 0 <= j < k ==> !Undoes(states[j], steps[j])
      invariant exists j :: k <= j < |steps| && Undoes(states[j], steps[j])
      decreases |steps| - k
    {
      k := k + 1;
    }
  }

  /** An open visit lets another approver continue the run, whether or not it did before. */
  lemma UndoneContinuesTwice(s: State, n: Node, t: Id, a: Id)
    requires Pending(s, n) && !Locked(s, n) && (n in s.dialogues || !Terminal(s.status)) && t !in s.resumers && a !in s.tasks
    ensures Enabled(s, Request(t, n))
    ensures var s1 := Apply(s, Request(t, n));
            Enabled(s1, Check(t)) && var s2 := Apply(s1, Check(t));
            Enabled(s2, SaveGate(t)) && var s3 := Apply(s2, SaveGate(t));
            Enabled(s3, Schedule(t, a)) && var y := Apply(s3, Schedule(t, a));
            var i := |Visits(s, n)| - 1;
            |Visits(y, n)| == i + 1 && Visits(y, n)[i].scheduled == Visits(s, n)[i].scheduled + 1
  {
    assert !Locked(Apply(s, Request(t, n)), n);
  }
}
