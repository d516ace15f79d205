/** All runs of one engine together: they share the concurrency slots and the
    single dispatcher, and otherwise step on their own. */
module RunProtocol {
  import opened ExecSlot
  import opened RunStore
  import A = RunAttended
  import L = RunLocal

  type RunId = string

  /** `cur` and `limit` are the semaphore's; `dispHolds` is set while the
      dispatcher holds a slot it has not decided on. */
  datatype State = State(limit: nat, cur: nat, dispHolds: bool, runs: map<RunId, L.Run>)

  datatype Step =
    | StartRun(r: RunId, start: Option<Node>, nodes: set<Node>, checkpoints: set<Node>)
    | SetLimit(max: int)
    | DispAcquire
    | DispMiss
    | On(r: RunId, e: L.Step)

  const Init := State(1, 0, false, map[])

  function NewRun(start: Option<Node>, nodes: set<Node>, checkpoints: set<Node>): L.Run {
    L.Run(RunRow(Queued, None, start, nodes, checkpoints, []), Slot(false, 0), None, false, map[], map[])
  }

  predicate Enabled(s: State, e: Step) {
    match e
    case StartRun(r, _, _, _) => r !in s.runs
    case SetLimit(_) => true
    case DispAcquire => !s.dispHolds && s.cur < s.limit
    case DispMiss => s.dispHolds
    case On(r, l) =>
      && r in s.runs && L.Enabled(s.runs[r], l)
      && (l.Claim? ==> s.dispHolds)
      && (l.TaskAcquire? ==> s.cur < s.limit)
      && (l.TaskFull? ==> s.cur >= s.limit)
  }

  /** sema.Release never goes below zero. */
  function Less(cur: nat): nat {
    if cur > 0 then cur - 1 else 0
  }

  function Apply(s: State, e: Step): State
    requires Enabled(s, e)
  {
    match e
    case StartRun(r, start, nodes, checkpoints) => s.(runs := s.runs[r := NewRun(start, nodes, checkpoints)])
    case SetLimit(n) => s.(limit := if n <= 0 then 1 else n)
    case DispAcquire => s.(cur := s.cur + 1, dispHolds := true)
    case DispMiss => s.(cur := Less(s.cur), dispHolds := false)
    case On(r, l) =>
      s.(runs := s.runs[r := L.Apply(s.runs[r], l)],
         dispHolds := if l.Claim? then false else s.dispHolds,
         cur := if l.TaskAcquire? then s.cur + 1
                else if l.TaskRefused? || l.Release? then Less(s.cur)
                else s.cur)
  }

  // --- Slots ------------------------------------------------------------------

  /** Slots in use over all runs. */
  ghost function Used(runs: map<RunId, L.Run>): nat {
    if runs == map[] then 0
    else
      var r :| r in runs;
      L.SlotsUsed(runs[r]) + Used(runs - {r})
  }

  lemma {:induction false} UsedSplit(runs: map<RunId, L.Run>, r: RunId)
    requires r in runs
    ensures Used(runs) == L.SlotsUsed(runs[r]) + Used(runs - {r})
    decreases |runs|
  {
    var p :| p in runs && Used(runs) == L.SlotsUsed(runs[p]) + Used(runs - {p});
    if p != r {
      UsedSplit(runs - {p}, r);
      UsedSplit(runs - {r}, p);
      assert runs - {p} - {r} == runs - {r} - {p};
    }
  }

  lemma UsedPut(runs: map<RunId, L.Run>, r: RunId, x: L.Run)
    ensures Used(runs[r := x]) == L.SlotsUsed(x) + Used(runs - {r})
    ensures r in runs ==> Used(runs) == L.SlotsUsed(runs[r]) + Used(runs - {r})
  {
    hide Used;
    UsedSplit(runs[r := x], r);
    assert runs[r := x] - {r} == runs - {r};
    if r in runs {
      UsedSplit(runs, r);
    }
  }

  /** Slots in use are exactly the live drivers plus undecided acquisitions. */
  ghost predicate SlotsCounted(s: State) {
    s.cur == Used(s.runs) + if s.dispHolds then 1 else 0
  }

  lemma SlotsStep(s: State, e: Step)
    requires SlotsCounted(s) && Enabled(s, e)
    ensures SlotsCounted(Apply(s, e))
  {
    hide L.Apply, L.Enabled;
    if e.StartRun? {
      UsedPut(s.runs, e.r, NewRun(e.start, e.nodes, e.checkpoints));
      assert s.runs - {e.r} == s.runs;
    } else if e.On? {
      SlotsStepOn(s, e.r, e.e);
    }
  }

  lemma SlotsStepOn(s: State, r: RunId, e: L.Step)
    requires SlotsCounted(s) && Enabled(s, On(r, e))
    ensures SlotsCounted(Apply(s, On(r, e)))
  {
    hide L.Apply, L.Enabled, L.SlotsUsed;
    L.SlotsFollow(s.runs[r], e);
    UsedPut(s.runs, r, L.Apply(s.runs[r], e));
  }

  /** A slot is taken only below the limit, one at a time, by the dispatcher or a resume, and
      given back by a dispatcher that finds nothing to claim, a refused resume or a driver
      that is gone; a limit is at least one, and lowering it takes nothing back. */
  lemma SlotsChange(s: State, e: Step)
    requires SlotsCounted(s) && Enabled(s, e)
    ensures Apply(s, e).cur > s.cur <==> e.DispAcquire? || (e.On? && e.e.TaskAcquire?)
    ensures Apply(s, e).cur > s.cur ==> Apply(s, e).cur == s.cur + 1 <= s.limit
    ensures Apply(s, e).cur < s.cur <==> e.DispMiss? || (e.On? && (e.e.Release? || e.e.TaskRefused?))
    ensures Apply(s, e).cur < s.cur ==> Apply(s, e).cur == s.cur - 1
    ensures Apply(s, e).limit == if e.SetLimit? then (if e.max >= 1 then e.max else 1) else s.limit
  {
    hide L.Apply, L.Enabled;
    if e.DispMiss? || (e.On? && (e.e.Release? || e.e.TaskRefused?)) { ReleasesHoldASlot(s, e); }
  }

  /** Nothing that gives a slot back does so without holding one. */
  lemma ReleasesHoldASlot(s: State, e: Step)
    requires SlotsCounted(s) && Enabled(s, e)
    requires e.DispMiss? || (e.On? && (e.e.Release? || e.e.TaskRefused?))
    ensures s.cur > 0
  {
    if e.On? {
      UsedSplit(s.runs, e.r);
      L.SlotsFollow(s.runs[e.r], e.e);
    }
  }

  // --- Runs of the whole system ----------------------------------------------

  ghost predicate IsTrace(states: seq<State>, steps: seq<Step>) {
    && |states| == |steps| + 1
    && states[0] == Init
    && forall i :: 0 <= i < |steps| ==> Enabled(states[i], steps[i]) && states[i + 1] == Apply(states[i], steps[i])
  }

  ghost predicate Inv(s: State) {
    && SlotsCounted(s)
    && (forall r :: r in s.runs ==> RunInv(s.runs[r]))
  }

  ghost predicate RunInv(x: L.Run) {
    L.Owned(x) && L.Numbered(x)
  }

  lemma RunInvStep(x: L.Run, e: L.Step)
    requires RunInv(x) && L.Enabled(x, e) && !L.Wraps(x, e)
    ensures RunInv(L.Apply(x, e))
  {
    L.OwnedStep(x, e);
    L.NumberedStep(x, e);
  }

  lemma InvStep(s: State, e: Step)
    requires Inv(s) && Enabled(s, e) && !Wraps(s, e)
    ensures Inv(Apply(s, e))
  {
    hide SlotsCounted, RunInv, L.Apply, L.Enabled, L.Wraps;
    SlotsStep(s, e);
    if e.On? {
      RunInvStep(s.runs[e.r], e.e);
    } else if e.StartRun? {
      NewRunInv(e.start, e.nodes, e.checkpoints);
    }
  }

  lemma NewRunInv(start: Option<Node>, nodes: set<Node>, checkpoints: set<Node>)
    ensures RunInv(NewRun(start, nodes, checkpoints))
  {
  }

  /** Some run's generation counter starts again from 0. */
  predicate Wraps(s: State, e: Step)
    requires Enabled(s, e)
  {
    e.On? && L.Wraps(s.runs[e.r], e.e)
  }

  /** No step of the trace wraps a generation counter: no run was claimed and
      force-cleared 2^64 times. */
  ghost predicate NeverWraps(states: seq<State>, steps: seq<Step>)
    requires IsTrace(states, steps)
  {
    forall i :: 0 <= i < |steps| ==> !Wraps(states[i], steps[i])
  }

  lemma {:induction false} InvAlways(states: seq<State>, steps: seq<Step>, i: nat)
    requires IsTrace(states, steps) && NeverWraps(states, steps) && i <= |steps|
    ensures Inv(states[i])
  {
    if i > 0 {
      InvAlways(states, steps, i - 1);
      InvStep(states[i - 1], steps[i - 1]);
    }
  }

  /** In every interleaving, at every moment: the semaphore equals the goroutines
      that hold slots, every run has at most one owner and a held slot has one,
      and no (node, iteration) pair was opened twice. */
  lemma ProtocolSafety(states: seq<State>, steps: seq<Step>, i: nat, r: RunId)
    requires IsTrace(states, steps) && NeverWraps(states, steps) && i <= |steps| && r in states[i].runs
    ensures SlotsCounted(states[i])
    ensures var x := states[i].runs[r];
            && Unique(x.row.visits)
            && (x.slot.held <==> exists d :: d in x.drivers && L.Owns(x.slot, x.drivers[d]))
            && (forall d, e :: (d in x.drivers && e in x.drivers
                                && L.Owns(x.slot, x.drivers[d]) && L.Owns(x.slot, x.drivers[e])) ==> d == e)
  {
    InvAlways(states, steps, i);
    var x := states[i].runs[r];
    assert RunInv(x);
    if x.slot.held {
      var d :| L.OwnerOf(x, d);
      assert L.Owns(x.slot, x.drivers[d]);
    }
    forall d, e | d in x.drivers && e in x.drivers && L.Owns(x.slot, x.drivers[d]) && L.Owns(x.slot, x.drivers[e])
      ensures d == e
    {
      L.OneOwner(x, d, e);
    }
  }

  // --- Running runs are attended -------------------------------------------

  /** A step that leaves a running run to nobody. */
  ghost predicate Drops(s: State, e: Step)
    requires Enabled(s, e)
  {
    e.On? && A.Drops(s.runs[e.r], e.e)
  }

  ghost predicate AllAttended(s: State) {
    forall r :: r in s.runs ==> A.Attended(s.runs[r])
  }

  lemma AllAttendedStep(s: State, e: Step)
    requires Inv(s) && AllAttended(s) && Enabled(s, e)
    ensures AllAttended(Apply(s, e)) <==> !Drops(s, e)
  {
    hide L.Apply, L.Enabled, A.Attended, A.Drops, SlotsCounted, L.Owned;
    var y := Apply(s, e);
    if e.On? {
      OwnedIn(s, e.r);
      A.AttendedStep(s.runs[e.r], e.e);
      assert y.runs == s.runs[e.r := L.Apply(s.runs[e.r], e.e)];
      assert y.runs[e.r] == L.Apply(s.runs[e.r], e.e);
    } else if e.StartRun? {
      NewRunAttended(e.start, e.nodes, e.checkpoints);
    }
  }

  lemma OwnedIn(s: State, r: RunId)
    requires Inv(s) && r in s.runs
    ensures L.Owned(s.runs[r])
  {
    assert RunInv(s.runs[r]);
  }

  lemma NewRunAttended(start: Option<Node>, nodes: set<Node>, checkpoints: set<Node>)
    ensures A.Attended(NewRun(start, nodes, checkpoints))
  {
  }

  /** Every running run has a working driver or an admission scheduled, at every moment of a
      trace, exactly when no step of it leaves a running run to nobody. */
  lemma {:induction false} AttendedAlways(states: seq<State>, steps: seq<Step>)
    requires IsTrace(states, steps) && NeverWraps(states, steps)
    ensures (forall i :: 0 <= i <= |steps| ==> AllAttended(states[i])) <==>
            (forall i :: 0 <= i < |steps| ==> !Drops(states[i], steps[i]))
  {
    hide Inv, AllAttended, Drops, Apply, Enabled, Wraps;
    if forall i :: 0 <= i < |steps| ==> !Drops(states[i], steps[i]) {
      forall i | 0 <= i <= |steps| ensures AllAttended(states[i]) { AttendedUpTo(states, steps, i); }
    } else {
      var i :| 0 <= i < |steps| && Drops(states[i], steps[i]);
      InvAlways(states, steps, i);
      if AllAttended(states[i]) { AllAttendedStep(states[i], steps[i]); }
      assert states[i + 1] == Apply(states[i], steps[i]);
      assert !AllAttended(states[i]) || !AllAttended(states[i + 1]);
    }
  }

  lemma {:induction false} AttendedUpTo(states: seq<State>, steps: seq<Step>, i: nat)
    requires IsTrace(states, steps) && NeverWraps(states, steps) && i <= |steps|
    requires forall j :: 0 <= j < |steps| ==> !Drops(states[j], steps[j])
    ensures AllAttended(states[i])
  {
    hide Inv, Drops, Apply, Enabled, Wraps;
    if i > 0 {
      AttendedUpTo(states, steps, i - 1);
      InvAlways(states, steps, i - 1);
      AllAttendedStep(states[i - 1], steps[i - 1]);
    }
  }

  /** In such a trace a running run without a scheduled admission holds a slot. */
  lemma RunningHoldsASlot(states: seq<State>, steps: seq<Step>, i: nat, r: RunId)
    requires IsTrace(states, steps) && NeverWraps(states, steps) && i <= |steps| && r in states[i].runs
    requires forall j :: 0 <= j < |steps| ==> !Drops(states[j], steps[j])
    requires states[i].runs[r].row.status == Running && states[i].runs[r].tasks == map[]
    ensures L.SlotsUsed(states[i].runs[r]) >= 1
  {
    AttendedUpTo(states, steps, i);
    A.AttendedHoldsASlot(states[i].runs[r]);
  }

  // --- Visits -------------------------------------------------------------------

  /** Some run has a row saved over a visit that failed or was cancelled since it was read. */
  predicate Revives(s: State, e: Step)
    requires Enabled(s, e)
  {
    e.On? && L.Revives(s.runs[e.r], e.e)
  }

  /** Between two moments the visits of every run only grow, and a failed or cancelled visit
      never becomes anything else. */
  ghost predicate VisitsContinue(s: State, y: State) {
    forall r :: r in s.runs ==> r in y.runs && Continues(s.runs[r].row.visits, y.runs[r].row.visits)
  }

  lemma VisitsStep(s: State, e: Step)
    requires Enabled(s, e)
    ensures VisitsContinue(s, Apply(s, e)) <==> !Revives(s, e)
  {
    hide L.Apply, L.Enabled, L.Revives, Continues;
    forall v ensures Continues(v, v) { ContinuesSame(v); }
    if e.On? {
      L.ContinuesStep(s.runs[e.r], e.e);
      assert Apply(s, e).runs[e.r] == L.Apply(s.runs[e.r], e.e);
    }
  }

  lemma VisitsTrans(s: State, y: State, z: State)
    requires VisitsContinue(s, y) && VisitsContinue(y, z)
    ensures VisitsContinue(s, z)
  {
    hide Continues;
    forall r | r in s.runs ensures Continues(s.runs[r].row.visits, z.runs[r].row.visits) {
      ContinuesTrans(s.runs[r].row.visits, y.runs[r].row.visits, z.runs[r].row.visits);
    }
  }

  lemma VisitsSame(s: State)
    ensures VisitsContinue(s, s)
  {
  }

  lemma {:induction false} VisitsContinueTo(states: seq<State>, steps: seq<Step>, i: nat, j: nat)
    requires IsTrace(states, steps) && i <= j <= |steps|
    requires forall k :: 0 <= k < |steps| ==> !Revives(states[k], steps[k])
    ensures VisitsContinue(states[i], states[j])
    decreases j
  {
    hide VisitsContinue, Apply, Enabled, Revives;
    if i == j {
      VisitsSame(states[i]);
    } else {
      VisitsContinueTo(states, steps, i, j - 1);
      VisitsStep(states[j - 1], steps[j - 1]);
      VisitsTrans(states[i], states[j - 1], states[j]);
    }
  }

  /** Between any two moments of a trace no visit disappears and no dead one comes back,
      exactly when no step of it saves a row over a visit that died since it was read. */
  lemma {:induction false} VisitsNeverRevive(states: seq<State>, steps: seq<Step>)
    requires IsTrace(states, steps)
    ensures (forall i, j :: 0 <= i <= j <= |steps| ==> VisitsContinue(states[i], states[j])) <==>
            (forall k :: 0 <= k < |steps| ==> !Revives(states[k], steps[k]))
  {
    hide VisitsContinue, Apply, Revives;
    if forall k :: 0 <= k < |steps| ==> !Revives(states[k], steps[k]) {
      forall i, j | 0 <= i <= j <= |steps| ensures VisitsContinue(states[i], states[j]) {
        VisitsContinueTo(states, steps, i, j);
      }
    } else {
      var k :| 0 <= k < |steps| && Revives(states[k], steps[k]);
      VisitsStep(states[k], steps[k]);
      assert states[k + 1] == Apply(states[k], steps[k]);
      assert !VisitsContinue(states[k], states[k + 1]);
    }
  }

  lemma ContinuesSame(a: seq<Visit>)
    ensures Continues(a, a)
  {
  }

  lemma ContinuesTrans(a: seq<Visit>, b: seq<Visit>, c: seq<Visit>)
    requires Continues(a, b) && Continues(b, c)
    ensures Continues(a, c)
  {
  }

  /** No step of the trace writes a stale checkpoint map over a queued run. */
  ghost predicate KeepsResumePoints(states: seq<State>, steps: seq<Step>)
    requires IsTrace(states, steps)
  {
    forall i :: 0 <= i < |steps| && steps[i].On? ==> !L.Forgets(states[i].runs[steps[i].r], steps[i].e)
  }

  ghost predicate AllResumable(s: State) {
    forall r :: r in s.runs ==> L.Resumable(s.runs[r])
  }

  lemma AllResumableStep(s: State, e: Step)
    requires AllResumable(s) && Enabled(s, e)
    ensures AllResumable(Apply(s, e)) <==> !(e.On? && L.Forgets(s.runs[e.r], e.e))
  {
    hide L.Apply, L.Enabled, L.Forgets;
    if e.On? {
      L.ResumableStep(s.runs[e.r], e.e);
      assert Apply(s, e).runs[e.r] == L.Apply(s.runs[e.r], e.e);
    }
  }

  lemma {:induction false} ResumableUntil(states: seq<State>, steps: seq<Step>, i: nat)
    requires IsTrace(states, steps) && KeepsResumePoints(states, steps) && i <= |steps|
    ensures AllResumable(states[i])
  {
    hide AllResumable, Apply, Enabled;
    if i > 0 {
      ResumableUntil(states, steps, i - 1);
      AllResumableStep(states[i - 1], steps[i - 1]);
    } else {
      assert AllResumable(states[0]) by { NoRunsResumable(states[0]); }
    }
  }

  lemma NoRunsResumable(s: State)
    requires s.runs == map[]
    ensures AllResumable(s)
  {
  }

  /** Every queued run stays resumable at the node last recorded for it, at every moment of
      a trace, exactly when no step of it writes a stale checkpoint map over a queued run. */
  lemma {:induction false} ResumableAlways(states: seq<State>, steps: seq<Step>)
    requires IsTrace(states, steps)
    ensures (forall i :: 0 <= i <= |steps| ==> AllResumable(states[i])) <==> KeepsResumePoints(states, steps)
  {
    hide AllResumable, Apply, L.Forgets;
    if KeepsResumePoints(states, steps) {
      forall i | 0 <= i <= |steps| ensures AllResumable(states[i]) { ResumableUntil(states, steps, i); }
    } else {
      var i :| 0 <= i < |steps| && steps[i].On? && L.Forgets(states[i].runs[steps[i].r], steps[i].e);
      if AllResumable(states[i]) { AllResumableStep(states[i], steps[i]); }
      assert states[i + 1] == Apply(states[i], steps[i]);
      assert !AllResumable(states[i]) || !AllResumable(states[i + 1]);
    }
  }

  /** In such a trace every claim of a run that was admitted before drives it from
      exactly the node its last enqueue recorded, never from the start node. */
  lemma ClaimsResumeWhereRecorded(states: seq<State>, steps: seq<Step>, i: nat, r: RunId, d: L.Id)
    requires IsTrace(states, steps) && KeepsResumePoints(states, steps)
    requires i < |steps| && steps[i] == On(r, L.Claim(d))
    ensures r in states[i].runs && r in states[i + 1].runs && d in states[i + 1].runs[r].drivers
    ensures var x := states[i].runs[r];
            var from := states[i + 1].runs[r].drivers[d].from;
            && (x.admitted ==> x.want == Some(from))
            && (x.want.None? ==> x.row.start == Some(from))
  {
    ResumableUntil(states, steps, i);
    assert Enabled(states[i], steps[i]) && states[i + 1] == Apply(states[i], steps[i]);
    L.ClaimDrivesRecordedNode(states[i].runs[r], d);
  }
}
