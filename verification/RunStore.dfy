/** The database rows of a run as the engine's guarded writes see them. */
module RunStore {
  import opened ExecSlot

  type Node = string

  datatype Status = Queued | Running | WaitingHuman | Completed | Failed | Cancelled

  datatype VisitStatus = VRunning | VWaiting | VCompleted | VFailed | VCancelled

  /** One StateRun: the `iteration`-th execution of a node. */
  datatype Visit = Visit(node: Node, iteration: nat, status: VisitStatus)

  /** A run: its status, the node stored under `__admission_from__`, what the
      protocol needs of its graph snapshot, and its StateRuns in insertion order. */
  datatype RunRow = RunRow(
    status: Status, admission: Option<Node>,
    start: Option<Node>, nodes: set<Node>, checkpoints: set<Node>,
    visits: seq<Visit>)

  predicate Terminal(st: Status) {
    st == Completed || st == Failed || st == Cancelled
  }

  // --- Iteration numbers ------------------------------------------------

  /** The highest iteration recorded for `n`, 0 when it was never entered. */
  function MaxIteration(visits: seq<Visit>, n: Node): nat {
    if visits == [] then 0
    else
      var last := visits[|visits| - 1];
      var before := MaxIteration(visits[..|visits| - 1], n);
      if last.node == n && last.iteration > before then last.iteration else before
  }

  function Get(iter: map<Node, nat>, n: Node): nat {
    if n in iter then iter[n] else 0
  }

  ghost predicate HasVisit(visits: seq<Visit>, n: Node, k: nat) {
    exists i :: 0 <= i < |visits| && visits[i].node == n && visits[i].iteration == k
  }

  /** No (node, iteration) pair has two rows. */
  ghost predicate Unique(visits: seq<Visit>) {
    forall i, j :: 0 <= i < j < |visits| ==>
      visits[i].node != visits[j].node || visits[i].iteration != visits[j].iteration
  }

  /** The two tables list the same visits in the same order, statuses aside. */
  ghost predicate SameVisits(a: seq<Visit>, b: seq<Visit>) {
    |a| == |b| && forall i :: 0 <= i < |a| ==> a[i].node == b[i].node && a[i].iteration == b[i].iteration
  }

  lemma {:induction false} MaxIsMax(visits: seq<Visit>, n: Node)
    ensures forall i :: 0 <= i < |visits| && visits[i].node == n ==> visits[i].iteration <= MaxIteration(visits, n)
    ensures MaxIteration(visits, n) > 0 ==> HasVisit(visits, n, MaxIteration(visits, n))
  {
    if visits != [] {
      var front := visits[..|visits| - 1];
      MaxIsMax(front, n);
      if MaxIteration(visits, n) > 0 && MaxIteration(visits, n) == MaxIteration(front, n) {
        var i :| 0 <= i < |front| && front[i].node == n && front[i].iteration == MaxIteration(visits, n);
        assert visits[i].node == n;
      }
    }
  }

  lemma MaxAppend(visits: seq<Visit>, v: Visit, n: Node)
    ensures MaxIteration(visits + [v], n) ==
            if v.node == n && v.iteration > MaxIteration(visits, n) then v.iteration else MaxIteration(visits, n)
  {
  }

  lemma {:induction false} MaxSame(a: seq<Visit>, b: seq<Visit>, n: Node)
    requires SameVisits(a, b)
    ensures MaxIteration(a, n) == MaxIteration(b, n)
  {
    if a != [] {
      MaxSame(a[..|a| - 1], b[..|b| - 1], n);
    }
  }

  /** Opening the visit after the recorded maximum never repeats a pair. */
  lemma OpenNextIsFresh(visits: seq<Visit>, n: Node, st: VisitStatus)
    requires Unique(visits)
    ensures Unique(visits + [Visit(n, MaxIteration(visits, n) + 1, st)])
  {
    MaxIsMax(visits, n);
  }

  /** What `loadCtx` rebuilds from the StateRuns. */
  function LoadedIterations(visits: seq<Visit>): map<Node, nat> {
    map i | 0 <= i < |visits| && MaxIteration(visits, visits[i].node) > 0 ::
      visits[i].node := MaxIteration(visits, visits[i].node)
  }

  lemma LoadedIsMax(visits: seq<Visit>, n: Node)
    ensures Get(LoadedIterations(visits), n) == MaxIteration(visits, n)
  {
  }

  // --- Row updates --------------------------------------------------------

  /** The single write of enqueueAdmission: status and continue node together. */
  function Enqueue(row: RunRow, n: Node): RunRow {
    row.(status := Queued, admission := Some(n))
  }

  /** The node a claimed run continues from: the recorded one, else the start. */
  function ClaimNode(row: RunRow): Option<Node> {
    if row.admission.Some? && row.admission.value != "" then row.admission else row.start
  }

  function Admit(row: RunRow): RunRow {
    row.(status := Running, admission := None)
  }

  function FinalizeVisit(v: Visit, st: Status): Visit {
    if v.status == VRunning || v.status == VWaiting then
      v.(status := if st == Cancelled then VCancelled else VFailed)
    else v
  }

  /** finish: write the status and, for failed or cancelled runs, close every
      visit that is still running or waiting. */
  function Finish(row: RunRow, st: Status): RunRow {
    row.(status := st,
         visits := if st == Failed || st == Cancelled
                   then seq(|row.visits|, i requires 0 <= i < |row.visits| => FinalizeVisit(row.visits[i], st))
                   else row.visits)
  }

  /** saveState's guards on the row it found. */
  predicate MayOverwrite(was: VisitStatus, now: VisitStatus) {
    && !(now == VWaiting && (was == VCompleted || was == VFailed || was == VCancelled))
    && !((was == VCancelled || was == VFailed) && (now == VCompleted || now == VRunning || now == VWaiting))
  }

  /** The index of the first visit (n, k), or |visits|. */
  function FindVisit(visits: seq<Visit>, n: Node, k: nat): (i: nat)
    ensures i <= |visits|
    ensures i < |visits| ==> visits[i].node == n && visits[i].iteration == k
    ensures forall j :: 0 <= j < i ==> visits[j].node != n || visits[j].iteration != k
  {
    if visits == [] then 0
    else if visits[0].node == n && visits[0].iteration == k then 0
    else
      var i := FindVisit(visits[1..], n, k);
      assert forall j :: 1 <= j < i + 1 ==> visits[j] == visits[1..][j - 1];
      i + 1
  }

  function Save(visits: seq<Visit>, n: Node, k: nat, st: VisitStatus): seq<Visit> {
    var k1 := if k < 1 then 1 else k;
    var i := FindVisit(visits, n, k1);
    if i == |visits| then visits + [Visit(n, k1, st)]
    else if MayOverwrite(visits[i].status, st) then visits[i := visits[i].(status := st)]
    else visits
  }

  predicate Dead(st: VisitStatus) {
    st == VFailed || st == VCancelled
  }

  /** `b` continues `a`: same rows in the same places, perhaps more after them,
      and no failed or cancelled visit has come back to life. */
  ghost predicate Continues(a: seq<Visit>, b: seq<Visit>) {
    |a| <= |b| &&
    forall i :: 0 <= i < |a| ==>
      a[i].node == b[i].node && a[i].iteration == b[i].iteration && (Dead(a[i].status) ==> Dead(b[i].status))
  }

  lemma SaveContinues(visits: seq<Visit>, n: Node, k: nat, st: VisitStatus)
    ensures Continues(visits, Save(visits, n, k, st))
    ensures HasVisit(visits, n, if k < 1 then 1 else k) ==> SameVisits(visits, Save(visits, n, k, st))
  {
  }

  // --- The engine's writes ------------------------------------------------

  class Store {
    var rows: map<string, RunRow>

    constructor (rows: map<string, RunRow>)
      ensures this.rows == rows
    {
      this.rows := rows;
    }

    /** enqueueAdmission: guarded on "running" when `requireRunning`. */
    method EnqueueAdmission(r: string, n: Node, requireRunning: bool) returns (queued: bool)
      modifies this
      ensures queued == (r in old(rows) && (requireRunning ==> old(rows)[r].status == Running))
      ensures rows == if queued then old(rows)[r := Enqueue(old(rows)[r], n)] else old(rows)
    {
      if r !in rows {
        return false;
      }
      var run := rows[r];
      if requireRunning && run.status != Running {
        return false;
      }
      rows := rows[r := run.(status := Queued, admission := Some(n))];
      return true;
    }

    /** clearAdmissionFrom: drop the continue node when one is stored. */
    method ClearAdmissionFrom(r: string)
      modifies this
      ensures rows == if r in old(rows) then old(rows)[r := old(rows)[r].(admission := None)] else old(rows)
    {
      if r in rows && rows[r].admission.Some? {
        rows := rows[r := rows[r].(admission := None)];
      }
    }

    /** admitRunDirect's write: only a run that is not running is admitted. */
    method AdmitRunDirect(r: string) returns (ok: bool)
      modifies this
      ensures ok == (r in old(rows) && old(rows)[r].status != Running)
      ensures rows == if ok then old(rows)[r := Admit(old(rows)[r])] else old(rows)
    {
      if r !in rows || rows[r].status == Running {
        return false;
      }
      rows := rows[r := rows[r].(status := Running)];
      ClearAdmissionFrom(r);
      return true;
    }

    /** saveState's row update, by scanning for the visit. */
    method SaveState(r: string, n: Node, k: nat, st: VisitStatus)
      requires r in rows
      modifies this
      ensures rows == old(rows)[r := old(rows)[r].(visits := Save(old(rows)[r].visits, n, k, st))]
    {
      var visits := rows[r].visits;
      var iter := if k < 1 then 1 else k;
      var i := 0;
      while i < |visits| && !(visits[i].node == n && visits[i].iteration == iter)
        invariant 0 <= i <= |visits|
        invariant forall j :: 0 <= j < i ==> visits[j].node != n || visits[j].iteration != iter
      {
        i := i + 1;
      }
      assert i == FindVisit(visits, n, iter);
      if i == |visits| {
        visits := visits + [Visit(n, iter, st)];
      } else {
        var sr := visits[i];
        if st == VWaiting && (sr.status == VCompleted || sr.status == VFailed || sr.status == VCancelled) {
          return;
        }
        if (sr.status == VCancelled || sr.status == VFailed) && (st == VCompleted || st == VRunning || st == VWaiting) {
          return;
        }
        visits := visits[i := sr.(status := st)];
      }
      rows := rows[r := rows[r].(visits := visits)];
    }
  }

  /** The loop of loadCtx: resume numbering from the highest recorded iteration. */
  method LoadIterations(visits: seq<Visit>) returns (iter: map<Node, nat>)
    ensures forall n :: Get(iter, n) == MaxIteration(visits, n)
  {
    iter := map[];
    var i := 0;
    while i < |visits|
      invariant 0 <= i <= |visits|
      invariant forall n :: Get(iter, n) == MaxIteration(visits[..i], n)
    {
      var s := visits[i];
      forall n ensures MaxIteration(visits[..i + 1], n) ==
                       if s.node == n && s.iteration > MaxIteration(visits[..i], n) then s.iteration
                       else MaxIteration(visits[..i], n)
      {
        assert visits[..i + 1] == visits[..i] + [s];
        MaxAppend(visits[..i], s, n);
      }
      if s.iteration > Get(iter, s.node) {
        iter := iter[s.node := s.iteration];
      }
      i := i + 1;
    }
    assert visits[..i] == visits;
  }
}
