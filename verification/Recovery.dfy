/** After a restart: closing what was interrupted, and choosing where to go on. */
module Recovery {
  import opened ExecSlot
  import opened Lists
  import opened RunStore

  type Rows = map<string, RunRow>

  // --- Startup ------------------------------------------------------------------------

  predicate HasRunning(visits: seq<Visit>) {
    exists i :: 0 <= i < |visits| && visits[i].status == VRunning
  }

  function Interrupt(v: Visit): Visit {
    if v.status == VRunning then v.(status := VFailed) else v
  }

  function InterruptAll(visits: seq<Visit>): seq<Visit> {
    seq(|visits|, i requires 0 <= i < |visits| => Interrupt(visits[i]))
  }

  /** A run whose driver died with the old process: flagged running, or inside a node. */
  predicate Orphan(row: RunRow) {
    HasRunning(row.visits) || row.status == Running
  }

  function Reconciled(row: RunRow): RunRow {
    row.(visits := InterruptAll(row.visits),
         status := if Orphan(row) && !Terminal(row.status) then Failed else row.status)
  }

  function Closed(row: RunRow): RunRow {
    row.(visits := InterruptAll(row.visits))
  }

  /** First loop: fail every visit that was running, and note its run. */
  method CloseVisits(rows0: Rows) returns (rows: Rows, orphans: set<string>)
    ensures rows == map r | r in rows0 :: Closed(rows0[r])
    ensures orphans == set r | r in rows0 && HasRunning(rows0[r].visits)
  {
    hide Closed, HasRunning;
    rows, orphans := rows0, {};
    var todo := rows0.Keys;
    while todo != {}
      invariant todo <= rows0.Keys && rows.Keys == rows0.Keys
      invariant forall r :: r in rows ==> rows[r] == if r in todo then rows0[r] else Closed(rows0[r])
      invariant orphans == set r | r in rows0 && r !in todo && HasRunning(rows0[r].visits)
      decreases |todo|
    {
      var r :| r in todo;
      todo := todo - {r};
      if HasRunning(rows0[r].visits) { orphans := orphans + {r}; }
      rows := rows[r := Closed(rows0[r])];
    }
  }

  /** Last loop: fail every orphan that has not ended. */
  method FailOrphans(rows0: Rows, orphans: set<string>) returns (rows: Rows)
    requires orphans <= rows0.Keys
    ensures rows == map r | r in rows0 :: if r in orphans && !Terminal(rows0[r].status)
                                          then rows0[r].(status := Failed) else rows0[r]
  {
    rows := rows0;
    var todo := orphans;
    while todo != {}
      invariant todo <= orphans && rows.Keys == rows0.Keys
      invariant forall r :: r in rows ==>
        rows[r] == if r in orphans && r !in todo && !Terminal(rows0[r].status)
                   then rows0[r].(status := Failed) else rows0[r]
      decreases |todo|
    {
      var r :| r in todo;
      todo := todo - {r};
      if !Terminal(rows[r].status) { rows := rows[r := rows[r].(status := Failed)]; }
    }
  }

  /** reconcileInterrupted. */
  method ReconcileInterrupted(rows0: Rows) returns (rows: Rows)
    ensures rows == map r | r in rows0 :: Reconciled(rows0[r])
  {
    var orphans;
    rows, orphans := CloseVisits(rows0);
    var flagged := set r | r in rows && rows[r].status == Running;
    rows := FailOrphans(rows, orphans + flagged);
  }

  /** Afterwards nothing claims to be running, and a second pass would change nothing. */
  lemma NothingRunsAfterwards(row: RunRow)
    ensures Reconciled(row).status != Running && !HasRunning(Reconciled(row).visits)
    ensures Reconciled(Reconciled(row)) == Reconciled(row)
    ensures SameVisits(row.visits, Reconciled(row).visits)
  {
  }

  /** What was running is failed, visits and runs alike; a run that has ended keeps its end, and
      nothing else of a row changes. */
  lemma InterruptedFails(row: RunRow, i: nat)
    requires i < |row.visits|
    ensures Reconciled(row) == row.(status := Reconciled(row).status, visits := Reconciled(row).visits)
    ensures row.visits[i].status == VRunning ==>
              Reconciled(row).visits[i] == Visit(row.visits[i].node, row.visits[i].iteration, VFailed)
    ensures row.visits[i].status != VRunning ==> Reconciled(row).visits[i] == row.visits[i]
    ensures row.status == Running ==> Reconciled(row).status == Failed
    ensures row.visits[i].status == VRunning && (row.status == Queued || row.status == WaitingHuman) ==>
              Reconciled(row).status == Failed
    ensures row.status in {Completed, Failed, Cancelled} ==> Reconciled(row).status == row.status
  {
  }

  /** A run is left untouched exactly when it is not flagged running and no visit of it was
      running.  A queued run is no exception: with a visit still open it is failed. */
  lemma UntouchedExactly(row: RunRow)
    ensures Reconciled(row) == row <==> !Orphan(row)
    ensures row.status == Queued ==> (Reconciled(row).status == Queued <==> !HasRunning(row.visits))
    ensures row.status == WaitingHuman ==> (Reconciled(row).status == WaitingHuman <==> !HasRunning(row.visits))
  {
  }

  // --- Where to resume ------------------------------------------------------------------

  /** The first matching row by iteration, then by id, both descending; -1 when there is none. */
  function TopRow(visits: seq<Visit>, ok: Visit -> bool): (r: int)
    ensures -1 <= r < |visits|
    ensures r == -1 <==> forall i :: 0 <= i < |visits| ==> !ok(visits[i])
    ensures r >= 0 ==> ok(visits[r])
    ensures r >= 0 ==> forall i :: 0 <= i < |visits| && ok(visits[i]) ==>
              visits[i].iteration < visits[r].iteration || (visits[i].iteration == visits[r].iteration && i <= r)
  {
    LatestBy(visits, ok, (v: Visit) => v.iteration)
  }

  predicate DidFail(v: Visit) {
    Dead(v.status)
  }

  predicate StillRuns(v: Visit) {
    v.status == VRunning
  }

  predicate AnyVisit(v: Visit) {
    true
  }

  /** The last row by iteration, then by position, of those in one of some states. */
  ghost predicate IsLast(visits: seq<Visit>, r: nat, sts: set<VisitStatus>) {
    && r < |visits| && visits[r].status in sts
    && forall i :: 0 <= i < |visits| && visits[i].status in sts ==>
         visits[i].iteration < visits[r].iteration || (visits[i].iteration == visits[r].iteration && i <= r)
  }

  ghost predicate NoneIn(visits: seq<Visit>, sts: set<VisitStatus>) {
    forall i :: 0 <= i < |visits| ==> visits[i].status !in sts
  }

  lemma TopIsLast(visits: seq<Visit>, ok: Visit -> bool, sts: set<VisitStatus>)
    requires forall v :: ok(v) <==> v.status in sts
    ensures forall r: nat :: IsLast(visits, r, sts) ==> TopRow(visits, ok) == r
    ensures NoneIn(visits, sts) ==> TopRow(visits, ok) == -1
  {
    forall r: nat | IsLast(visits, r, sts) ensures TopRow(visits, ok) == r { assert ok(visits[r]); }
  }

  /** pickAutoResumeNode: a failed or cancelled visit, else one still running, else any. */
  method PickAutoResumeNode(visits: seq<Visit>) returns (n: Option<Node>)
    ensures n.None? <==> visits == []
    ensures var f, o, a := TopRow(visits, DidFail), TopRow(visits, StillRuns), TopRow(visits, AnyVisit);
            n.Some? ==> n.value == visits[if f >= 0 then f else if o >= 0 then o else a].node
    ensures forall r: nat :: IsLast(visits, r, {VFailed, VCancelled}) ==> n == Some(visits[r].node)
    ensures NoneIn(visits, {VFailed, VCancelled}) ==>
              forall r: nat :: IsLast(visits, r, {VRunning}) ==> n == Some(visits[r].node)
    ensures NoneIn(visits, {VFailed, VCancelled, VRunning}) ==>
              forall r: nat :: IsLast(visits, r, {VWaiting, VCompleted}) ==> n == Some(visits[r].node)
  {
    TopIsLast(visits, DidFail, {VFailed, VCancelled});
    TopIsLast(visits, StillRuns, {VRunning});
    TopIsLast(visits, AnyVisit, {VRunning, VWaiting, VCompleted, VFailed, VCancelled});
    assert NoneIn(visits, {VFailed, VCancelled, VRunning}) ==>
      NoneIn(visits, {VFailed, VCancelled}) && NoneIn(visits, {VRunning})
      && forall r: nat :: IsLast(visits, r, {VWaiting, VCompleted}) ==>
           IsLast(visits, r, {VRunning, VWaiting, VCompleted, VFailed, VCancelled});
    var r := TopRow(visits, DidFail);
    if r >= 0 { return Some(visits[r].node); }
    r := TopRow(visits, StillRuns);
    if r >= 0 { return Some(visits[r].node); }
    r := TopRow(visits, AnyVisit);
    if r >= 0 { return Some(visits[r].node); }
    return None;
  }

  /** The most recent failed or cancelled visit. */
  ghost predicate IsLatestFailure(visits: seq<Visit>, k: int) {
    0 <= k < |visits| && DidFail(visits[k]) && forall i :: k < i < |visits| ==> !DidFail(visits[i])
  }

  /** The visit picked is the most recent failure exactly when no failure before it, of
      whatever node, has a higher iteration number: rows are compared by iteration first. */
  lemma PicksTheLatestFailure(visits: seq<Visit>, k: int)
    requires IsLatestFailure(visits, k)
    ensures TopRow(visits, DidFail) == k <==>
            forall i :: 0 <= i < k && DidFail(visits[i]) ==> visits[i].iteration <= visits[k].iteration
  {
  }

  /** It is not always: a node that failed twice before it went through hides the node
      that failed after it. */
  lemma AnOlderFailureCanWin(a: Node, b: Node)
    ensures var visits := [Visit(a, 1, VFailed), Visit(a, 2, VFailed), Visit(a, 3, VCompleted), Visit(b, 1, VFailed)];
            IsLatestFailure(visits, 3) && TopRow(visits, DidFail) == 1
  {
    var visits := [Visit(a, 1, VFailed), Visit(a, 2, VFailed), Visit(a, 3, VCompleted), Visit(b, 1, VFailed)];
    assert DidFail(visits[0]) && DidFail(visits[1]) && DidFail(visits[3]);
    assert !DidFail(visits[2]);
  }

  /** The visit a restart interrupted is where the run goes on by default, under the same condition. */
  lemma InterruptedVisitIsPicked(row: RunRow)
    requires row.visits != [] && row.visits[|row.visits| - 1].status == VRunning
    ensures var after, k := Reconciled(row).visits, |row.visits| - 1;
            TopRow(after, DidFail) == k <==>
            forall i :: 0 <= i < k && (DidFail(row.visits[i]) || row.visits[i].status == VRunning) ==>
              row.visits[i].iteration <= row.visits[k].iteration
  {
    var after, k := Reconciled(row).visits, |row.visits| - 1;
    PicksTheLatestFailure(after, k);
    forall i | 0 <= i < k
      ensures DidFail(after[i]) <==> DidFail(row.visits[i]) || row.visits[i].status == VRunning { }
    forall i | 0 <= i <= k ensures after[i].iteration == row.visits[i].iteration { }
  }
}
