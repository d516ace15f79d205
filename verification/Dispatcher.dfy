/** Draining the queue: take a slot, claim the next run, start its driver. */
module Dispatcher {
  import opened ClaimOrder
  import opened ExecSlot
  import opened Expr
  import opened RunStore

  /** A driver started by the dispatcher: the run and the node it continues from. */
  datatype Spawn = Spawn(id: string, from: string)

  /** Overwrite the row with the given id. */
  function Put(rows: seq<Run>, r: Run): (out: seq<Run>)
    ensures |out| == |rows|
    ensures forall i :: 0 <= i < |rows| ==> out[i] == if rows[i].id == r.id then r else rows[i]
  {
    seq(|rows|, i requires 0 <= i < |rows| => if rows[i].id == r.id then r else rows[i])
  }

  /** The row after a successful claim: running, and its continue node consumed. */
  function Claimed(r: Run): Run {
    if r.recorded.Some? && r.recorded.value != "" then r.(status := Running, recorded := None)
    else if DrivenFrom(r).Some? then r.(status := Running)
    else r.(status := Failed)
  }

  datatype Drained = Drained(rows: seq<Run>, spawned: seq<Spawn>)

  /** How the next run is chosen among the rows. */
  type Choice = seq<Run> -> Option<Run>

  /** What a drain with `free` slots does.  A run without any node to start from is
      failed, and ends the drain. */
  ghost function Drain(rows: seq<Run>, free: nat, next: Choice): Drained
    decreases free
  {
    var chosen := next(rows);
    if free == 0 || chosen.None? then Drained(rows, [])
    else
      var r := chosen.value;
      if DrivenFrom(r).None? then Drained(Put(rows, Claimed(r)), [])
      else
        var rest := Drain(Put(rows, Claimed(r)), free - 1, next);
        Drained(rest.rows, [Spawn(r.id, DrivenFrom(r).value)] + rest.spawned)
  }

  /** The choice the dispatcher makes. */
  ghost function FirstInOrder(show: Value -> string): Choice {
    rows => Next(rows, show)
  }

  /** A limit below one counts as one. */
  function AtLeastOne(n: int): int {
    if n <= 0 then 1 else n
  }

  /** Slots that can still be taken; none while more are in use than a lowered limit allows. */
  function Free(limit: int, used: nat): nat {
    if used < limit then limit - used else 0
  }

  class Dispatcher {
    var rows: seq<Run>
    var used: nat
    var limit: int
    var spawned: seq<Spawn>
    var halted: bool
    const show: Value -> string

    ghost predicate Valid()
      reads this
    {
      UniqueIds(rows)
    }

    constructor (rows: seq<Run>, limit: int, show: Value -> string)
      requires UniqueIds(rows)
      ensures Valid() && this.rows == rows && this.limit == AtLeastOne(limit) && this.show == show
      ensures used == 0 && spawned == [] && !halted
    {
      this.rows, this.limit, this.show := rows, if limit <= 0 then 1 else limit, show;
      used, spawned, halted := 0, [], false;
    }

    method TryAcquire() returns (ok: bool)
      modifies this`used
      ensures ok == (old(used) < limit) && used == old(used) + if ok then 1 else 0
      ensures Free(limit, used) == Free(limit, old(used)) - if ok then 1 else 0
    {
      ok := used < limit;
      if ok { used := used + 1; }
    }

    method Release()
      modifies this`used
      ensures used == if old(used) > 0 then old(used) - 1 else 0
    {
      if used > 0 { used := used - 1; }
    }

    /** SetLimit: those in flight keep their slots. */
    method SetLimit(n: int)
      modifies this`limit
      ensures limit == AtLeastOne(n) && Free(limit, used) == if n > used then n - used else if used == 0 then 1 else 0
    {
      limit := if n <= 0 then 1 else n;
    }

    /** claimNextQueued, as one step. */
    method ClaimNextQueued() returns (claim: Option<Spawn>)
      requires Valid()
      modifies this`rows
      ensures Valid()
      ensures ClaimOf(old(rows), FirstInOrder(show)(old(rows)), rows, claim)
    {
      NextIsAheadOfAll(rows, show);
      var top := TopPriority(rows);
      if top.None? { return None; }
      var candidates := Band(rows, top.value);
      if candidates == [] { return None; }
      var run := PickQueuedByRemainingHumanGate(candidates, show);
      rows := Put(rows, run.(status := Running));
      var from := DrivenFrom(run);
      if from.None? {
        rows := Put(rows, run.(status := Failed));
        return None;
      }
      if run.recorded.Some? && run.recorded.value != "" {
        rows := Put(rows, run.(status := Running, recorded := None));
      }
      return Some(Spawn(run.id, from.value));
    }

    /** drainQueue. */
    method DrainQueue()
      requires Valid()
      modifies this`rows, this`used, this`spawned
      ensures Valid()
      ensures halted ==> rows == old(rows) && used == old(used) && spawned == old(spawned)
      ensures !halted ==>
                && rows == Drain(old(rows), Free(limit, old(used)), FirstInOrder(show)).rows
                && spawned == old(spawned) + Drain(old(rows), Free(limit, old(used)), FirstInOrder(show)).spawned
      ensures used - old(used) == |spawned| - |old(spawned)|
    {
      hide ClaimOrder.Next, ClaimOf, UniqueIds, Drain;
      if halted { return; }
      ghost var next := FirstInOrder(show);
      ghost var goal := Drain(rows, Free(limit, used), next);
      while true
        invariant Valid()
        invariant used - old(used) == |spawned| - |old(spawned)|
        invariant goal.rows == Drain(rows, Free(limit, used), next).rows
        invariant old(spawned) + goal.spawned == spawned + Drain(rows, Free(limit, used), next).spawned
        decreases Free(limit, used)
      {
        var ok := TryAcquire();
        if !ok {
          NothingToDrain(rows, next);
          return;
        }
        ghost var before := rows;
        var claim := ClaimNextQueued();
        DrainOnce(before, Free(limit, used) + 1, next, rows, claim);
        if claim.None? {
          Release();
          return;
        }
        spawned := spawned + [claim.value];
      }
    }
  }

  /** One claim: what it returns and leaves in the table. */
  ghost predicate ClaimOf(rows: seq<Run>, chosen: Option<Run>, after: seq<Run>, claim: Option<Spawn>) {
    match chosen
    case None => claim.None? && after == rows
    case Some(r) =>
      && after == Put(rows, Claimed(r))
      && claim == match DrivenFrom(r) case None => None case Some(n) => Some(Spawn(r.id, n))
  }

  lemma DrainOnce(rows: seq<Run>, free: nat, next: Choice, after: seq<Run>, claim: Option<Spawn>)
    requires free > 0 && ClaimOf(rows, next(rows), after, claim)
    ensures claim.None? ==> Drain(rows, free, next) == Drained(after, [])
    ensures claim.Some? ==>
              && Drain(rows, free, next).rows == Drain(after, free - 1, next).rows
              && Drain(rows, free, next).spawned == [claim.value] + Drain(after, free - 1, next).spawned
  {
  }

  lemma NothingToDrain(rows: seq<Run>, next: Choice)
    ensures Drain(rows, 0, next) == Drained(rows, [])
  {
  }

  // --- What draining promises ---------------------------------------------

  ghost predicate NothingQueued(rows: seq<Run>) {
    forall i :: 0 <= i < |rows| ==> rows[i].status != Queued
  }

  /** A choice that always takes the queued run ahead of all others. */
  ghost predicate TakesTheFirst(next: Choice, ahead: (Run, Run) -> bool) {
    forall rows :: UniqueIds(rows) ==>
      match next(rows)
      case None => NothingQueued(rows)
      case Some(r) => IsFirst(rows, r, ahead)
  }

  ghost predicate IsFirst(rows: seq<Run>, r: Run, ahead: (Run, Run) -> bool) {
    && r in rows && r.status == Queued
    && forall i :: 0 <= i < |rows| && rows[i].status == Queued ==> rows[i] == r || ahead(r, rows[i])
  }

  lemma TakesFirst(rows: seq<Run>, next: Choice, ahead: (Run, Run) -> bool)
    requires UniqueIds(rows) && TakesTheFirst(next, ahead)
    ensures match next(rows)
            case None => NothingQueued(rows)
            case Some(r) => IsFirst(rows, r, ahead)
  {
  }

  lemma PutKeepsIds(rows: seq<Run>, r: Run)
    requires UniqueIds(rows)
    ensures UniqueIds(Put(rows, Claimed(r)))
  {
  }

  /** Claiming one row leaves the others alone. */
  lemma PutRow(rows: seq<Run>, r: Run, i: nat)
    requires UniqueIds(rows) && r in rows && i < |rows|
    ensures Put(rows, Claimed(r))[i] == if rows[i] == r then Claimed(r) else rows[i]
    ensures Claimed(r).status != Queued
    ensures UniqueIds(Put(rows, Claimed(r)))
  {
  }

  lemma {:induction false} Overtaken(rows: seq<Run>, free: nat, next: Choice, ahead: (Run, Run) -> bool, i: nat, k: nat)
    requires UniqueIds(rows) && TakesTheFirst(next, ahead) && i < |rows| && k < |rows|
    ensures |Drain(rows, free, next).rows| == |rows|
    ensures (rows[i].status == Queued && Drain(rows, free, next).rows[i].status != Queued
             && Drain(rows, free, next).rows[k].status == Queued) ==> ahead(rows[i], rows[k])
    decreases free
  {
    hide TakesTheFirst, UniqueIds, Claimed, DrivenFrom, Put;
    TakesFirst(rows, next, ahead);
    if free > 0 && next(rows).Some? {
      var r := next(rows).value;
      var rows2 := Put(rows, Claimed(r));
      PutRow(rows, r, i);
      PutRow(rows, r, k);
      if DrivenFrom(r).Some? {
        Overtaken(rows2, free - 1, next, ahead, i, k);
        RowAfterDrain(rows2, free - 1, next, ahead, k);
      }
    }
  }

  lemma DispatcherTakesTheFirst(show: Value -> string)
    ensures TakesTheFirst(FirstInOrder(show), (a, b) => Ahead(a, b, show))
  {
    forall rows | UniqueIds(rows) ensures
      match FirstInOrder(show)(rows)
      case None => NothingQueued(rows)
      case Some(r) => IsFirst(rows, r, (a, b) => Ahead(a, b, show))
    {
      NextIsAheadOfAll(rows, show);
    }
  }

  /** No run is left queued while one that comes after it is admitted. */
  lemma NoneIsOvertaken(rows: seq<Run>, free: nat, show: Value -> string, i: nat, k: nat)
    requires UniqueIds(rows) && i < |rows| && k < |rows|
    ensures |Drain(rows, free, FirstInOrder(show)).rows| == |rows|
    ensures (rows[i].status == Queued && Drain(rows, free, FirstInOrder(show)).rows[i].status != Queued
             && Drain(rows, free, FirstInOrder(show)).rows[k].status == Queued) ==> Ahead(rows[i], rows[k], show)
  {
    DispatcherTakesTheFirst(show);
    Overtaken(rows, free, FirstInOrder(show), (a, b) => Ahead(a, b, show), i, k);
  }

  /** Slots stay free only when nothing is queued any more, or when a run without any
      node was failed: that ends the drain whatever else is queued. */
  lemma {:induction false} SlotsAreFilled(rows: seq<Run>, free: nat, next: Choice, ahead: (Run, Run) -> bool)
    requires UniqueIds(rows) && TakesTheFirst(next, ahead)
    ensures |Drain(rows, free, next).spawned| <= free && |Drain(rows, free, next).rows| == |rows|
    ensures |Drain(rows, free, next).spawned| == free || NothingQueued(Drain(rows, free, next).rows)
            || exists i :: 0 <= i < |rows| && rows[i].status == Queued && DrivenFrom(rows[i]).None?
                           && Drain(rows, free, next).rows[i].status == Failed
    decreases free
  {
    hide TakesTheFirst, UniqueIds;
    TakesFirst(rows, next, ahead);
    if free > 0 && next(rows).Some? {
      var r := next(rows).value;
      var i :| 0 <= i < |rows| && rows[i] == r;
      PutKeepsIds(rows, r);
      if DrivenFrom(r).Some? {
        var rows2 := Put(rows, Claimed(r));
        SlotsAreFilled(rows2, free - 1, next, ahead);
        forall k | 0 <= k < |rows| && rows2[k].status == Queued ensures rows2[k] == rows[k] { }
      }
    }
  }

  /** A drain changes only queued rows, claims a row as a single claim would, and starts
      a driver for every run it turned to running, at the node it recorded. */
  lemma {:induction false} RowAfterDrain(rows: seq<Run>, free: nat, next: Choice, ahead: (Run, Run) -> bool, i: nat)
    requires UniqueIds(rows) && TakesTheFirst(next, ahead) && i < |rows|
    ensures |Drain(rows, free, next).rows| == |rows|
    ensures Drain(rows, free, next).rows[i] == rows[i]
            || (rows[i].status == Queued && Drain(rows, free, next).rows[i] == Claimed(rows[i]))
    ensures forall s :: s in Drain(rows, free, next).spawned && s.id == rows[i].id ==>
              rows[i].status == Queued && Some(s.from) == DrivenFrom(rows[i])
              && Drain(rows, free, next).rows[i] == Claimed(rows[i])
    ensures rows[i].status == Queued && Drain(rows, free, next).rows[i].status == Running ==>
              exists s :: s in Drain(rows, free, next).spawned && s.id == rows[i].id
    decreases free
  {
    if free > 0 && next(rows).Some? {
      var r := next(rows).value;
      assert IsFirst(rows, r, ahead);
      PutKeepsIds(rows, r);
      if DrivenFrom(r).Some? {
        RowAfterDrain(Put(rows, Claimed(r)), free - 1, next, ahead, i);
        assert Spawn(r.id, DrivenFrom(r).value) == Drain(rows, free, next).spawned[0];
      }
    }
  }

  /** A run that is not queued gets no driver. */
  lemma NoDriverWithoutQueue(rows: seq<Run>, free: nat, next: Choice, ahead: (Run, Run) -> bool, i: nat)
    requires UniqueIds(rows) && TakesTheFirst(next, ahead) && i < |rows| && rows[i].status != Queued
    ensures forall s :: s in Drain(rows, free, next).spawned ==> s.id != rows[i].id
  {
    RowAfterDrain(rows, free, next, ahead, i);
  }

  lemma {:induction false} OneDriverPerRun(rows: seq<Run>, free: nat, next: Choice, ahead: (Run, Run) -> bool)
    requires UniqueIds(rows) && TakesTheFirst(next, ahead)
    ensures Distinct(Drain(rows, free, next).spawned)
    decreases free
  {
    if free > 0 && next(rows).Some? {
      var r := next(rows).value;
      assert IsFirst(rows, r, ahead);
      var i :| 0 <= i < |rows| && rows[i] == r;
      PutRow(rows, r, i);
      if DrivenFrom(r).Some? {
        var rows2 := Put(rows, Claimed(r));
        OneDriverPerRun(rows2, free - 1, next, ahead);
        NoDriverWithoutQueue(rows2, free - 1, next, ahead, i);
        DistinctCons(Spawn(r.id, DrivenFrom(r).value), Drain(rows2, free - 1, next).spawned);
      }
    }
  }

  ghost predicate Distinct(spawned: seq<Spawn>) {
    forall j, k :: 0 <= j < k < |spawned| ==> spawned[j].id != spawned[k].id
  }

  lemma DistinctCons(s: Spawn, rest: seq<Spawn>)
    requires Distinct(rest) && forall x :: x in rest ==> x.id != s.id
    ensures Distinct([s] + rest)
  {
  }
}
