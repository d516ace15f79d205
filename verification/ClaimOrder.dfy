/** Which queued run the dispatcher admits, and what draining the queue does. */
module ClaimOrder {
  import opened ExecSlot
  import opened Expr
  import opened Reachability
  import opened RunStore
  import opened Text
  import Workflow

  /** A run as the dispatcher reads it; `recorded` is the node under `__admission_from__`. */
  datatype Run = Run(id: string, status: Status, priority: int, created: int,
                     recorded: Option<string>, graph: Workflow.Graph)

  // --- Ordering -------------------------------------------------------------

  predicate TextBefore(a: string, b: string) {
    b != "" && (a == "" || a[0] < b[0] || (a[0] == b[0] && TextBefore(a[1..], b[1..])))
  }

  lemma {:induction false} TextTotal(a: string, b: string)
    ensures a == b || TextBefore(a, b) || TextBefore(b, a)
    ensures !(TextBefore(a, b) && (TextBefore(b, a) || a == b))
  {
    if a != "" && b != "" {
      TextTotal(a[1..], b[1..]);
      assert a == [a[0]] + a[1..] && b == [b[0]] + b[1..];
    }
  }

  lemma {:induction false} TextTransitive(a: string, b: string, c: string)
    requires TextBefore(a, b) && TextBefore(b, c)
    ensures TextBefore(a, c)
  {
    if a != "" && a[0] == b[0] == c[0] { TextTransitive(a[1..], b[1..], c[1..]); }
  }

  /** created_at ASC, id ASC. */
  predicate Older(a: Run, b: Run) {
    a.created < b.created || (a.created == b.created && TextBefore(a.id, b.id))
  }

  lemma OlderTotal(a: Run, b: Run)
    requires a.id != b.id
    ensures Older(a, b) != Older(b, a)
  {
    TextTotal(a.id, b.id);
  }

  lemma OlderTransitive(a: Run, b: Run, c: Run)
    requires Older(a, b) && Older(b, c)
    ensures Older(a, c)
  {
    if a.created == b.created == c.created { TextTransitive(a.id, b.id, c.id); }
  }

  /** continueFromNodeID: the recorded node when it is not blank, else the start node. */
  function ContinueFrom(r: Run): Option<string> {
    if r.recorded.Some? && Trim(r.recorded.value) != "" then r.recorded
    else match Workflow.StartNode(r.graph) case Some(n) => Some(n.id) case None => None
  }

  /** The node a claimed run is driven from: the recorded one when it is not empty. */
  function DrivenFrom(r: Run): Option<string> {
    if r.recorded.Some? && r.recorded.value != "" then r.recorded
    else match Workflow.StartNode(r.graph) case Some(n) => Some(n.id) case None => None
  }

  /** The score looks ahead from the node the run will be driven from, unless a node
      whose id is only white space is recorded. */
  lemma ScoredWhereDriven(r: Run)
    ensures (ContinueFrom(r) == DrivenFrom(r)) <==>
            !(r.recorded.Some? && r.recorded.value != "" && Trim(r.recorded.value) == ""
              && (match Workflow.StartNode(r.graph) case Some(n) => n.id != r.recorded.value case None => true))
  {
  }

  ghost predicate HasGate(r: Run, show: Value -> string) {
    ContinueFrom(r).Some? && ContinueFrom(r).value != "" && GateAhead(r.graph, show, ContinueFrom(r).value)
  }

  /** priority DESC, human gate ahead DESC, created_at ASC, id ASC. */
  ghost predicate Ahead(a: Run, b: Run, show: Value -> string) {
    || a.priority > b.priority
    || (a.priority == b.priority && HasGate(a, show) && !HasGate(b, show))
    || (a.priority == b.priority && HasGate(a, show) == HasGate(b, show) && Older(a, b))
  }

  /** Of two runs exactly one is ahead, and being ahead is transitive. */
  lemma AheadIsAnOrder(a: Run, b: Run, c: Run, show: Value -> string)
    requires a.id != b.id
    ensures Ahead(a, b, show) != Ahead(b, a, show)
    ensures Ahead(a, b, show) && Ahead(b, c, show) ==> Ahead(a, c, show)
  {
    OlderTotal(a, b);
    if Older(a, b) && Older(b, c) { OlderTransitive(a, b, c); }
  }

  // --- Queries ----------------------------------------------------------------

  ghost predicate UniqueIds(rows: seq<Run>) {
    forall i, j :: 0 <= i < j < |rows| ==> rows[i].id != rows[j].id
  }

  ghost predicate ByAge(rows: seq<Run>) {
    forall i, j :: 0 <= i < j < |rows| ==> Older(rows[i], rows[j])
  }

  function InsertByAge(r: Run, rows: seq<Run>): seq<Run> {
    if rows == [] || Older(r, rows[0]) then [r] + rows else [rows[0]] + InsertByAge(r, rows[1..])
  }

  /** WHERE status = queued AND priority = p ORDER BY created_at, id. */
  function Band(rows: seq<Run>, p: int): seq<Run> {
    if rows == [] then []
    else if rows[0].status == Queued && rows[0].priority == p then InsertByAge(rows[0], Band(rows[1..], p))
    else Band(rows[1..], p)
  }

  /** The priority of the first queued row by priority DESC. */
  function TopPriority(rows: seq<Run>): (p: Option<int>)
    ensures p.None? ==> forall r :: r in rows ==> r.status != Queued
    ensures p.Some? ==> exists r :: r in rows && r.status == Queued && r.priority == p.value
    ensures p.Some? ==> forall r :: r in rows && r.status == Queued ==> r.priority <= p.value
  {
    if rows == [] then None
    else
      var rest := TopPriority(rows[1..]);
      assert forall r :: r in rows <==> r == rows[0] || r in rows[1..];
      if rows[0].status == Queued && (rest.None? || rows[0].priority > rest.value) then Some(rows[0].priority) else rest
  }

  lemma {:induction false} InsertKeepsAge(r: Run, rows: seq<Run>)
    requires ByAge(rows) && forall x :: x in rows ==> x.id != r.id
    ensures ByAge(InsertByAge(r, rows))
    ensures forall x :: x in InsertByAge(r, rows) <==> x == r || x in rows
  {
    if rows == [] {
    } else if Older(r, rows[0]) {
      forall i | 0 <= i < |rows| ensures Older(r, rows[i]) {
        if i > 0 { OlderTransitive(r, rows[0], rows[i]); }
      }
    } else {
      OlderTotal(r, rows[0]);
      InsertKeepsAge(r, rows[1..]);
      assert forall x :: x in InsertByAge(r, rows[1..]) ==> Older(rows[0], x);
    }
  }

  lemma {:induction false} BandIsSorted(rows: seq<Run>, p: int)
    requires UniqueIds(rows)
    ensures ByAge(Band(rows, p))
    ensures forall r :: r in Band(rows, p) <==> r in rows && r.status == Queued && r.priority == p
  {
    if rows != [] {
      BandIsSorted(rows[1..], p);
      assert forall r :: r in rows <==> r == rows[0] || r in rows[1..];
      if rows[0].status == Queued && rows[0].priority == p {
        InsertKeepsAge(rows[0], Band(rows[1..], p));
      }
    }
  }

  // --- The choice -----------------------------------------------------------

  /** The first candidate with a gate ahead, else the first. */
  ghost function Pick(candidates: seq<Run>, show: Value -> string): (r: Run)
    requires candidates != []
    ensures r in candidates
  {
    if exists i :: 0 <= i < |candidates| && HasGate(candidates[i], show) then FirstWithGate(candidates, show)
    else candidates[0]
  }

  ghost function FirstWithGate(candidates: seq<Run>, show: Value -> string): (r: Run)
    requires exists i :: 0 <= i < |candidates| && HasGate(candidates[i], show)
    ensures r in candidates && HasGate(r, show)
  {
    if HasGate(candidates[0], show) then candidates[0] else FirstWithGate(candidates[1..], show)
  }

  lemma {:induction false} FirstWithGateIsFirst(candidates: seq<Run>, show: Value -> string, k: nat)
    requires k < |candidates| && HasGate(candidates[k], show)
    requires forall j :: 0 <= j < k ==> !HasGate(candidates[j], show)
    ensures FirstWithGate(candidates, show) == candidates[k]
  {
    if k > 0 { FirstWithGateIsFirst(candidates[1..], show, k - 1); }
  }

  lemma {:induction false} FirstWithGateIsOldest(candidates: seq<Run>, show: Value -> string)
    requires ByAge(candidates) && exists i :: 0 <= i < |candidates| && HasGate(candidates[i], show)
    ensures forall x :: x in candidates && HasGate(x, show) ==>
              x == FirstWithGate(candidates, show) || Older(FirstWithGate(candidates, show), x)
  {
    if HasGate(candidates[0], show) {
      forall x | x in candidates ensures x == candidates[0] || Older(candidates[0], x) {
        var j :| 0 <= j < |candidates| && candidates[j] == x;
      }
    } else {
      FirstWithGateIsOldest(candidates[1..], show);
      assert forall x :: x in candidates <==> x == candidates[0] || x in candidates[1..];
    }
  }

  /** pickQueuedByRemainingHumanGate. */
  method PickQueuedByRemainingHumanGate(candidates: seq<Run>, show: Value -> string) returns (run: Run)
    requires candidates != []
    ensures run == Pick(candidates, show)
  {
    var fallback: Option<Run> := None;
    for i := 0 to |candidates|
      invariant forall j :: 0 <= j < i ==> !HasGate(candidates[j], show)
      invariant fallback == if i == 0 then None else Some(candidates[0])
    {
      var from := ContinueFrom(candidates[i]);
      var hasGate := false;
      if from.Some? { hasGate := HasRemainingHumanGate(candidates[i].graph, from.value, show); }
      if hasGate {
        FirstWithGateIsFirst(candidates, show, i);
        return candidates[i];
      }
      if fallback.None? { fallback := Some(candidates[i]); }
    }
    return fallback.value;
  }

  /** The row a claim takes: the two queries, then the choice within the top band. */
  ghost function Next(rows: seq<Run>, show: Value -> string): Option<Run> {
    var top := TopPriority(rows);
    if top.None? || Band(rows, top.value) == [] then None else Some(Pick(Band(rows, top.value), show))
  }

  /** The two-stage claim takes the queued run that is ahead of every other queued run. */
  lemma NextIsAheadOfAll(rows: seq<Run>, show: Value -> string)
    requires UniqueIds(rows)
    ensures Next(rows, show).None? <==> forall r :: r in rows ==> r.status != Queued
    ensures Next(rows, show).Some? ==> Next(rows, show).value in rows && Next(rows, show).value.status == Queued
    ensures Next(rows, show).Some? ==> forall q :: q in rows && q.status == Queued ==>
              q == Next(rows, show).value || Ahead(Next(rows, show).value, q, show)
  {
    var top := TopPriority(rows);
    if top.Some? {
      var band := Band(rows, top.value);
      BandIsSorted(rows, top.value);
      var r0 :| r0 in rows && r0.status == Queued && r0.priority == top.value;
      assert r0 in band;
      PickIsAhead(band, show, top.value);
    }
  }

  lemma PickIsAhead(band: seq<Run>, show: Value -> string, p: int)
    requires band != [] && ByAge(band) && forall x :: x in band ==> x.priority == p
    ensures forall x :: x in band ==> x == Pick(band, show) || Ahead(Pick(band, show), x, show)
  {
    if exists i :: 0 <= i < |band| && HasGate(band[i], show) {
      FirstWithGateIsOldest(band, show);
    } else {
      forall x | x in band ensures x == band[0] || Ahead(band[0], x, show) {
        var j :| 0 <= j < |band| && band[j] == x;
        assert !HasGate(band[0], show) && !HasGate(band[j], show);
      }
    }
  }
}
