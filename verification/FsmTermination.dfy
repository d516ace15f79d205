/** The driver's loop over the graph ends: how often it can enter a node. */
module FsmTermination {
  import opened ExecSlot
  import opened Expr
  import opened Routing
  import opened Workflow

  /** How one execution of a node comes back to the driver. */
  datatype Result = Succeeded | Failed(retryable: bool) | Paused | Abandoned

  /** One visit: its result, its outcome, and everything guards may look at by then. */
  datatype Visit = Visit(result: Result, outcome: Outcome, env: Env, halted: bool)

  /** What the nodes do, visit by visit; nothing else is known of them. */
  type World = (nat, string) -> Visit

  /** What the loop keeps: the current node, the rollback counter, the retries used. */
  datatype Fsm = Fsm(cur: string, attempt: nat, retries: map<string, nat>)

  function Used(retries: map<string, nat>, n: string): nat {
    if n in retries then retries[n] else 0
  }

  predicate Declared(g: Graph, id: string) {
    id != "" && FindNode(g, id).Some?
  }

  function AttemptAfter(attempt: nat, m: Move): nat {
    if m.RollBack? then attempt + 1 else attempt
  }

  /** One turn of the loop at a declared node. */
  function StepOf(g: Graph, s: Fsm, v: Visit, retryMax: int): Fsm
    requires Declared(g, s.cur)
  {
    var node := FindNode(g, s.cur).value;
    var edges := OutEdges(g, s.cur);
    match v.result
    case Paused => s.(cur := "")
    case Abandoned => s.(cur := "")
    case Succeeded =>
      var m := SuccessMove(edges, node, v.outcome, v.env, s.attempt, v.halted);
      s.(cur := Target(m), attempt := AttemptAfter(s.attempt, m))
    case Failed(retryable) =>
      var m := FailureMove(edges, v.outcome, v.env, s.attempt);
      var attempt := AttemptAfter(s.attempt, m);
      if Target(m) != "" then s.(cur := Target(m), attempt := attempt)
      else if retryMax > 0 && retryable && Used(s.retries, s.cur) < retryMax then
        s.(attempt := attempt, retries := s.retries[s.cur := Used(s.retries, s.cur) + 1])
      else s.(cur := "", attempt := attempt)
  }

  /** The loop after `k` visits, or where it ended before. */
  function Run(g: Graph, w: World, retryMax: int, s: Fsm, k: nat): Fsm {
    if k == 0 then s
    else
      var t := Run(g, w, retryMax, s, k - 1);
      if Declared(g, t.cur) then StepOf(g, t, w(k - 1, t.cur), retryMax) else t
  }

  // --- What a turn does ------------------------------------------------------------

  /** After a success the loop goes on where routing says, after a pause or a lost run nowhere;
      retries are for failures. */
  lemma SuccessMovesOn(g: Graph, s: Fsm, v: Visit, retryMax: int)
    requires Declared(g, s.cur) && !v.result.Failed?
    ensures var t := StepOf(g, s, v, retryMax);
            var m := SuccessMove(OutEdges(g, s.cur), FindNode(g, s.cur).value, v.outcome, v.env, s.attempt, v.halted);
            && t.retries == s.retries
            && (v.result.Succeeded? ==> t.cur == Target(m) && t.attempt == s.attempt + if m.RollBack? then 1 else 0)
            && (!v.result.Succeeded? ==> t.cur == "" && t.attempt == s.attempt)
  {
  }

  /** A failure goes on where routing says; where that is nowhere the node is entered again,
      at the price of one of its retries, while the failure allows it and one is left, and
      otherwise the loop ends. */
  lemma FailureMovesOn(g: Graph, s: Fsm, v: Visit, retryMax: int)
    requires Declared(g, s.cur) && v.result.Failed?
    ensures var t := StepOf(g, s, v, retryMax);
            var m := FailureMove(OutEdges(g, s.cur), v.outcome, v.env, s.attempt);
            && t.attempt == s.attempt + (if m.RollBack? then 1 else 0)
            && (Target(m) != "" ==> t.cur == Target(m) && t.retries == s.retries)
            && (Target(m) == "" && v.result.retryable && Used(s.retries, s.cur) < retryMax ==>
                  t.cur == s.cur && Used(t.retries, s.cur) == Used(s.retries, s.cur) + 1
                  && forall n :: n != s.cur ==> Used(t.retries, n) == Used(s.retries, n))
            && (Target(m) == "" && !(v.result.retryable && Used(s.retries, s.cur) < retryMax) ==>
                  t.cur == "" && t.retries == s.retries)
  {
  }

  // --- Conditions for an end -------------------------------------------------------

  /** Success edges, failure edges and gotos lead to a lower rank. */
  ghost predicate Descends(g: Graph, rank: string -> int, gotos: string -> set<string>) {
    && (forall e :: e in g.edges && KindOrDefault(e) != "rollback" && e.target != "" ==> rank(e.target) < rank(e.source))
    && (forall n, t :: t in gotos(n) ==> rank(t) < rank(n))
  }

  /** Every rollback edge has a positive cap, none above `cap`. */
  ghost predicate Capped(g: Graph, cap: nat) {
    forall e :: e in g.edges && KindOrDefault(e) == "rollback" ==> 0 < e.maxAttempts <= cap
  }

  /** Nodes jump only where their configuration says. */
  ghost predicate Configured(w: World, gotos: string -> set<string>) {
    forall k, n :: w(k, n).outcome.goto != "" ==> w(k, n).outcome.goto in gotos(n)
  }

  // --- The measure --------------------------------------------------------------

  function Ids(nodes: seq<Node>): (ids: seq<string>)
    ensures forall i, j :: 0 <= i < j < |ids| ==> ids[i] != ids[j]
    ensures forall id :: id in ids <==> exists n :: n in nodes && n.id == id
    ensures |ids| <= |nodes|
  {
    if nodes == [] then []
    else
      var rest := Ids(nodes[1..]);
      assert forall n :: n in nodes <==> n == nodes[0] || n in nodes[1..];
      if nodes[0].id in rest then rest else [nodes[0].id] + rest
  }

  function Below(ids: seq<string>, rank: string -> int, r: int): nat {
    if ids == [] then 0 else (if rank(ids[0]) <= r then 1 else 0) + Below(ids[1..], rank, r)
  }

  function RetriesLeft(ids: seq<string>, retries: map<string, nat>, retryMax: nat): nat {
    if ids == [] then 0
    else (if Used(retries, ids[0]) < retryMax then retryMax - Used(retries, ids[0]) else 0)
         + RetriesLeft(ids[1..], retries, retryMax)
  }

  function Left(cap: nat, attempt: nat): nat {
    if attempt < cap then cap - attempt else 0
  }

  function Times(a: nat, n: nat): nat {
    a * n
  }

  /** Rollbacks left, then retries left, then how far down the ranks: 0 once the loop is over. */
  ghost function Measure(g: Graph, rank: string -> int, cap: nat, retryMax: nat, s: Fsm): nat {
    var ids := Ids(g.nodes);
    if Declared(g, s.cur)
    then Times(Left(cap, s.attempt), |ids|) + RetriesLeft(ids, s.retries, retryMax) + Below(ids, rank, rank(s.cur))
    else 0
  }

  lemma {:induction false} BelowBounds(ids: seq<string>, rank: string -> int, r: int, n: string)
    ensures Below(ids, rank, r) <= |ids|
    ensures n in ids && rank(n) <= r ==> Below(ids, rank, r) > 0
  {
    if ids != [] { BelowBounds(ids[1..], rank, r, n); }
  }

  lemma {:induction false} BelowGrows(ids: seq<string>, rank: string -> int, lo: int, n: string)
    requires lo < rank(n)
    ensures Below(ids, rank, lo) <= Below(ids, rank, rank(n))
    ensures n in ids ==> Below(ids, rank, lo) < Below(ids, rank, rank(n))
  {
    if ids != [] { BelowGrows(ids[1..], rank, lo, n); }
  }

  lemma {:induction false} RetryCosts(ids: seq<string>, retries: map<string, nat>, retryMax: nat, n: string)
    requires forall i, j :: 0 <= i < j < |ids| ==> ids[i] != ids[j]
    requires Used(retries, n) < retryMax
    ensures RetriesLeft(ids, retries[n := Used(retries, n) + 1], retryMax)
            == RetriesLeft(ids, retries, retryMax) - if n in ids then 1 else 0
  {
    if ids != [] { RetryCosts(ids[1..], retries, retryMax, n); }
  }

  lemma {:induction false} RetriesBound(ids: seq<string>, retries: map<string, nat>, retryMax: nat)
    ensures RetriesLeft(ids, retries, retryMax) <= |ids| * retryMax
  {
    if ids != [] { RetriesBound(ids[1..], retries, retryMax); }
  }

  lemma DeclaredIsListed(g: Graph, id: string)
    requires Declared(g, id)
    ensures id in Ids(g.nodes)
  {
  }

  lemma LessLeft(cap: nat, attempt: nat, n: nat)
    requires attempt < cap
    ensures Times(Left(cap, attempt + 1), n) + n == Times(Left(cap, attempt), n)
  {
  }

  // --- Each turn lowers the measure -----------------------------------------------

  /** Where a move can lead: down the ranks, or anywhere at the price of an attempt. */
  lemma MoveDescends(g: Graph, rank: string -> int, gotos: string -> set<string>, cap: nat, s: Fsm, v: Visit, m: Move)
    requires Descends(g, rank, gotos) && Capped(g, cap)
    requires v.outcome.goto != "" ==> v.outcome.goto in gotos(s.cur)
    requires AlongAnOutEdge(OutEdges(g, s.cur), m, s.attempt) && (m.Jump? ==> m.to == v.outcome.goto)
    ensures Target(m) != "" && !m.RollBack? ==> rank(Target(m)) < rank(s.cur)
    ensures m.RollBack? ==> s.attempt < cap
  {
  }

  lemma MoveOf(g: Graph, s: Fsm, v: Visit) returns (m: Move)
    requires Declared(g, s.cur) && (v.result.Succeeded? || v.result.Failed?)
    ensures m == if v.result.Succeeded?
                 then SuccessMove(OutEdges(g, s.cur), FindNode(g, s.cur).value, v.outcome, v.env, s.attempt, v.halted)
                 else FailureMove(OutEdges(g, s.cur), v.outcome, v.env, s.attempt)
    ensures AlongAnOutEdge(OutEdges(g, s.cur), m, s.attempt) && (m.Jump? ==> m.to == v.outcome.goto)
  {
    var edges, node := OutEdges(g, s.cur), FindNode(g, s.cur).value;
    MovesAlongEdges(edges, node, v.outcome, v.env, s.attempt, v.halted);
    m := if v.result.Succeeded? then SuccessMove(edges, node, v.outcome, v.env, s.attempt, v.halted)
         else FailureMove(edges, v.outcome, v.env, s.attempt);
  }

  lemma MeasureAfterMove(g: Graph, rank: string -> int, cap: nat, retryMax: nat, s: Fsm, to: string, back: bool)
    requires Declared(g, s.cur) && Declared(g, to)
    requires if back then s.attempt < cap else rank(to) < rank(s.cur)
    ensures Measure(g, rank, cap, retryMax, s.(cur := to, attempt := s.attempt + if back then 1 else 0))
            < Measure(g, rank, cap, retryMax, s)
  {
    if back { MeasureAfterBack(g, rank, cap, retryMax, s, to); } else { MeasureAfterDown(g, rank, cap, retryMax, s, to); }
  }

  lemma MeasureAfterDown(g: Graph, rank: string -> int, cap: nat, retryMax: nat, s: Fsm, to: string)
    requires Declared(g, s.cur) && Declared(g, to) && rank(to) < rank(s.cur)
    ensures Measure(g, rank, cap, retryMax, s.(cur := to)) < Measure(g, rank, cap, retryMax, s)
  {
    DeclaredIsListed(g, s.cur);
    hide Ids, Below, RetriesLeft, FindNode, Left, Times;
    BelowGrows(Ids(g.nodes), rank, rank(to), s.cur);
  }

  lemma MeasureIs(g: Graph, rank: string -> int, cap: nat, retryMax: nat, s: Fsm)
    requires Declared(g, s.cur)
    ensures Measure(g, rank, cap, retryMax, s) ==
            Times(Left(cap, s.attempt), |Ids(g.nodes)|) + RetriesLeft(Ids(g.nodes), s.retries, retryMax)
            + Below(Ids(g.nodes), rank, rank(s.cur))
  {
  }

  lemma MeasureAfterBack(g: Graph, rank: string -> int, cap: nat, retryMax: nat, s: Fsm, to: string)
    requires Declared(g, s.cur) && Declared(g, to) && s.attempt < cap
    ensures Measure(g, rank, cap, retryMax, s.(cur := to, attempt := s.attempt + 1)) < Measure(g, rank, cap, retryMax, s)
  {
    DeclaredIsListed(g, s.cur);
    hide Measure, Ids, Below, RetriesLeft, FindNode, Left, Times, Declared;
    var ids, t := Ids(g.nodes), s.(cur := to, attempt := s.attempt + 1);
    MeasureIs(g, rank, cap, retryMax, s);
    MeasureIs(g, rank, cap, retryMax, t);
    BelowBounds(ids, rank, rank(s.cur), s.cur);
    BelowBounds(ids, rank, rank(to), to);
    LessLeft(cap, s.attempt, |ids|);
  }

  lemma MeasureAfterRetry(g: Graph, rank: string -> int, cap: nat, retryMax: nat, s: Fsm, attempt: nat)
    requires Declared(g, s.cur) && Used(s.retries, s.cur) < retryMax && s.attempt <= attempt
    ensures Measure(g, rank, cap, retryMax, Fsm(s.cur, attempt, s.retries[s.cur := Used(s.retries, s.cur) + 1]))
            < Measure(g, rank, cap, retryMax, s)
  {
    var ids := Ids(g.nodes);
    DeclaredIsListed(g, s.cur);
    RetryCosts(ids, s.retries, retryMax, s.cur);
    Scaled(Left(cap, attempt), Left(cap, s.attempt), |ids|);
  }

  lemma Scaled(a: nat, b: nat, n: nat)
    requires a <= b
    ensures Times(a, n) <= Times(b, n)
  {
  }

  lemma MeasurePositive(g: Graph, rank: string -> int, cap: nat, retryMax: nat, s: Fsm)
    requires Declared(g, s.cur)
    ensures Measure(g, rank, cap, retryMax, s) > 0
  {
    DeclaredIsListed(g, s.cur);
    BelowBounds(Ids(g.nodes), rank, rank(s.cur), s.cur);
    Scaled(0, Left(cap, s.attempt), |Ids(g.nodes)|);
    hide Left, Ids, Below, RetriesLeft;
  }

  lemma StepLowers(g: Graph, rank: string -> int, gotos: string -> set<string>, cap: nat, retryMax: nat, s: Fsm, v: Visit)
    requires Descends(g, rank, gotos) && Capped(g, cap) && Declared(g, s.cur)
    requires v.outcome.goto != "" ==> v.outcome.goto in gotos(s.cur)
    ensures Measure(g, rank, cap, retryMax, StepOf(g, s, v, retryMax)) < Measure(g, rank, cap, retryMax, s)
    ensures StepOf(g, s, v, retryMax).attempt <= if s.attempt < cap then cap else s.attempt
  {
    hide Measure, SuccessMove, FailureMove, AlongAnOutEdge, Descends, Capped, FindNode;
    MeasurePositive(g, rank, cap, retryMax, s);
    if v.result.Succeeded? || v.result.Failed? {
      var m := MoveOf(g, s, v);
      MoveDescends(g, rank, gotos, cap, s, v, m);
      var s2 := StepOf(g, s, v, retryMax);
      if !Declared(g, s2.cur) {
        MeasureAtEnd(g, rank, cap, retryMax, s2);
      } else if Target(m) != "" {
        MeasureAfterMove(g, rank, cap, retryMax, s, Target(m), m.RollBack?);
      } else {
        MeasureAfterRetry(g, rank, cap, retryMax, s, AttemptAfter(s.attempt, m));
      }
    } else {
      MeasureAtEnd(g, rank, cap, retryMax, s.(cur := ""));
    }
  }

  lemma MeasureAtEnd(g: Graph, rank: string -> int, cap: nat, retryMax: nat, s: Fsm)
    requires !Declared(g, s.cur)
    ensures Measure(g, rank, cap, retryMax, s) == 0
  {
  }

  /** What a fresh driver starts with. */
  lemma MeasureAtStart(g: Graph, rank: string -> int, cap: nat, retryMax: nat, s: Fsm)
    ensures Measure(g, rank, cap, retryMax, s)
            <= (Left(cap, s.attempt) + 1) * |Ids(g.nodes)| + |Ids(g.nodes)| * retryMax
  {
    hide Ids, Below, RetriesLeft, Left, FindNode;
    var ids := Ids(g.nodes);
    RetriesBound(ids, s.retries, retryMax);
    BelowBounds(ids, rank, rank(s.cur), s.cur);
    assert (Left(cap, s.attempt) + 1) * |ids| == Left(cap, s.attempt) * |ids| + |ids|;
  }

  // --- The loop ----------------------------------------------------------------------

  /** Whatever the nodes do, the loop has ended after (cap + 1) times the number of nodes
      plus the retries of every node, and accepted no more rollbacks than the largest cap. */
  lemma {:induction false} AlwaysEnds(g: Graph, rank: string -> int, gotos: string -> set<string>, cap: nat,
                                      w: World, retryMax: nat, s: Fsm, k: nat)
    requires Descends(g, rank, gotos) && Capped(g, cap) && Configured(w, gotos)
    ensures Declared(g, Run(g, w, retryMax, s, k).cur) ==>
              k < (Left(cap, s.attempt) + 1) * |Ids(g.nodes)| + |Ids(g.nodes)| * retryMax
    ensures Run(g, w, retryMax, s, k).attempt <= if s.attempt < cap then cap else s.attempt
  {
    RunLowers(g, rank, gotos, cap, w, retryMax, s, k);
    MeasureAtStart(g, rank, cap, retryMax, s);
    if Declared(g, Run(g, w, retryMax, s, k).cur) {
      MeasurePositive(g, rank, cap, retryMax, Run(g, w, retryMax, s, k));
    }
  }

  lemma {:induction false} RunLowers(g: Graph, rank: string -> int, gotos: string -> set<string>, cap: nat,
                                     w: World, retryMax: nat, s: Fsm, k: nat)
    requires Descends(g, rank, gotos) && Capped(g, cap) && Configured(w, gotos)
    ensures Declared(g, Run(g, w, retryMax, s, k).cur) ==>
              Measure(g, rank, cap, retryMax, Run(g, w, retryMax, s, k)) + k <= Measure(g, rank, cap, retryMax, s)
    ensures Run(g, w, retryMax, s, k).attempt <= if s.attempt < cap then cap else s.attempt
  {
    hide Measure, StepOf, Descends, Capped, Declared;
    if k > 0 {
      RunLowers(g, rank, gotos, cap, w, retryMax, s, k - 1);
      var t := Run(g, w, retryMax, s, k - 1);
      if Declared(g, t.cur) {
        StepLowers(g, rank, gotos, cap, retryMax, t, w(k - 1, t.cur));
      }
    }
  }

  /** tryAutoRetry: whether to enter the failed node again, and the count it then has. */
  method TryAutoRetry(retries: map<string, nat>, n: string, retryable: bool, retryMax: int)
    returns (again: bool, after: map<string, nat>)
    ensures again == (retryMax > 0 && retryable && Used(retries, n) < retryMax)
    ensures after == if again then retries[n := Used(retries, n) + 1] else retries
  {
    if retryMax <= 0 || !retryable || Used(retries, n) >= retryMax { return false, retries; }
    return true, retries[n := Used(retries, n) + 1];
  }

  /** The body of the loop at a declared node. */
  method Turn(g: Graph, s: Fsm, v: Visit, retryMax: int) returns (s2: Fsm)
    requires Declared(g, s.cur)
    ensures s2 == StepOf(g, s, v, retryMax)
  {
    hide SuccessMove, FailureMove;
    var cur, attempt: nat, retries := s.cur, s.attempt, s.retries;
    match v.result {
      case Paused => cur := "";
      case Abandoned => cur := "";
      case Succeeded =>
        var m := SuccessMove(OutEdges(g, cur), FindNode(g, cur).value, v.outcome, v.env, attempt, v.halted);
        cur, attempt := Target(m), AttemptAfter(attempt, m);
      case Failed(retryable) =>
        var m := FailureMove(OutEdges(g, cur), v.outcome, v.env, attempt);
        attempt := AttemptAfter(attempt, m);
        var next := Target(m);
        if next == "" {
          var again, after := TryAutoRetry(retries, cur, retryable, retryMax);
          retries := after;
          if !again { cur := ""; }
        } else {
          cur := next;
        }
    }
    return Fsm(cur, attempt, retries);
  }

  /** The loop of execute. */
  method Execute(g: Graph, from: string, attempt0: nat, w: World, retryMax: nat,
                 ghost rank: string -> int, ghost gotos: string -> set<string>, ghost cap: nat)
    returns (visits: nat, end: Fsm)
    requires Descends(g, rank, gotos) && Capped(g, cap) && Configured(w, gotos)
    ensures end == Run(g, w, retryMax, Fsm(from, attempt0, map[]), visits) && !Declared(g, end.cur)
    ensures visits <= (Left(cap, attempt0) + 1) * |Ids(g.nodes)| + |Ids(g.nodes)| * retryMax
    ensures end.attempt <= if attempt0 < cap then cap else attempt0
  {
    hide Measure, Descends, Capped, StepOf, Ids, FindNode;
    end := Fsm(from, attempt0, map[]);
    visits := 0;
    ghost var s0 := end;
    ghost var bound: nat := (Left(cap, attempt0) + 1) * |Ids(g.nodes)| + |Ids(g.nodes)| * retryMax;
    while end.cur != ""
      invariant end == Run(g, w, retryMax, s0, visits)
      invariant visits <= bound
      decreases Measure(g, rank, cap, retryMax, end)
    {
      if FindNode(g, end.cur).None? { break; }
      AlwaysEnds(g, rank, gotos, cap, w, retryMax, s0, visits);
      StepLowers(g, rank, gotos, cap, retryMax, end, w(visits, end.cur));
      end := Turn(g, end, w(visits, end.cur), retryMax);
      visits := visits + 1;
    }
    AlwaysEnds(g, rank, gotos, cap, w, retryMax, s0, visits);
  }

  // --- Without a cap ----------------------------------------------------------------

  /** A rollback edge whose cap is 0 is never used up: a node that keeps failing runs for ever. */
  lemma {:induction false} UncappedRollbackNeverEnds(g: Graph, w: World, retryMax: int, s: Fsm, k: nat)
    requires |g.nodes| == 1 && g.nodes[0].id == "a" == s.cur
    requires g.edges == [Edge("a", "a", "", "rollback", [], 0)]
    requires forall i :: w(i, "a").result.Failed? && w(i, "a").outcome == Outcome("", map[])
    ensures Run(g, w, retryMax, s, k).cur == "a" && Run(g, w, retryMax, s, k).attempt == s.attempt + k
    ensures Declared(g, "a")
  {
    if k > 0 {
      UncappedRollbackNeverEnds(g, w, retryMax, s, k - 1);
      var t := Run(g, w, retryMax, s, k - 1);
      RollsBackAgain(g, w(k - 1, "a"), retryMax, t);
    }
  }

  lemma RollsBackAgain(g: Graph, v: Visit, retryMax: int, t: Fsm)
    requires Declared(g, "a") && t.cur == "a" && g.edges == [Edge("a", "a", "", "rollback", [], 0)]
    requires v.result.Failed? && v.outcome == Outcome("", map[])
    ensures StepOf(g, t, v, retryMax) == t.(attempt := t.attempt + 1)
  {
  }
}
