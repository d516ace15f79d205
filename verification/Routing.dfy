/** Which state comes next after a node succeeds or fails, and what a rollback costs. */
module Routing {
  import opened ExecSlot
  import opened Expr
  import opened GuardEval
  import opened Lists
  import opened Text
  import opened VarState
  import opened Workflow

  /** A node's outcome: an explicit goto ("" for none) and its outputs. */
  datatype Outcome = Outcome(goto: string, outputs: map<string, Value>)

  /** How the run moves on. */
  datatype Move =
    | Stop
    | Halt
    | Jump(to: string)
    | Follow(e: Edge)
    | RollBack(e: Edge)

  function Target(m: Move): string {
    match m
    case Stop => ""
    case Halt => ""
    case Jump(to) => to
    case Follow(e) => e.target
    case RollBack(e) => e.target
  }

  /** A rollback is taken unless its cap is positive and used up. */
  predicate MayRollBack(e: Edge, attempt: int) {
    !(e.maxAttempts > 0 && attempt + 1 > e.maxAttempts)
  }

  predicate Contains(s: string, sub: string) {
    HasPrefix(s, sub) || (s != "" && Contains(s[1..], sub))
  }

  predicate Mentions(s: string, id: string) {
    Contains(s, "'" + id + "'") || Contains(s, "\"" + id + "\"")
  }

  predicate WhenLooksLikeFailAction(when: string) {
    var w := Trim(when);
    w != "" && Contains(w, "action") && (Mentions(w, "fail") || Mentions(w, "reject") || Mentions(w, "revise"))
  }

  /** Guards see the variables, the node outputs, and the action when there is one. */
  function RouteEnv(base: Env, vars: Bindings, outcome: Outcome): Env {
    base.(vars := vars,
          extra := if "action" in outcome.outputs then map["action" := outcome.outputs["action"]] else map[])
  }

  // --- The first edge that qualifies --------------------------------------------

  lemma FirstIndexIs(edges: seq<Edge>, ok: Edge -> bool, i: nat)
    requires i <= |edges| && (i < |edges| ==> ok(edges[i]))
    requires forall j :: 0 <= j < i ==> !ok(edges[j])
    ensures FirstIndex(edges, ok) == i
  {
  }

  /** On success: the guard passes, and a rollback still has attempts. */
  predicate Takes(e: Edge, env: Env, attempt: int) {
    GuardPasses(e.when, env) && (KindOrDefault(e) == "rollback" ==> MayRollBack(e, attempt))
  }

  /** The success edge taken when no guard passes; never a fail action of a preview node. */
  predicate IsFallback(e: Edge, node: Node) {
    KindOrDefault(e) == "success" && !(node.kind == "app_preview" && WhenLooksLikeFailAction(e.when))
  }

  /** On failure with an action: a success edge whose guard is written and passes. */
  predicate MatchesAction(e: Edge, env: Env) {
    KindOrDefault(e) == "success" && Trim(e.when) != "" && GuardPasses(e.when, env)
  }

  predicate IsOpenRollback(e: Edge, attempt: int) {
    KindOrDefault(e) == "rollback" && MayRollBack(e, attempt)
  }

  function Along(e: Edge): Move {
    if KindOrDefault(e) == "rollback" then RollBack(e) else Follow(e)
  }

  function SuccessMove(edges: seq<Edge>, node: Node, outcome: Outcome, env: Env, attempt: int, halted: bool): Move {
    if halted then Halt
    else if node.kind == "branch" then (if outcome.goto != "" then Jump(outcome.goto) else Stop)
    else if outcome.goto != "" then Jump(outcome.goto)
    else ScanMove(edges, node, env, attempt)
  }

  /** The first edge taken, else the fallback, else the end. */
  function ScanMove(edges: seq<Edge>, node: Node, env: Env, attempt: int): Move {
    var i := FirstIndex(edges, e => Takes(e, env, attempt));
    var f := FirstIndex(edges, e => IsFallback(e, node));
    if i < |edges| then Along(edges[i]) else if f < |edges| then Follow(edges[f]) else Stop
  }

  lemma ScanTakes(edges: seq<Edge>, node: Node, env: Env, attempt: int, i: nat)
    requires i < |edges| && Takes(edges[i], env, attempt)
    requires forall j :: 0 <= j < i ==> !Takes(edges[j], env, attempt)
    ensures ScanMove(edges, node, env, attempt) == Along(edges[i])
  {
    hide GuardPasses;
    FirstIndexIs(edges, e => Takes(e, env, attempt), i);
  }

  lemma ScanFallsBack(edges: seq<Edge>, node: Node, env: Env, attempt: int, f: nat)
    requires forall j :: 0 <= j < |edges| ==> !Takes(edges[j], env, attempt)
    requires f <= |edges| && (f < |edges| ==> IsFallback(edges[f], node))
    requires forall j :: 0 <= j < f ==> !IsFallback(edges[j], node)
    ensures ScanMove(edges, node, env, attempt) == if f < |edges| then Follow(edges[f]) else Stop
  {
    hide Takes, IsFallback;
    FirstIndexIs(edges, e => Takes(e, env, attempt), |edges|);
    FirstIndexIs(edges, e => IsFallback(e, node), f);
  }

  function FailureMove(edges: seq<Edge>, outcome: Outcome, env: Env, attempt: int): Move {
    if outcome.goto != "" then Jump(outcome.goto)
    else
      var a := if "action" in outcome.outputs then FirstIndex(edges, e => MatchesAction(e, env)) else |edges|;
      var r := FirstIndex(edges, e => IsOpenRollback(e, attempt));
      var f := FirstIndex(edges, e => KindOrDefault(e) == "failure");
      if a < |edges| then Follow(edges[a])
      else if r < |edges| then RollBack(edges[r])
      else if f < |edges| then Follow(edges[f])
      else Stop
  }

  // --- The driver's context -------------------------------------------------------

  class Context {
    const graph: Graph
    const base: Env
    const state: Variables
    var attempt: int
    var savedAttempt: int
    var checkpoints: map<string, Bindings>
    var halted: bool

    constructor (graph: Graph, base: Env, state: Variables, attempt: int, checkpoints: map<string, Bindings>)
      ensures this.graph == graph && this.base == base && this.state == state
      ensures this.attempt == savedAttempt == attempt && this.checkpoints == checkpoints && !halted
    {
      this.graph, this.base, this.state, this.checkpoints := graph, base, state, checkpoints;
      this.attempt, this.savedAttempt, this.halted := attempt, attempt, false;
    }

    /** snapshotCheckpoint. */
    method SnapshotCheckpoint(id: string)
      modifies this`checkpoints
      ensures checkpoints == old(checkpoints)[id := StripAll(state.vars, state.strip)]
    {
      var snap := state.Snapshot();
      checkpoints := checkpoints[id := snap];
    }

    ghost function SnapshotFor(e: Edge): Bindings
      reads this
    {
      if e.target in checkpoints then checkpoints[e.target] else map[]
    }

    /** doRollback. */
    method DoRollback(e: Edge) returns (ok: bool)
      modifies this`attempt, this`savedAttempt, state
      ensures ok == MayRollBack(e, old(attempt))
      ensures Moved(if ok then RollBack(e) else Stop)
    {
      attempt := attempt + 1;
      if e.maxAttempts > 0 && attempt > e.maxAttempts {
        attempt := attempt - 1;
        return false;
      }
      savedAttempt := attempt;
      state.RollBack(if e.target in checkpoints then checkpoints[e.target] else map[], e.carry);
      return true;
    }

    /** What a move does to the attempt counter and the variables. */
    twostate predicate Moved(m: Move)
      reads this, state
    {
      if m.RollBack? then
        var snap := old(SnapshotFor(m.e));
        && attempt == savedAttempt == old(attempt) + 1
        && Pair(state.vars, state.table) ==
           Apply(Pair(old(state.vars), old(state.table)), Back(snap, m.e.carry), state.strip)
      else
        && attempt == old(attempt) && savedAttempt == old(savedAttempt)
        && state.vars == old(state.vars) && state.table == old(state.table)
    }

    /** The scan of routeSuccess: look for a passing edge and note the fallback on the way. */
    method Scan(edges: seq<Edge>, node: Node, env: Env) returns (next: string, ghost m: Move)
      modifies this`attempt, this`savedAttempt, state
      ensures m == ScanMove(edges, node, env, old(attempt)) && next == Target(m) && Moved(m)
    {
      hide GuardPasses, WhenLooksLikeFailAction, ScanMove;
      ghost var had := attempt;
      var firstSuccess: nat := |edges|;
      for i := 0 to |edges|
        invariant Moved(Stop) && attempt == had
        invariant forall j :: 0 <= j < i ==> !Takes(edges[j], env, had)
        invariant firstSuccess == |edges| || (firstSuccess < i && IsFallback(edges[firstSuccess], node))
        invariant forall j :: 0 <= j < i && j < firstSuccess ==> !IsFallback(edges[j], node)
      {
        var e := edges[i];
        if firstSuccess == |edges| && IsFallback(e, node) { firstSuccess := i; }
        if GuardPasses(e.when, env) {
          if KindOrDefault(e) == "rollback" {
            var ok := DoRollback(e);
            if ok {
              ScanTakes(edges, node, env, had, i);
              return e.target, RollBack(e);
            }
          } else {
            ScanTakes(edges, node, env, had, i);
            return e.target, Follow(e);
          }
        }
      }
      ScanFallsBack(edges, node, env, had, firstSuccess);
      if firstSuccess < |edges| { return edges[firstSuccess].target, Follow(edges[firstSuccess]); }
      return "", Stop;
    }

    /** routeSuccess. */
    method RouteSuccess(node: Node, outcome: Outcome) returns (next: string, ghost m: Move)
      modifies this`attempt, this`savedAttempt, state
      ensures m == SuccessMove(OutEdges(graph, node.id), node, outcome,
                               RouteEnv(base, old(state.vars), outcome), old(attempt), halted)
      ensures next == Target(m) && Moved(m)
      ensures !halted && outcome.goto != "" ==> next == outcome.goto
      ensures halted ==> next == ""
      ensures halted || outcome.goto != "" || node.kind == "branch" ==>
                attempt == old(attempt) && state.vars == old(state.vars) && state.table == old(state.table)
    {
      hide GuardPasses, WhenLooksLikeFailAction, ScanMove;
      if halted { return "", Halt; }
      if node.kind == "branch" {
        if outcome.goto != "" { return outcome.goto, Jump(outcome.goto); }
        return "", Stop;
      }
      if outcome.goto != "" { return outcome.goto, Jump(outcome.goto); }
      next, m := Scan(OutEdges(graph, node.id), node, RouteEnv(base, state.vars, outcome));
    }

    /** The first loop of routeFailure. */
    method MatchAction(edges: seq<Edge>, env: Env) returns (i: nat)
      ensures i == FirstIndex(edges, e => MatchesAction(e, env))
    {
      hide GuardPasses;
      i := 0;
      ghost var ok := e => MatchesAction(e, env);
      while i < |edges|
        invariant i <= |edges| && forall j :: 0 <= j < i ==> !ok(edges[j])
      {
        var e := edges[i];
        if KindOrDefault(e) == "success" && Trim(e.when) != "" && GuardPasses(e.when, env) { break; }
        i := i + 1;
      }
      FirstIndexIs(edges, ok, i);
    }

    /** The second loop of routeFailure: try every rollback edge. */
    method TryRollbacks(edges: seq<Edge>) returns (i: nat)
      modifies this`attempt, this`savedAttempt, state
      ensures i == FirstIndex(edges, e => IsOpenRollback(e, old(attempt)))
      ensures Moved(if i < |edges| then RollBack(edges[i]) else Stop)
    {
      i := 0;
      ghost var ok := e => IsOpenRollback(e, old(attempt));
      while i < |edges|
        invariant i <= |edges| && Moved(Stop) && forall j :: 0 <= j < i ==> !ok(edges[j])
      {
        if KindOrDefault(edges[i]) == "rollback" {
          var done := DoRollback(edges[i]);
          if done {
            FirstIndexIs(edges, ok, i);
            return;
          }
        }
        i := i + 1;
      }
      FirstIndexIs(edges, ok, i);
    }

    /** routeFailure: action matches, then rollbacks, then failure edges. */
    method RouteFailure(node: Node, outcome: Outcome) returns (next: string, ghost m: Move)
      modifies this`attempt, this`savedAttempt, state
      ensures m == FailureMove(OutEdges(graph, node.id), outcome,
                               RouteEnv(base, old(state.vars), outcome), old(attempt))
      ensures next == Target(m) && Moved(m)
      ensures outcome.goto != "" ==>
                next == outcome.goto && attempt == old(attempt)
                && state.vars == old(state.vars) && state.table == old(state.table)
    {
      hide GuardPasses, FirstIndex, MatchesAction, IsOpenRollback, Trim, KindOrDefault, RouteEnv;
      if outcome.goto != "" { return outcome.goto, Jump(outcome.goto); }
      var edges := OutEdges(graph, node.id);
      if "action" in outcome.outputs {
        var a := MatchAction(edges, RouteEnv(base, state.vars, outcome));
        if a < |edges| { return edges[a].target, Follow(edges[a]); }
      }
      var r := TryRollbacks(edges);
      if r < |edges| { return edges[r].target, RollBack(edges[r]); }
      var f := FirstIndex(edges, e => KindOrDefault(e) == "failure");
      if f < |edges| { return edges[f].target, Follow(edges[f]); }
      return "", Stop;
    }
  }

  // --- What routing promises -----------------------------------------------------

  /** A move that is neither a jump nor the end goes along an out-edge of the node, and
      backwards exactly on a rollback edge that still has attempts. */
  predicate AlongAnOutEdge(edges: seq<Edge>, m: Move, attempt: int) {
    match m
    case Follow(e) => e in edges && KindOrDefault(e) != "rollback"
    case RollBack(e) => e in edges && KindOrDefault(e) == "rollback" && MayRollBack(e, attempt)
    case _ => true
  }

  lemma MovesAlongEdges(edges: seq<Edge>, node: Node, outcome: Outcome, env: Env, attempt: int, halted: bool)
    ensures AlongAnOutEdge(edges, SuccessMove(edges, node, outcome, env, attempt, halted), attempt)
    ensures AlongAnOutEdge(edges, FailureMove(edges, outcome, env, attempt), attempt)
  {
  }

  /** After a success the run leaves along an edge that is not a success edge exactly when
      such an edge is taken before any other: an edge without a guard always passes, so a
      failure edge listed first wins over the success edge after it. */
  lemma SuccessLeavesOtherwise(edges: seq<Edge>, node: Node, outcome: Outcome, env: Env, attempt: int)
    requires node.kind != "branch" && outcome.goto == ""
    ensures var m := SuccessMove(edges, node, outcome, env, attempt, false);
            ((m.Follow? || m.RollBack?) && KindOrDefault(m.e) != "success") <==>
            exists i :: 0 <= i < |edges| && KindOrDefault(edges[i]) != "success" && Takes(edges[i], env, attempt)
                        && forall j :: 0 <= j < i ==> !Takes(edges[j], env, attempt)
  {
    hide GuardPasses, WhenLooksLikeFailAction;
    var i := FirstIndex(edges, e => Takes(e, env, attempt));
    if i < |edges| {
      ScanTakes(edges, node, env, attempt, i);
    } else {
      ScanFallsBack(edges, node, env, attempt, FirstIndex(edges, e => IsFallback(e, node)));
    }
  }

  /** A failure without an action rolls back whenever an attempt is left, and only then. */
  lemma FailureRollsBackFirst(edges: seq<Edge>, outcome: Outcome, env: Env, attempt: int)
    requires outcome.goto == "" && "action" !in outcome.outputs
    ensures FailureMove(edges, outcome, env, attempt).RollBack? <==>
            exists e :: e in edges && KindOrDefault(e) == "rollback" && MayRollBack(e, attempt)
  {
  }

  lemma UnguardedFailureEdgeWins(node: Node, outcome: Outcome, env: Env, attempt: int, bad: string, good: string)
    requires node.kind != "branch" && outcome.goto == ""
    ensures SuccessMove([Edge(node.id, bad, "", "failure", [], 0), Edge(node.id, good, "", "", [], 0)],
                        node, outcome, env, attempt, false)
            == Follow(Edge(node.id, bad, "", "failure", [], 0))
  {
  }

  /** The same edges with other guards. */
  ghost predicate SameButGuards(a: seq<Edge>, b: seq<Edge>) {
    |a| == |b| && forall i :: 0 <= i < |a| ==> a[i].(when := "") == b[i].(when := "")
  }

  /** Without an action a failure ignores every guard: it rolls back along the first
      rollback edge with attempts left, else leaves along the first failure edge. */
  lemma FailureIgnoresGuards(a: seq<Edge>, b: seq<Edge>, outcome: Outcome, env: Env, env2: Env, attempt: int)
    requires SameButGuards(a, b) && "action" !in outcome.outputs
    ensures Target(FailureMove(a, outcome, env, attempt)) == Target(FailureMove(b, outcome, env2, attempt))
    ensures FailureMove(a, outcome, env, attempt).RollBack? == FailureMove(b, outcome, env2, attempt).RollBack?
  {
    hide GuardPasses, Trim, IsOpenRollback, KindOrDefault, MatchesAction;
    var back := (e: Edge) => IsOpenRollback(e, attempt);
    var fails := (e: Edge) => KindOrDefault(e) == "failure";
    forall i | 0 <= i < |a|
      ensures a[i].target == b[i].target && back(a[i]) == back(b[i]) && fails(a[i]) == fails(b[i])
    {
      SameButGuard(a[i], b[i], attempt);
    }
    FirstIndexIs(b, back, FirstIndex(a, back));
    FirstIndexIs(b, fails, FirstIndex(a, fails));
  }

  lemma SameButGuard(a: Edge, b: Edge, attempt: int)
    requires a.(when := "") == b.(when := "")
    ensures a.target == b.target && KindOrDefault(a) == KindOrDefault(b)
    ensures IsOpenRollback(a, attempt) == IsOpenRollback(b, attempt)
  {
    assert a.(when := "").kind == b.(when := "").kind;
    assert a.(when := "").target == b.(when := "").target;
    assert a.(when := "").maxAttempts == b.(when := "").maxAttempts;
  }
}
