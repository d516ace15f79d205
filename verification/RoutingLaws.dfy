/** Where a run goes from a node, case by case. */
module RoutingLaws {
  import opened Expr
  import opened GuardEval
  import opened Lists
  import opened Routing
  import opened Text
  import opened VarState
  import opened Workflow

  // --- Explicit targets ------------------------------------------------------

  /** A node's goto is where the run goes, after a success unless it was halted and after any
      failure; nothing else is a jump. */
  lemma GotoIsFollowed(edges: seq<Edge>, node: Node, outcome: Outcome, env: Env, attempt: int, halted: bool)
    ensures outcome.goto != "" && !halted ==>
              SuccessMove(edges, node, outcome, env, attempt, halted) == Jump(outcome.goto)
    ensures outcome.goto != "" ==> FailureMove(edges, outcome, env, attempt) == Jump(outcome.goto)
    ensures SuccessMove(edges, node, outcome, env, attempt, halted).Jump? <==> !halted && outcome.goto != ""
    ensures FailureMove(edges, outcome, env, attempt).Jump? <==> outcome.goto != ""
    ensures Target(Jump(outcome.goto)) == outcome.goto
  {
    hide Takes, IsFallback, MatchesAction, IsOpenRollback;
  }

  /** A halted success goes nowhere, and nothing else halts; a branch ends exactly when it has
      no goto, whatever its edges. */
  lemma HaltsAndBranches(edges: seq<Edge>, node: Node, outcome: Outcome, env: Env, attempt: int, halted: bool)
    ensures halted <==> SuccessMove(edges, node, outcome, env, attempt, halted) == Halt
    ensures Target(Halt) == "" && Target(Stop) == "" && !FailureMove(edges, outcome, env, attempt).Halt?
    ensures node.kind == "branch" && !halted ==>
              (SuccessMove(edges, node, outcome, env, attempt, halted) == Stop <==> outcome.goto == "")
    ensures node.kind == "branch" ==>
              !SuccessMove(edges, node, outcome, env, attempt, halted).Follow?
              && !SuccessMove(edges, node, outcome, env, attempt, halted).RollBack?
  {
    hide Takes, IsFallback, MatchesAction, IsOpenRollback;
  }

  // --- Edges ------------------------------------------------------------------

  /** A rollback edge with a cap is taken at the attempts before the cap, so that many times;
      one without a cap always. */
  lemma CapCountsRollbacks(e: Edge)
    ensures e.maxAttempts > 0 ==> forall a: nat :: MayRollBack(e, a) <==> a < e.maxAttempts
    ensures e.maxAttempts <= 0 ==> forall a: nat :: MayRollBack(e, a)
  {
  }

  /** A success without a goto follows the first edge whose guard passes, rollback edges only
      while they have attempts, and its kind decides whether that is a rollback. */
  lemma SuccessFollows(edges: seq<Edge>, node: Node, outcome: Outcome, env: Env, attempt: int, i: nat)
    requires node.kind != "branch" && outcome.goto == "" && i < |edges|
    requires GuardPasses(edges[i].when, env) && (edges[i].kind == "rollback" ==> MayRollBack(edges[i], attempt))
    requires forall j :: 0 <= j < i ==>
               !GuardPasses(edges[j].when, env) || (edges[j].kind == "rollback" && !MayRollBack(edges[j], attempt))
    ensures var m := SuccessMove(edges, node, outcome, env, attempt, false);
            && Target(m) == edges[i].target
            && m == if edges[i].kind == "rollback" then RollBack(edges[i]) else Follow(edges[i])
  {
    hide GuardPasses, ScanMove;
    ScanTakes(edges, node, env, attempt, i);
  }

  /** An edge to fall back on: a success edge, which for a preview must not be one to fail by. */
  predicate MayFallBack(e: Edge, node: Node) {
    (e.kind == "" || e.kind == "success") && (node.kind == "app_preview" ==> !WhenLooksLikeFailAction(e.when))
  }

  /** Where no guard passes the run follows the first edge to fall back on, else it ends. */
  lemma SuccessFallsBack(edges: seq<Edge>, node: Node, outcome: Outcome, env: Env, attempt: int)
    requires node.kind != "branch" && outcome.goto == ""
    requires forall j :: 0 <= j < |edges| ==>
               !GuardPasses(edges[j].when, env) || (edges[j].kind == "rollback" && !MayRollBack(edges[j], attempt))
    ensures forall i: nat :: i < |edges| && MayFallBack(edges[i], node)
                             && (forall j :: 0 <= j < i ==> !MayFallBack(edges[j], node)) ==>
              SuccessMove(edges, node, outcome, env, attempt, false) == Follow(edges[i])
    ensures (forall j :: 0 <= j < |edges| ==> !MayFallBack(edges[j], node)) ==>
              SuccessMove(edges, node, outcome, env, attempt, false) == Stop
  {
    hide GuardPasses, ScanMove, WhenLooksLikeFailAction;
    forall j | 0 <= j < |edges| ensures !Takes(edges[j], env, attempt) && IsFallback(edges[j], node) == MayFallBack(edges[j], node) { }
    forall i: nat | i < |edges| && MayFallBack(edges[i], node) && (forall j :: 0 <= j < i ==> !MayFallBack(edges[j], node))
      ensures SuccessMove(edges, node, outcome, env, attempt, false) == Follow(edges[i])
    {
      ScanFallsBack(edges, node, env, attempt, i);
    }
    if forall j :: 0 <= j < |edges| ==> !MayFallBack(edges[j], node) {
      ScanFallsBack(edges, node, env, attempt, |edges|);
    }
  }

  /** With an action, a success edge whose written guard passes. */
  predicate ActionEdge(e: Edge, outcome: Outcome, env: Env) {
    "action" in outcome.outputs && (e.kind == "" || e.kind == "success") && Trim(e.when) != "" && GuardPasses(e.when, env)
  }

  predicate OpenBack(e: Edge, attempt: int) {
    e.kind == "rollback" && MayRollBack(e, attempt)
  }

  /** A failure without a goto follows the first edge its action matches; else it goes back
      along the first rollback edge with attempts left, guards or not; else it follows the
      first failure edge; else it ends. */
  lemma FailureFollows(edges: seq<Edge>, outcome: Outcome, env: Env, attempt: int, i: nat)
    requires outcome.goto == "" && i < |edges|
    ensures ActionEdge(edges[i], outcome, env) && (forall j :: 0 <= j < i ==> !ActionEdge(edges[j], outcome, env)) ==>
              FailureMove(edges, outcome, env, attempt) == Follow(edges[i])
    ensures OpenBack(edges[i], attempt) && (forall j :: 0 <= j < i ==> !OpenBack(edges[j], attempt))
            && (forall j :: 0 <= j < |edges| ==> !ActionEdge(edges[j], outcome, env)) ==>
              FailureMove(edges, outcome, env, attempt) == RollBack(edges[i])
    ensures edges[i].kind == "failure" && (forall j :: 0 <= j < i ==> edges[j].kind != "failure")
            && (forall j :: 0 <= j < |edges| ==> !ActionEdge(edges[j], outcome, env) && !OpenBack(edges[j], attempt)) ==>
              FailureMove(edges, outcome, env, attempt) == Follow(edges[i])
  {
    hide GuardPasses, Trim;
    var a, r, f := (e: Edge) => MatchesAction(e, env), (e: Edge) => IsOpenRollback(e, attempt), (e: Edge) => KindOrDefault(e) == "failure";
    forall j | 0 <= j < |edges|
      ensures r(edges[j]) == OpenBack(edges[j], attempt) && f(edges[j]) == (edges[j].kind == "failure")
      ensures ActionEdge(edges[j], outcome, env) == ("action" in outcome.outputs && a(edges[j]))
    {
    }
    hide MatchesAction, IsOpenRollback, ActionEdge, OpenBack, KindOrDefault;
    FirstAt(edges, a, i);
    FirstAt(edges, r, i);
    FirstAt(edges, f, i);
  }

  lemma FirstAt(edges: seq<Edge>, ok: Edge -> bool, i: nat)
    requires i < |edges|
    ensures ok(edges[i]) && (forall j :: 0 <= j < i ==> !ok(edges[j])) ==> FirstIndex(edges, ok) == i
    ensures (forall j :: 0 <= j < |edges| ==> !ok(edges[j])) ==> FirstIndex(edges, ok) == |edges|
  {
  }

  lemma FailureEnds(edges: seq<Edge>, outcome: Outcome, env: Env, attempt: int)
    requires outcome.goto == ""
    requires forall j :: 0 <= j < |edges| ==>
               !ActionEdge(edges[j], outcome, env) && !OpenBack(edges[j], attempt) && edges[j].kind != "failure"
    ensures FailureMove(edges, outcome, env, attempt) == Stop
  {
    hide GuardPasses, Trim;
    if edges != [] { FailureFollows(edges, outcome, env, attempt, 0); }
  }

  // --- What guards see ------------------------------------------------------------

  /** Guards see the node's action under its name, the variables under theirs, and nothing
      else the node put out. */
  lemma GuardsSee(base: Env, vars: Bindings, outcome: Outcome, n: string)
    ensures var env := RouteEnv(base, vars, outcome);
            && env.vars == vars && env.nodes == base.nodes
            && (n in env.extra <==> n == "action" && n in outcome.outputs)
            && ("action" in outcome.outputs ==> env.extra["action"] == outcome.outputs["action"])
  {
  }

  lemma {:induction false} ContainsInside(a: string, b: string, c: string)
    ensures Contains(a + b + c, b)
  {
    if a == "" {
      assert (a + b + c)[..|b|] == b;
    } else {
      ContainsInside(a[1..], b, c);
      assert (a + b + c)[1..] == a[1..] + b + c;
    }
  }

  lemma {:induction false} ContainsExactly(s: string, sub: string)
    ensures Contains(s, sub) <==> exists a: string, c: string :: s == a + sub + c
  {
    if a: string, c: string :| s == a + sub + c { ContainsInside(a, sub, c); }
    if Contains(s, sub) { ContainsAt(s, sub); }
  }

  lemma OneMore(s: string, a: string, sub: string, c: string)
    requires s != "" && s[1..] == a + sub + c
    ensures s == ([s[0]] + a) + sub + c
  {
    assert s == [s[0]] + s[1..];
  }

  lemma {:induction false} ContainsAt(s: string, sub: string)
    requires Contains(s, sub)
    ensures exists a: string, c: string :: s == a + sub + c
  {
    if HasPrefix(s, sub) {
      assert s == "" + sub + s[|sub|..];
    } else {
      ContainsAt(s[1..], sub);
      var a: string, c: string :| s[1..] == a + sub + c;
      OneMore(s, a, sub, c);
    }
  }

  ghost predicate Has(s: string, sub: string) {
    exists a: string, c: string :: s == a + sub + c
  }

  /** A guard is one to fail by exactly when it holds the word action, and fail, reject or
      revise in quotes of one kind. */
  lemma FailActions(when: string)
    ensures WhenLooksLikeFailAction(when) <==>
            && Has(Trim(when), "action")
            && (Has(Trim(when), "'fail'") || Has(Trim(when), "\"fail\"") || Has(Trim(when), "'reject'")
                || Has(Trim(when), "\"reject\"") || Has(Trim(when), "'revise'") || Has(Trim(when), "\"revise\""))
  {
    var w := Trim(when);
    hide Contains, Trim;
    ContainsExactly(w, "action");
    Quoted(w, "fail", "'fail'", "\"fail\"");
    Quoted(w, "reject", "'reject'", "\"reject\"");
    Quoted(w, "revise", "'revise'", "\"revise\"");
    if w == "" { assert !Has(w, "action"); }
  }

  lemma Quoted(w: string, id: string, a: string, b: string)
    requires a == "'" + id + "'" && b == "\"" + id + "\""
    ensures Mentions(w, id) <==> Has(w, a) || Has(w, b)
  {
    ContainsExactly(w, a);
    ContainsExactly(w, b);
  }
}
