/** When the driver's loop need not end: exactly when a run can come back to where it was. */
module FsmForever {
  import opened ExecSlot
  import opened Expr
  import opened FsmTermination
  import opened GuardEval
  import opened Lists
  import opened Routing
  import opened Workflow

  // --- Walks -----------------------------------------------------------------------

  predicate Obeys(v: Visit, n: string, gotos: string -> set<string>) {
    v.outcome.goto != "" ==> v.outcome.goto in gotos(n)
  }

  /** Where some visits lead the loop. */
  function End(g: Graph, retryMax: nat, s: Fsm, vs: seq<Visit>): Fsm {
    if vs == [] then s
    else
      var t := End(g, retryMax, s, vs[..|vs| - 1]);
      if Declared(g, t.cur) then StepOf(g, t, vs[|vs| - 1], retryMax) else t
  }

  /** Each visit is at a declared node and jumps only where that node may. */
  ghost predicate Walks(g: Graph, gotos: string -> set<string>, retryMax: nat, s: Fsm, vs: seq<Visit>) {
    forall i :: 0 <= i < |vs| ==> WalksAt(g, gotos, retryMax, s, vs, i)
  }

  ghost predicate WalksAt(g: Graph, gotos: string -> set<string>, retryMax: nat, s: Fsm, vs: seq<Visit>, i: nat)
    requires i < |vs|
  {
    var t := End(g, retryMax, s, vs[..i]);
    Declared(g, t.cur) && Obeys(vs[i], t.cur, gotos)
  }

  lemma EndNext(g: Graph, retryMax: nat, s: Fsm, vs: seq<Visit>, i: nat)
    requires i < |vs| && Declared(g, End(g, retryMax, s, vs[..i]).cur)
    ensures End(g, retryMax, s, vs[..i + 1]) == StepOf(g, End(g, retryMax, s, vs[..i]), vs[i], retryMax)
  {
    assert vs[..i + 1][..i] == vs[..i];
  }

  lemma EndOfNone(g: Graph, retryMax: nat, s: Fsm)
    ensures End(g, retryMax, s, []) == s
  {
  }

  lemma AtPlace(g: Graph, gotos: string -> set<string>, retryMax: nat, s: Fsm, vs: seq<Visit>, i: nat)
    requires i < |vs| && Walks(g, gotos, retryMax, s, vs)
    ensures var t := End(g, retryMax, s, vs[..i]);
            && Declared(g, t.cur) && Obeys(vs[i], t.cur, gotos)
            && End(g, retryMax, s, vs[..i + 1]) == StepOf(g, t, vs[i], retryMax)
  {
    hide StepOf, Declared;
    assert WalksAt(g, gotos, retryMax, s, vs, i);
    EndNext(g, retryMax, s, vs, i);
  }

  /** No rollback edge has a cap above `cap`; a cap of 0 or less is none. */
  ghost predicate CapsAtMost(g: Graph, cap: nat) {
    forall e :: e in g.edges && KindOrDefault(e) == "rollback" ==> e.maxAttempts <= cap
  }

  /** Two states from which the same visits lead to the same nodes: they differ at most in
      attempts that are beyond every cap. */
  predicate Alike(cap: nat, a: Fsm, b: Fsm) {
    && a.cur == b.cur && a.retries == b.retries
    && (a.attempt == b.attempt || (a.attempt >= cap && b.attempt >= cap))
  }

  lemma FirstIndexSame(edges: seq<Edge>, ok: Edge -> bool, ok2: Edge -> bool)
    requires forall i :: 0 <= i < |edges| ==> ok(edges[i]) == ok2(edges[i])
    ensures FirstIndex(edges, ok) == FirstIndex(edges, ok2)
  {
    FirstIndexIs(edges, ok2, FirstIndex(edges, ok));
  }

  lemma SameMoves(edges: seq<Edge>, node: Node, v: Visit, cap: nat, a: nat, b: nat)
    requires forall e :: e in edges && KindOrDefault(e) == "rollback" ==> e.maxAttempts <= cap
    requires a >= cap && b >= cap
    ensures SuccessMove(edges, node, v.outcome, v.env, a, v.halted) == SuccessMove(edges, node, v.outcome, v.env, b, v.halted)
    ensures FailureMove(edges, v.outcome, v.env, a) == FailureMove(edges, v.outcome, v.env, b)
  {
    hide GuardPasses;
    forall i | 0 <= i < |edges|
      ensures Takes(edges[i], v.env, a) == Takes(edges[i], v.env, b)
      ensures IsOpenRollback(edges[i], a) == IsOpenRollback(edges[i], b)
    {
      assert edges[i] in edges;
    }
    FirstIndexSame(edges, e => Takes(e, v.env, a), e => Takes(e, v.env, b));
    FirstIndexSame(edges, e => IsOpenRollback(e, a), e => IsOpenRollback(e, b));
  }

  lemma AlikeStep(g: Graph, cap: nat, retryMax: nat, a: Fsm, b: Fsm, v: Visit)
    requires CapsAtMost(g, cap) && Alike(cap, a, b) && Declared(g, a.cur)
    ensures Alike(cap, StepOf(g, a, v, retryMax), StepOf(g, b, v, retryMax))
  {
    hide SuccessMove, FailureMove, FindNode, EdgesFrom;
    if a.attempt != b.attempt {
      SameMoves(OutEdges(g, a.cur), FindNode(g, a.cur).value, v, cap, a.attempt, b.attempt);
    }
  }

  // --- Running for ever ---------------------------------------------------------------

  /** The loop, in this world, is at a declared node after any number of visits. */
  ghost predicate Forever(g: Graph, gotos: string -> set<string>, w: World, retryMax: nat, s: Fsm) {
    Configured(w, gotos) && forall k: nat :: Declared(g, Run(g, w, retryMax, s, k).cur)
  }

  /** Some visits lead to a node, and some more back to it with no retry spent, and no attempt
      either unless every cap was already used up. */
  ghost predicate Lasso(g: Graph, gotos: string -> set<string>, cap: nat, retryMax: nat, s: Fsm,
                        pre: seq<Visit>, loop: seq<Visit>) {
    && loop != [] && Walks(g, gotos, retryMax, s, pre + loop)
    && Alike(cap, End(g, retryMax, s, pre + loop), End(g, retryMax, s, pre))
  }

  /** The place in a lasso after `k` visits. */
  function Place(k: nat, pre: nat, len: nat): (p: nat)
    requires pre < len
    ensures p < len
  {
    if k == 0 then 0
    else
      var p := Place(k - 1, pre, len) + 1;
      if p == len then pre else p
  }

  /** The world that goes round the lasso. */
  ghost function Rounds(gotos: string -> set<string>, pre: seq<Visit>, loop: seq<Visit>): World
    requires loop != []
  {
    (k: nat, n: string) =>
      var v := (pre + loop)[Place(k, |pre|, |pre + loop|)];
      if Obeys(v, n, gotos) then v else v.(outcome := v.outcome.(goto := ""))
  }

  lemma {:induction false} GoesRound(g: Graph, gotos: string -> set<string>, cap: nat, retryMax: nat, s: Fsm,
                                     pre: seq<Visit>, loop: seq<Visit>, k: nat)
    requires CapsAtMost(g, cap) && Lasso(g, gotos, cap, retryMax, s, pre, loop)
    ensures var p := Place(k, |pre|, |pre + loop|);
            Alike(cap, Run(g, Rounds(gotos, pre, loop), retryMax, s, k), End(g, retryMax, s, (pre + loop)[..p]))
    ensures Declared(g, Run(g, Rounds(gotos, pre, loop), retryMax, s, k).cur)
  {
    hide StepOf, Declared, CapsAtMost, End, Walks;
    var all, w := pre + loop, Rounds(gotos, pre, loop);
    if k > 0 {
      GoesRound(g, gotos, cap, retryMax, s, pre, loop, k - 1);
      var p := Place(k - 1, |pre|, |all|);
      var x, y := Run(g, w, retryMax, s, k - 1), End(g, retryMax, s, all[..p]);
      AtPlace(g, gotos, retryMax, s, all, p);
      AlikeStep(g, cap, retryMax, x, y, all[p]);
      assert w(k - 1, x.cur) == all[p];
      assert p + 1 == |all| ==> all[..p + 1] == all && all[..|pre|] == pre;
    }
    EndOfNone(g, retryMax, s);
    AtPlace(g, gotos, retryMax, s, all, Place(k, |pre|, |all|));
  }

  lemma LassoRunsForever(g: Graph, gotos: string -> set<string>, cap: nat, retryMax: nat, s: Fsm,
                         pre: seq<Visit>, loop: seq<Visit>)
    requires CapsAtMost(g, cap) && Lasso(g, gotos, cap, retryMax, s, pre, loop)
    ensures Forever(g, gotos, Rounds(gotos, pre, loop), retryMax, s)
  {
    var w := Rounds(gotos, pre, loop);
    forall k: nat ensures Declared(g, Run(g, w, retryMax, s, k).cur) {
      GoesRound(g, gotos, cap, retryMax, s, pre, loop, k);
    }
  }

  // --- A run that never ends comes back ---------------------------------------------

  /** Rollbacks and retries still to be spent. */
  ghost function Budget(g: Graph, cap: nat, retryMax: nat, s: Fsm): nat {
    Left(cap, s.attempt) + RetriesLeft(Ids(g.nodes), s.retries, retryMax)
  }

  /** A visit never adds to the budget; where it spends nothing, no retry was used, and no
      attempt either unless every cap is used up. */
  lemma BudgetStep(g: Graph, cap: nat, retryMax: nat, s: Fsm, v: Visit)
    requires Declared(g, s.cur)
    ensures var t := StepOf(g, s, v, retryMax);
            && Budget(g, cap, retryMax, t) <= Budget(g, cap, retryMax, s)
            && (Budget(g, cap, retryMax, t) == Budget(g, cap, retryMax, s) ==> Alike(cap, t.(cur := s.cur), s))
  {
    hide SuccessMove, FailureMove, FindNode, EdgesFrom;
    var t := StepOf(g, s, v, retryMax);
    assert s.attempt <= t.attempt;
    if t.retries != s.retries {
      DeclaredIsListed(g, s.cur);
      RetryCosts(Ids(g.nodes), s.retries, retryMax, s.cur);
    }
  }

  lemma {:induction false} BudgetFalls(g: Graph, w: World, cap: nat, retryMax: nat, s: Fsm, i: nat, j: nat)
    requires i <= j
    ensures var a, b := Run(g, w, retryMax, s, i), Run(g, w, retryMax, s, j);
            && Budget(g, cap, retryMax, b) <= Budget(g, cap, retryMax, a)
            && (Budget(g, cap, retryMax, b) == Budget(g, cap, retryMax, a) ==> Alike(cap, b.(cur := a.cur), a))
    decreases j
  {
    hide Budget, StepOf, Declared;
    if i < j {
      BudgetFalls(g, w, cap, retryMax, s, i, j - 1);
      var t := Run(g, w, retryMax, s, j - 1);
      if Declared(g, t.cur) { BudgetStep(g, cap, retryMax, t, w(j - 1, t.cur)); }
    }
  }

  /** From some visit on the budget is spent no further. */
  lemma {:induction false} Settles(g: Graph, w: World, cap: nat, retryMax: nat, s: Fsm, from: nat) returns (k: nat)
    ensures forall j :: j >= k ==> Budget(g, cap, retryMax, Run(g, w, retryMax, s, j)) == Budget(g, cap, retryMax, Run(g, w, retryMax, s, k))
    decreases Budget(g, cap, retryMax, Run(g, w, retryMax, s, from))
  {
    hide Budget, Run;
    k := from;
    if j: nat :| j >= from && Budget(g, cap, retryMax, Run(g, w, retryMax, s, j)) < Budget(g, cap, retryMax, Run(g, w, retryMax, s, from)) {
      k := Settles(g, w, cap, retryMax, s, j);
    } else {
      forall j | j >= from
        ensures Budget(g, cap, retryMax, Run(g, w, retryMax, s, j)) == Budget(g, cap, retryMax, Run(g, w, retryMax, s, from))
      {
        BudgetFalls(g, w, cap, retryMax, s, from, j);
      }
    }
  }

  lemma {:induction false} DistinctCard(ids: seq<string>)
    requires forall i, j :: 0 <= i < j < |ids| ==> ids[i] != ids[j]
    ensures |Elements(ids)| == |ids|
  {
    if ids != [] {
      DistinctCard(ids[1..]);
      assert Elements(ids) == {ids[0]} + Elements(ids[1..]);
    }
  }

  lemma {:induction false} ElementsCard(ids: seq<string>)
    ensures |Elements(ids)| <= |ids|
  {
    if ids != [] {
      ElementsCard(ids[1..]);
      assert Elements(ids) == {ids[0]} + Elements(ids[1..]);
    }
  }

  /** More visits than nodes visit some node twice. */
  lemma SomeNodeTwice(seen: seq<string>, ids: seq<string>) returns (i: nat, j: nat)
    requires |seen| > |ids| && forall x :: x in seen ==> x in ids
    ensures i < j < |seen| && seen[i] == seen[j]
  {
    if forall a, b :: 0 <= a < b < |seen| ==> seen[a] != seen[b] {
      DistinctCard(seen);
      ElementsCard(ids);
      SubsetCard(Elements(seen), Elements(ids));
    }
    i, j :| 0 <= i < j < |seen| && seen[i] == seen[j];
  }

  /** The first `k` visits of a world. */
  ghost function VisitsOf(g: Graph, w: World, retryMax: nat, s: Fsm, k: nat): seq<Visit> {
    seq(k, i requires 0 <= i < k => w(i, Run(g, w, retryMax, s, i).cur))
  }

  lemma {:induction false} EndsThere(g: Graph, w: World, retryMax: nat, s: Fsm, k: nat)
    ensures End(g, retryMax, s, VisitsOf(g, w, retryMax, s, k)) == Run(g, w, retryMax, s, k)
  {
    hide StepOf, Declared;
    if k > 0 {
      EndsThere(g, w, retryMax, s, k - 1);
      assert VisitsOf(g, w, retryMax, s, k)[..k - 1] == VisitsOf(g, w, retryMax, s, k - 1);
    }
  }

  lemma VisitsWalk(g: Graph, gotos: string -> set<string>, w: World, retryMax: nat, s: Fsm, k: nat)
    requires Forever(g, gotos, w, retryMax, s)
    ensures Walks(g, gotos, retryMax, s, VisitsOf(g, w, retryMax, s, k))
  {
    var vs := VisitsOf(g, w, retryMax, s, k);
    forall i | 0 <= i < k ensures WalksAt(g, gotos, retryMax, s, vs, i) {
      assert vs[..i] == VisitsOf(g, w, retryMax, s, i);
      EndsThere(g, w, retryMax, s, i);
      var n := Run(g, w, retryMax, s, i).cur;
      assert w(i, n).outcome.goto != "" ==> w(i, n).outcome.goto in gotos(n);
    }
  }

  lemma SeenTwice(g: Graph, gotos: string -> set<string>, w: World, retryMax: nat, s: Fsm, k: nat) returns (i: nat, j: nat)
    requires Forever(g, gotos, w, retryMax, s)
    ensures k <= i < j && Run(g, w, retryMax, s, i).cur == Run(g, w, retryMax, s, j).cur
  {
    hide Run, Configured;
    var ids := Ids(g.nodes);
    var seen := seq(|ids| + 1, i requires 0 <= i < |ids| + 1 => Run(g, w, retryMax, s, k + i).cur);
    forall x | x in seen ensures x in ids {
      var i :| 0 <= i < |seen| && seen[i] == x;
      DeclaredIsListed(g, Run(g, w, retryMax, s, k + i).cur);
    }
    i, j := SomeNodeTwice(seen, ids);
    i, j := k + i, k + j;
  }

  lemma ForeverHasALasso(g: Graph, gotos: string -> set<string>, cap: nat, w: World, retryMax: nat, s: Fsm)
    returns (pre: seq<Visit>, loop: seq<Visit>)
    requires Forever(g, gotos, w, retryMax, s)
    ensures Lasso(g, gotos, cap, retryMax, s, pre, loop)
  {
    hide Run, Budget, StepOf, Forever, Walks, End;
    var k := Settles(g, w, cap, retryMax, s, 0);
    var i, j := SeenTwice(g, gotos, w, retryMax, s, k);
    var all := VisitsOf(g, w, retryMax, s, j);
    pre, loop := all[..i], all[i..];
    assert pre + loop == all && pre == VisitsOf(g, w, retryMax, s, i);
    EndsThere(g, w, retryMax, s, i);
    EndsThere(g, w, retryMax, s, j);
    VisitsWalk(g, gotos, w, retryMax, s, j);
    BudgetFalls(g, w, cap, retryMax, s, i, j);
  }

  /** On any graph, from any state: some nodes keep the loop running for ever exactly when some
      visits lead to a place the loop can come back to without spending a retry, or an attempt
      that a cap still counts. */
  lemma RunsForeverExactly(g: Graph, gotos: string -> set<string>, cap: nat, retryMax: nat, s: Fsm)
    requires CapsAtMost(g, cap)
    ensures (exists w: World :: Forever(g, gotos, w, retryMax, s)) <==>
            (exists pre, loop :: Lasso(g, gotos, cap, retryMax, s, pre, loop))
  {
    hide Forever, Lasso;
    if w: World :| Forever(g, gotos, w, retryMax, s) {
      var pre, loop := ForeverHasALasso(g, gotos, cap, w, retryMax, s);
    }
    if pre, loop :| Lasso(g, gotos, cap, retryMax, s, pre, loop) {
      LassoNotEmpty(g, gotos, cap, retryMax, s, pre, loop);
      LassoRunsForever(g, gotos, cap, retryMax, s, pre, loop);
    }
  }

  lemma LassoNotEmpty(g: Graph, gotos: string -> set<string>, cap: nat, retryMax: nat, s: Fsm,
                      pre: seq<Visit>, loop: seq<Visit>)
    requires Lasso(g, gotos, cap, retryMax, s, pre, loop)
    ensures loop != []
  {
  }

  // --- The edge a run that never ends goes round by -----------------------------------

  /** How a turn moves on. */
  function MoveAt(g: Graph, s: Fsm, v: Visit): Move
    requires Declared(g, s.cur)
  {
    match v.result
    case Succeeded => SuccessMove(OutEdges(g, s.cur), FindNode(g, s.cur).value, v.outcome, v.env, s.attempt, v.halted)
    case Failed(_) => FailureMove(OutEdges(g, s.cur), v.outcome, v.env, s.attempt)
    case _ => Stop
  }

  /** The turn goes back along a rollback edge without a cap. */
  predicate GoesBackUncapped(g: Graph, s: Fsm, v: Visit) {
    Declared(g, s.cur) && MoveAt(g, s, v).RollBack? && MoveAt(g, s, v).e.maxAttempts <= 0
  }

  lemma MoveOnlyDown(g: Graph, rank: string -> int, gotos: string -> set<string>, cap: nat, s: Fsm, v: Visit, m: Move)
    requires Descends(g, rank, gotos) && CapsAtMost(g, cap) && Obeys(v, s.cur, gotos)
    requires AlongAnOutEdge(OutEdges(g, s.cur), m, s.attempt) && (m.Jump? ==> m.to == v.outcome.goto)
    ensures Target(m) != "" && !m.RollBack? ==> rank(Target(m)) < rank(s.cur)
    ensures m.RollBack? ==> s.attempt < cap || m.e.maxAttempts <= 0
  {
  }

  /** Any other turn that spends nothing and does not end the loop goes down the ranks. */
  lemma OtherTurnsDescend(g: Graph, rank: string -> int, gotos: string -> set<string>, cap: nat, retryMax: nat, s: Fsm, v: Visit)
    requires Descends(g, rank, gotos) && CapsAtMost(g, cap) && Declared(g, s.cur) && Obeys(v, s.cur, gotos)
    requires Declared(g, StepOf(g, s, v, retryMax).cur) && !GoesBackUncapped(g, s, v)
    requires Budget(g, cap, retryMax, StepOf(g, s, v, retryMax)) == Budget(g, cap, retryMax, s)
    ensures rank(StepOf(g, s, v, retryMax).cur) < rank(s.cur)
  {
    hide SuccessMove, FailureMove, FindNode, EdgesFrom, Descends, CapsAtMost, RetriesLeft;
    var t := StepOf(g, s, v, retryMax);
    var m := MoveOf(g, s, v);
    MoveOnlyDown(g, rank, gotos, cap, s, v, m);
    if t.retries != s.retries {
      DeclaredIsListed(g, s.cur);
      RetryCosts(Ids(g.nodes), s.retries, retryMax, s.cur);
    }
  }

  lemma {:induction false} WalkDescends(g: Graph, rank: string -> int, gotos: string -> set<string>, cap: nat, retryMax: nat,
                                        s: Fsm, vs: seq<Visit>, i: nat, j: nat)
    requires Descends(g, rank, gotos) && CapsAtMost(g, cap) && Walks(g, gotos, retryMax, s, vs) && i <= j <= |vs|
    requires Declared(g, End(g, retryMax, s, vs[..j]).cur)
    requires forall k :: i <= k < j ==> !GoesBackUncapped(g, End(g, retryMax, s, vs[..k]), vs[k])
    ensures var a, b := End(g, retryMax, s, vs[..i]), End(g, retryMax, s, vs[..j]);
            && Budget(g, cap, retryMax, b) <= Budget(g, cap, retryMax, a)
            && (i < j && Budget(g, cap, retryMax, b) == Budget(g, cap, retryMax, a) ==> rank(b.cur) < rank(a.cur))
    decreases j
  {
    hide Descends, CapsAtMost, Budget, StepOf, Declared, GoesBackUncapped, End;
    if i < j {
      var t := End(g, retryMax, s, vs[..j - 1]);
      assert WalksAt(g, gotos, retryMax, s, vs, j - 1);
      WalkDescends(g, rank, gotos, cap, retryMax, s, vs, i, j - 1);
      EndNext(g, retryMax, s, vs, j - 1);
      BudgetStep(g, cap, retryMax, t, vs[j - 1]);
      if Budget(g, cap, retryMax, StepOf(g, t, vs[j - 1], retryMax)) == Budget(g, cap, retryMax, t) {
        OtherTurnsDescend(g, rank, gotos, cap, retryMax, t, vs[j - 1]);
      }
    }
  }

  lemma LassoGoesBackUncapped(g: Graph, rank: string -> int, gotos: string -> set<string>, cap: nat, retryMax: nat, s: Fsm,
                              pre: seq<Visit>, loop: seq<Visit>)
    requires Descends(g, rank, gotos) && CapsAtMost(g, cap) && Lasso(g, gotos, cap, retryMax, s, pre, loop)
    ensures exists i :: |pre| <= i < |pre + loop| && GoesBackUncapped(g, End(g, retryMax, s, (pre + loop)[..i]), (pre + loop)[i])
  {
    hide Descends, CapsAtMost, StepOf, Declared, GoesBackUncapped, End;
    var all := pre + loop;
    assert all[..|pre|] == pre && all[..|all|] == all;
    assert WalksAt(g, gotos, retryMax, s, all, |pre|);
    if forall i :: |pre| <= i < |all| ==> !GoesBackUncapped(g, End(g, retryMax, s, all[..i]), all[i]) {
      WalkDescends(g, rank, gotos, cap, retryMax, s, all, |pre|, |all|);
    }
  }

  /** Where success edges, failure edges and gotos only lead down: some nodes keep the loop
      running for ever exactly when some visits lead to a place the loop can come back to over
      a rollback edge without a cap. */
  lemma RunsForeverOverAnUncappedEdge(g: Graph, rank: string -> int, gotos: string -> set<string>, cap: nat, retryMax: nat, s: Fsm)
    requires Descends(g, rank, gotos) && CapsAtMost(g, cap)
    ensures (exists w: World :: Forever(g, gotos, w, retryMax, s)) <==>
            (exists pre, loop, i :: Lasso(g, gotos, cap, retryMax, s, pre, loop) && |pre| <= i < |pre + loop| &&
               GoesBackUncapped(g, End(g, retryMax, s, (pre + loop)[..i]), (pre + loop)[i]))
  {
    hide Forever, Lasso, Descends, CapsAtMost, GoesBackUncapped, End;
    RunsForeverExactly(g, gotos, cap, retryMax, s);
    if pre, loop :| Lasso(g, gotos, cap, retryMax, s, pre, loop) {
      LassoGoesBackUncapped(g, rank, gotos, cap, retryMax, s, pre, loop);
    }
  }

  /** With every cap used up, a failure without an action goes back along an edge without a cap
      exactly when its node has one. */
  lemma FailureGoesBackUncapped(g: Graph, cap: nat, s: Fsm, v: Visit)
    requires CapsAtMost(g, cap) && s.attempt >= cap && Declared(g, s.cur)
    requires v.result.Failed? && v.outcome == Outcome("", map[])
    ensures GoesBackUncapped(g, s, v) <==>
            exists e :: e in g.edges && e.source == s.cur && KindOrDefault(e) == "rollback" && e.maxAttempts <= 0
  {
    hide FindNode, SuccessMove, FailureMove, EdgesFrom;
    FailureRollsBackFirst(OutEdges(g, s.cur), v.outcome, v.env, s.attempt);
    MovesAlongEdges(OutEdges(g, s.cur), FindNode(g, s.cur).value, v.outcome, v.env, s.attempt, v.halted);
    if e :| e in g.edges && e.source == s.cur && KindOrDefault(e) == "rollback" && e.maxAttempts <= 0 {
      assert MayRollBack(e, s.attempt);
    }
  }

  /** With every cap used up, the first such edge of a node and some visits that lead from its
      target back to the node, without a retry, keep the run going. */
  lemma WayBackRunsForever(g: Graph, gotos: string -> set<string>, cap: nat, retryMax: nat, s: Fsm, e: Edge, i: nat, back: seq<Visit>)
    requires CapsAtMost(g, cap) && s.attempt >= cap && Declared(g, s.cur)
    requires i < |OutEdges(g, s.cur)| && OutEdges(g, s.cur)[i] == e && IsOpenRollback(e, s.attempt)
    requires forall j :: 0 <= j < i ==> !IsOpenRollback(OutEdges(g, s.cur)[j], s.attempt)
    requires Walks(g, gotos, retryMax, Fsm(e.target, s.attempt + 1, s.retries), back)
    requires var t := End(g, retryMax, Fsm(e.target, s.attempt + 1, s.retries), back); t.cur == s.cur && t.retries == s.retries
    ensures exists w: World :: Forever(g, gotos, w, retryMax, s)
  {
    hide CapsAtMost, Declared, IsOpenRollback, End, Walks, OutEdges;
    var v, t := AFailure(), Fsm(e.target, s.attempt + 1, s.retries);
    FirstOpenIsTaken(g, retryMax, s, i);
    AfterOne(g, gotos, retryMax, s, v, back);
    AttemptsGrow(g, retryMax, t, back);
    var none: seq<Visit> := [];
    assert none + ([v] + back) == [v] + back;
    EndOfNone(g, retryMax, s);
    LassoRunsForever(g, gotos, cap, retryMax, s, none, [v] + back);
  }

  function AFailure(): Visit {
    Visit(Failed(false), Outcome("", map[]), Env(map[], map[], map[], None, _ => None, _ => None, _ => ""), false)
  }

  lemma FirstOpenIsTaken(g: Graph, retryMax: nat, s: Fsm, i: nat)
    requires Declared(g, s.cur) && i < |OutEdges(g, s.cur)| && IsOpenRollback(OutEdges(g, s.cur)[i], s.attempt)
    requires forall j :: 0 <= j < i ==> !IsOpenRollback(OutEdges(g, s.cur)[j], s.attempt)
    ensures StepOf(g, s, AFailure(), retryMax) == Fsm(OutEdges(g, s.cur)[i].target, s.attempt + 1, s.retries)
  {
    FirstIndexIs(OutEdges(g, s.cur), e => IsOpenRollback(e, s.attempt), i);
  }

  lemma {:induction false} EndAfterOne(g: Graph, retryMax: nat, s: Fsm, v: Visit, back: seq<Visit>)
    requires Declared(g, s.cur)
    ensures End(g, retryMax, s, [v] + back) == End(g, retryMax, StepOf(g, s, v, retryMax), back)
  {
    hide StepOf, Declared;
    var n := |back|;
    if n > 0 {
      EndAfterOne(g, retryMax, s, v, back[..n - 1]);
      assert ([v] + back)[..n] == [v] + back[..n - 1];
    } else {
      assert [v] + back == [v] && [v][..0] == [];
    }
  }

  lemma AfterOne(g: Graph, gotos: string -> set<string>, retryMax: nat, s: Fsm, v: Visit, back: seq<Visit>)
    requires Declared(g, s.cur) && Obeys(v, s.cur, gotos) && Walks(g, gotos, retryMax, StepOf(g, s, v, retryMax), back)
    ensures Walks(g, gotos, retryMax, s, [v] + back)
    ensures End(g, retryMax, s, [v] + back) == End(g, retryMax, StepOf(g, s, v, retryMax), back)
  {
    hide StepOf, Declared;
    EndAfterOne(g, retryMax, s, v, back);
    var vs := [v] + back;
    forall i | 0 <= i < |vs| ensures WalksAt(g, gotos, retryMax, s, vs, i) {
      if i > 0 {
        assert vs[..i] == [v] + back[..i - 1] && WalksAt(g, gotos, retryMax, StepOf(g, s, v, retryMax), back, i - 1);
        EndAfterOne(g, retryMax, s, v, back[..i - 1]);
      }
    }
  }

  lemma {:induction false} AttemptsGrow(g: Graph, retryMax: nat, s: Fsm, vs: seq<Visit>)
    ensures End(g, retryMax, s, vs).attempt >= s.attempt
  {
    hide SuccessMove, FailureMove, FindNode, EdgesFrom;
    if vs != [] { AttemptsGrow(g, retryMax, s, vs[..|vs| - 1]); }
  }
}
