/** What the claim order goes by, and what a claim makes of a row. */
module ClaimLaws {
  import opened ClaimOrder
  import opened Dispatcher
  import opened ExecSlot
  import opened Expr
  import opened Reachability
  import opened RunStore
  import opened Text
  import Workflow

  // --- The order -----------------------------------------------------------------

  /** Texts are ordered by their first difference; a beginning comes before the longer text. */
  lemma {:induction false} TextByFirstDifference(s: string, c: char, d: char, x: string, y: string)
    ensures c < d ==> TextBefore(s + [c] + x, s + [d] + y) && !TextBefore(s + [d] + y, s + [c] + x)
    ensures TextBefore(s, s + [c] + x) && !TextBefore(s + [c] + x, s)
  {
    var a, b := s + [c] + x, s + [d] + y;
    if s != "" {
      TextByFirstDifference(s[1..], c, d, x, y);
      assert a[1..] == s[1..] + [c] + x && b[1..] == s[1..] + [d] + y;
    }
  }

  /** The higher priority goes first; at equal priority the run with a human gate ahead; then
      the older one; then the smaller id. */
  lemma AheadBy(a: Run, b: Run, show: Value -> string)
    ensures a.priority > b.priority ==> Ahead(a, b, show) && !Ahead(b, a, show)
    ensures a.priority == b.priority && HasGate(a, show) && !HasGate(b, show) ==> Ahead(a, b, show) && !Ahead(b, a, show)
    ensures a.priority == b.priority && HasGate(a, show) == HasGate(b, show) && a.created < b.created ==>
              Ahead(a, b, show) && !Ahead(b, a, show)
    ensures a.priority == b.priority && HasGate(a, show) == HasGate(b, show) && a.created == b.created && TextBefore(a.id, b.id)
            ==> Ahead(a, b, show) && !Ahead(b, a, show)
  {
    TextTotal(a.id, b.id);
  }

  /** A run has a gate ahead exactly when one is reachable from the node it goes on from. */
  lemma GateFromItsNode(r: Run, show: Value -> string)
    ensures r.recorded.Some? && Trim(r.recorded.value) != "" ==>
              (HasGate(r, show) <==> GateAhead(r.graph, show, r.recorded.value))
    ensures (r.recorded.None? || Trim(r.recorded.value) == "") && Workflow.StartNode(r.graph).Some?
            && Workflow.StartNode(r.graph).value.id != "" ==>
              (HasGate(r, show) <==> GateAhead(r.graph, show, Workflow.StartNode(r.graph).value.id))
    ensures (r.recorded.None? || Trim(r.recorded.value) == "") && Workflow.StartNode(r.graph).None? ==> !HasGate(r, show)
  {
    if r.recorded.Some? && r.recorded.value == "" { assert Trim("") == ""; }
  }

  // --- The row ---------------------------------------------------------------------

  /** A claimed run is running and is driven from its recorded node, which is then consumed;
      without one it is driven from its start node; without either it fails.  Nothing else of
      its row changes. */
  lemma ClaimedRow(r: Run)
    ensures r.recorded.Some? && r.recorded.value != "" ==>
              Claimed(r) == r.(status := Running, recorded := None) && DrivenFrom(r) == r.recorded
    ensures !(r.recorded.Some? && r.recorded.value != "") && Workflow.StartNode(r.graph).Some? ==>
              Claimed(r) == r.(status := Running) && DrivenFrom(r) == Some(Workflow.StartNode(r.graph).value.id)
    ensures !(r.recorded.Some? && r.recorded.value != "") && Workflow.StartNode(r.graph).None? ==>
              Claimed(r) == r.(status := Failed) && DrivenFrom(r) == None
  {
  }

  /** Whatever turned running in a drain got a driver, at the node it continues from. */
  lemma {:induction false} EveryClaimIsDriven(rows: seq<Run>, free: nat, next: Choice, ahead: (Run, Run) -> bool, i: nat)
    requires UniqueIds(rows) && TakesTheFirst(next, ahead) && i < |rows|
    ensures |Drain(rows, free, next).rows| == |rows|
    ensures rows[i].status == Queued && Drain(rows, free, next).rows[i].status == Running ==>
              exists s :: s in Drain(rows, free, next).spawned && s.id == rows[i].id && Some(s.from) == DrivenFrom(rows[i])
    decreases free
  {
    hide TakesTheFirst, UniqueIds, Put;
    TakesFirst(rows, next, ahead);
    if free > 0 && next(rows).Some? {
      var r := next(rows).value;
      PutRow(rows, r, i);
      ClaimedRow(r);
      if DrivenFrom(r).Some? {
        EveryClaimIsDriven(Put(rows, Claimed(r)), free - 1, next, ahead, i);
        RowAfterDrain(Put(rows, Claimed(r)), free - 1, next, ahead, i);
        var first := Spawn(r.id, DrivenFrom(r).value);
        assert Drain(rows, free, next).spawned[0] == first;
        if rows[i] != r {
          assert forall s :: s in Drain(Put(rows, Claimed(r)), free - 1, next).spawned ==> s in Drain(rows, free, next).spawned;
        }
      }
    }
  }

  // --- The graph ------------------------------------------------------------------

  /** A node is found under its id as the first declared with it. */
  lemma {:induction false} FindsTheFirst(nodes: seq<Workflow.Node>, i: nat)
    requires i < |nodes| && forall j :: 0 <= j < i ==> nodes[j].id != nodes[i].id
    ensures Workflow.FindIn(nodes, nodes[i].id) == Some(nodes[i])
  {
    if i > 0 { FindsTheFirst(nodes[1..], i - 1); }
  }

  lemma {:induction false} FirstOfAKind(nodes: seq<Workflow.Node>, i: nat)
    requires i < |nodes| && forall j :: 0 <= j < i ==> nodes[j].kind != nodes[i].kind
    ensures Workflow.FirstOfKind(nodes, nodes[i].kind) == Some(nodes[i])
  {
    if i > 0 { FirstOfAKind(nodes[1..], i - 1); }
  }

  ghost predicate Entered(edges: seq<Workflow.Edge>, id: string) {
    exists e :: e in edges && e.target == id
  }

  lemma {:induction false} FirstEntry(nodes: seq<Workflow.Node>, edges: seq<Workflow.Edge>, i: nat)
    requires i < |nodes| && !Entered(edges, nodes[i].id) && forall j :: 0 <= j < i ==> Entered(edges, nodes[j].id)
    ensures Workflow.FirstSource(nodes, edges) == Some(nodes[i])
  {
    if i > 0 {
      assert Entered(edges, nodes[0].id);
      FirstEntry(nodes[1..], edges, i - 1);
    }
  }

  /** A run starts at the first input node, else at the first node no edge enters, else at
      the first node; a graph without nodes has no start. */
  lemma StartsAt(g: Workflow.Graph, i: nat)
    requires i < |g.nodes|
    ensures g.nodes[i].kind == "input" && (forall j :: 0 <= j < i ==> g.nodes[j].kind != "input") ==>
              Workflow.StartNode(g) == Some(g.nodes[i])
    ensures (forall n :: n in g.nodes ==> n.kind != "input")
            && !Entered(g.edges, g.nodes[i].id) && (forall j :: 0 <= j < i ==> Entered(g.edges, g.nodes[j].id)) ==>
              Workflow.StartNode(g) == Some(g.nodes[i])
    ensures (forall n :: n in g.nodes ==> n.kind != "input") && (forall n :: n in g.nodes ==> Entered(g.edges, n.id)) ==>
              Workflow.StartNode(g) == Some(g.nodes[0])
  {
    if g.nodes[i].kind == "input" && (forall j :: 0 <= j < i ==> g.nodes[j].kind != "input") { FirstOfAKind(g.nodes, i); }
    if !Entered(g.edges, g.nodes[i].id) && (forall j :: 0 <= j < i ==> Entered(g.edges, g.nodes[j].id)) {
      FirstEntry(g.nodes, g.edges, i);
    }
  }

  lemma EdgesHead(edges: seq<Workflow.Edge>, id: string)
    requires edges != []
    ensures Workflow.EdgesFrom(edges, id) == (if edges[0].source == id then [edges[0]] else []) + Workflow.EdgesFrom(edges[1..], id)
  {
  }

  lemma Regroup<T>(whole: seq<T>, first: seq<T>, rest: seq<T>, a: seq<T>, b: seq<T>, front: seq<T>)
    requires whole == first + rest && rest == a + b && front == first + a
    ensures whole == front + b
  {
  }

  /** The edges of a node come in the order of the definition. */
  lemma {:induction false} EdgesInOrder(a: seq<Workflow.Edge>, b: seq<Workflow.Edge>, id: string)
    ensures Workflow.EdgesFrom(a + b, id) == Workflow.EdgesFrom(a, id) + Workflow.EdgesFrom(b, id)
    ensures |a| == 1 ==> Workflow.EdgesFrom(a, id) == if a[0].source == id then a else []
  {
    if |a| == 1 { assert a == [a[0]] && a[1..] == []; }
    if a == [] {
      assert a + b == b;
    } else {
      hide Workflow.EdgesFrom;
      EdgesInOrder(a[1..], b, id);
      assert (a + b)[1..] == a[1..] + b && (a + b)[0] == a[0];
      EdgesHead(a, id);
      EdgesHead(a + b, id);
      Regroup(Workflow.EdgesFrom(a + b, id), if a[0].source == id then [a[0]] else [], Workflow.EdgesFrom(a[1..] + b, id),
              Workflow.EdgesFrom(a[1..], id), Workflow.EdgesFrom(b, id), Workflow.EdgesFrom(a, id));
    }
  }
}
