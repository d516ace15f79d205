/** The label path a gate notification carries: a shortest route from the start of
    the graph to the gate, found breadth first and read back along parents. */
module PathSummary {
  import opened ExecSlot
  import opened Lists
  import opened Text
  import opened Workflow

  // --- Routes ---------------------------------------------------------------

  /** An edge the summary follows: neither failure nor rollback. */
  predicate Step(edges: seq<Edge>, a: string, b: string) {
    exists e :: e in edges && e.source == a && e.target == b && e.kind != "failure" && e.kind != "rollback"
  }

  ghost predicate Route(edges: seq<Edge>, a: string, b: string, p: seq<string>) {
    p != [] && p[0] == a && p[|p| - 1] == b && forall i :: 0 <= i < |p| - 1 ==> Step(edges, p[i], p[i + 1])
  }

  ghost predicate ShortestRoute(edges: seq<Edge>, a: string, b: string, p: seq<string>) {
    Route(edges, a, b, p) && forall q :: Route(edges, a, b, q) ==> |p| <= |q|
  }

  lemma RouteExtends(edges: seq<Edge>, a: string, b: string, p: seq<string>, c: string)
    requires Route(edges, a, b, p) && Step(edges, b, c)
    ensures Route(edges, a, c, p + [c])
  {
  }

  lemma RouteFront(edges: seq<Edge>, a: string, b: string, p: seq<string>)
    requires Route(edges, a, b, p) && |p| > 1
    ensures Route(edges, a, p[|p| - 2], p[..|p| - 1]) && Step(edges, p[|p| - 2], b)
  {
  }

  // --- The search tree --------------------------------------------------------

  /** `paths` gives every node seen a shortest route, and `parent` the node before the last. */
  ghost predicate Tree(edges: seq<Edge>, start: string, paths: map<string, seq<string>>, parent: map<string, string>) {
    && start in paths && paths[start] == [start]
    && forall v :: v in paths ==> ShortestRoute(edges, start, v, paths[v]) && (v != start ==> ParentOf(v, paths, parent))
  }

  ghost predicate ParentOf(v: string, paths: map<string, seq<string>>, parent: map<string, string>)
    requires v in paths
  {
    v in parent && parent[v] in paths && paths[v] == paths[parent[v]] + [v]
  }

  /** Every node with a route of at most `n` nodes has been seen. */
  ghost predicate SeenWithin(edges: seq<Edge>, start: string, paths: map<string, seq<string>>, n: nat) {
    forall v, p :: Route(edges, start, v, p) && |p| <= n ==> v in paths
  }

  /** The waiting nodes are seen, in order of distance, at most one step apart. */
  ghost predicate Levels(paths: map<string, seq<string>>, queue: seq<string>, n: nat) {
    && (forall i :: 0 <= i < |queue| ==> queue[i] in paths && n <= |paths[queue[i]]| <= n + 1)
    && (forall i, j :: 0 <= i < j < |queue| ==> |paths[queue[i]]| <= |paths[queue[j]]|)
  }

  /** The successors of every node seen that is not waiting have been seen. */
  ghost predicate Expanded(edges: seq<Edge>, seen: set<string>, waiting: set<string>) {
    forall a, b :: a in seen && a !in waiting && Step(edges, a, b) ==> b in seen
  }

  /** A new successor of a node at distance `n` is at distance `n + 1`. */
  lemma SeeOne(edges: seq<Edge>, start: string, paths: map<string, seq<string>>, parent: map<string, string>,
               cur: string, next: string)
    requires Tree(edges, start, paths, parent) && cur in paths && next !in paths && Step(edges, cur, next)
    requires SeenWithin(edges, start, paths, |paths[cur]|)
    ensures Tree(edges, start, paths[next := paths[cur] + [next]], parent[next := cur])
  {
    hide Route, Step;
    var p := paths[cur] + [next];
    RouteExtends(edges, start, cur, paths[cur], next);
    assert forall q :: Route(edges, start, next, q) ==> |p| <= |q|;
    var paths2, parent2 := paths[next := p], parent[next := cur];
    forall v | v in paths2 ensures ShortestRoute(edges, start, v, paths2[v]) && (v != start ==> ParentOf(v, paths2, parent2)) {
      if v != next && v != start { assert ParentOf(v, paths, parent); }
    }
  }

  /** When the nodes at distance `n` are done, everything within `n + 1` has been seen. */
  lemma NextLevel(edges: seq<Edge>, start: string, paths: map<string, seq<string>>, parent: map<string, string>,
                  queue: seq<string>, n: nat)
    requires Tree(edges, start, paths, parent) && SeenWithin(edges, start, paths, n)
    requires Expanded(edges, paths.Keys, Elements(queue))
    requires forall q :: q in queue ==> q in paths && |paths[q]| == n + 1
    ensures SeenWithin(edges, start, paths, n + 1)
  {
    forall v, p | Route(edges, start, v, p) && |p| <= n + 1 ensures v in paths {
      if |p| > 1 {
        RouteFront(edges, start, v, p);
        var u := p[|p| - 2];
        assert u in paths && |paths[u]| <= n;
      }
    }
  }

  /** The search in progress, its waiting nodes `n` or `n + 1` nodes from the start;
      `active` are the nodes whose successors are being looked at. */
  ghost predicate Searching(edges: seq<Edge>, start: string, goal: string, paths: map<string, seq<string>>,
                            parent: map<string, string>, seen: set<string>, queue: seq<string>,
                            active: set<string>, n: nat) {
    && Tree(edges, start, paths, parent) && goal !in paths && seen == paths.Keys
    && SeenWithin(edges, start, paths, n) && Levels(paths, queue, n)
    && Expanded(edges, seen, Elements(queue) + active)
    && forall a :: a in active ==> a in paths && |paths[a]| == n
  }

  lemma SeenMore(edges: seq<Edge>, start: string, paths: map<string, seq<string>>, n: nat, v: string, p: seq<string>)
    requires SeenWithin(edges, start, paths, n)
    ensures SeenWithin(edges, start, paths[v := p], n)
  {
  }

  lemma LastLevel(paths: map<string, seq<string>>, queue: seq<string>, n: nat, v: string, p: seq<string>)
    requires Levels(paths, queue, n) && v !in paths && |p| == n + 1
    ensures Levels(paths[v := p], queue + [v], n)
  {
  }

  lemma ExpandedWith(edges: seq<Edge>, seen: set<string>, queue: seq<string>, active: set<string>, v: string)
    requires Expanded(edges, seen, Elements(queue) + active)
    ensures Expanded(edges, seen + {v}, Elements(queue + [v]) + active)
  {
  }

  lemma EnqueueOne(edges: seq<Edge>, start: string, goal: string, paths: map<string, seq<string>>,
                   parent: map<string, string>, seen: set<string>, queue: seq<string>, cur: string, n: nat, next: string)
    requires Searching(edges, start, goal, paths, parent, seen, queue, {cur}, n)
    requires Step(edges, cur, next) && next !in seen
    ensures cur in paths && Tree(edges, start, paths[next := paths[cur] + [next]], parent[next := cur])
    ensures next != goal ==> Searching(edges, start, goal, paths[next := paths[cur] + [next]], parent[next := cur],
                                       seen + {next}, queue + [next], {cur}, n)
  {
    hide Tree, SeenWithin, Levels, Expanded, Elements, Step;
    SeeOne(edges, start, paths, parent, cur, next);
    SeenMore(edges, start, paths, n, next, paths[cur] + [next]);
    LastLevel(paths, queue, n, next, paths[cur] + [next]);
    ExpandedWith(edges, seen, queue, {cur}, next);
  }

  /** Between two turns of the outer loop, with nodes still waiting. */
  ghost predicate AtHead(edges: seq<Edge>, start: string, goal: string, paths: map<string, seq<string>>,
                         parent: map<string, string>, seen: set<string>, queue: seq<string>)
    requires queue != []
  {
    queue[0] in paths && Searching(edges, start, goal, paths, parent, seen, queue, {}, |paths[queue[0]]|)
  }

  /** Done with the successors of `cur`; the next node waiting may be one step further. */
  lemma Advance(edges: seq<Edge>, start: string, goal: string, paths: map<string, seq<string>>,
                parent: map<string, string>, seen: set<string>, queue: seq<string>, cur: string, n: nat)
    requires Searching(edges, start, goal, paths, parent, seen, queue, {cur}, n)
    requires forall b :: Step(edges, cur, b) ==> b in seen
    ensures queue == [] ==> Expanded(edges, seen, {}) && goal !in seen
    ensures queue != [] ==> AtHead(edges, start, goal, paths, parent, seen, queue)
  {
    assert Expanded(edges, seen, Elements(queue));
    if queue == [] {
      assert Elements(queue) == {};
    } else if |paths[queue[0]]| == n + 1 {
      assert forall q :: q in queue ==> |paths[q]| == n + 1;
      NextLevel(edges, start, paths, parent, queue, n);
    }
    assert Elements(queue) + {} == Elements(queue);
  }

  lemma Pop(edges: seq<Edge>, start: string, goal: string, paths: map<string, seq<string>>,
            parent: map<string, string>, seen: set<string>, queue: seq<string>, n: nat)
    requires queue != [] && AtHead(edges, start, goal, paths, parent, seen, queue)
    requires n == |paths[queue[0]]|
    ensures Searching(edges, start, goal, paths, parent, seen, queue[1..], {queue[0]}, n)
  {
  }

  /** A set closed under steps holds the end of every route that starts in it. */
  lemma {:induction false} ClosedHolds(edges: seq<Edge>, seen: set<string>, a: string, b: string, p: seq<string>)
    requires a in seen && Expanded(edges, seen, {}) && Route(edges, a, b, p)
    ensures b in seen
    decreases |p|
  {
    if |p| > 1 {
      RouteFront(edges, a, b, p);
      ClosedHolds(edges, seen, a, p[|p| - 2], p[..|p| - 1]);
    }
  }

  // --- The search -----------------------------------------------------------

  /** The successors of each node, in edge order. */
  method Successors(edges: seq<Edge>) returns (out: map<string, seq<string>>)
    ensures forall a, b :: (a in out && b in out[a]) <==> Step(edges, a, b)
  {
    out := map[];
    for i := 0 to |edges|
      invariant forall a, b :: (a in out && b in out[a]) <==> Step(edges[..i], a, b)
    {
      var e := edges[i];
      assert edges[..i + 1] == edges[..i] + [e];
      StepAppend(edges[..i], e);
      if e.kind != "failure" && e.kind != "rollback" {
        out := out[e.source := (if e.source in out then out[e.source] else []) + [e.target]];
      }
    }
    assert edges[..|edges|] == edges;
  }

  lemma StepAppend(edges: seq<Edge>, e: Edge)
    ensures forall a, b :: Step(edges + [e], a, b) <==>
      Step(edges, a, b) || (e.source == a && e.target == b && e.kind != "failure" && e.kind != "rollback")
  {
  }

  /** The inner loop: note the parent of every new successor of `cur`. */
  method LookAround(edges: seq<Edge>, start: string, goal: string, cur: string, nexts: seq<string>,
                    seen0: set<string>, parent0: map<string, string>, queue0: seq<string>,
                    ghost paths0: map<string, seq<string>>, ghost n: nat)
    returns (found: bool, seen: set<string>, parent: map<string, string>, queue: seq<string>,
             ghost paths: map<string, seq<string>>)
    requires Searching(edges, start, goal, paths0, parent0, seen0, queue0, {cur}, n)
    requires forall b :: b in nexts ==> Step(edges, cur, b)
    ensures found ==> Tree(edges, start, paths, parent) && goal in paths
    ensures !found ==> Searching(edges, start, goal, paths, parent, seen, queue, {cur}, n)
    ensures !found ==> seen == seen0 + Elements(nexts) && (seen == seen0 ==> queue == queue0)
  {
    hide Searching, Tree, Step;
    seen, parent, queue, paths := seen0, parent0, queue0, paths0;
    for i := 0 to |nexts|
      invariant Searching(edges, start, goal, paths, parent, seen, queue, {cur}, n)
      invariant seen == seen0 + Elements(nexts[..i]) && (seen == seen0 ==> queue == queue0)
    {
      var next := nexts[i];
      assert Elements(nexts[..i + 1]) == Elements(nexts[..i]) + {next};
      if next !in seen {
        EnqueueOne(edges, start, goal, paths, parent, seen, queue, cur, n, next);
        seen := seen + {next};
        parent := parent[next := cur];
        paths := paths[next := paths[cur] + [next]];
        if next == goal { return true, seen, parent, queue, paths; }
        queue := queue + [next];
      }
    }
    assert nexts[..|nexts|] == nexts;
    found := false;
  }

  lemma Begin(edges: seq<Edge>, start: string, goal: string)
    requires start != goal
    ensures AtHead(edges, start, goal, map[start := [start]], map[], {start}, [start])
  {
  }

  /** Every id the search can meet. */
  ghost function AllIds(edges: seq<Edge>, start: string): set<string> {
    {start} + set e | e in edges :: e.target
  }

  lemma StepsLand(edges: seq<Edge>, start: string, cur: string, nexts: seq<string>)
    requires forall b :: b in nexts ==> Step(edges, cur, b)
    ensures start in AllIds(edges, start) && Elements(nexts) <= AllIds(edges, start)
  {
  }

  lemma TreeRoute(edges: seq<Edge>, start: string, paths: map<string, seq<string>>, parent: map<string, string>, v: string)
    requires Tree(edges, start, paths, parent) && v in paths
    ensures Route(edges, start, v, paths[v])
  {
  }

  lemma NoRoute(edges: seq<Edge>, start: string, goal: string, seen: set<string>)
    requires start in seen && goal !in seen && Expanded(edges, seen, {})
    ensures !exists p :: Route(edges, start, goal, p)
  {
    forall p | Route(edges, start, goal, p) ensures false { ClosedHolds(edges, seen, start, goal, p); }
  }

  /** Breadth first from `start` until `goal` is met. */
  method Search(edges: seq<Edge>, start: string, goal: string)
    returns (found: bool, parent: map<string, string>, ghost paths: map<string, seq<string>>)
    requires start != goal
    ensures found ==> Tree(edges, start, paths, parent) && goal in paths
    ensures found <==> exists p :: Route(edges, start, goal, p)
  {
    hide Tree, Searching, Expanded, Route, Step, AllIds;
    var out := Successors(edges);
    parent := map[];
    paths := map[start := [start]];
    var queue, seen := [start], {start};
    found := false;
    ghost var ids := AllIds(edges, start);
    StepsLand(edges, start, start, []);
    Begin(edges, start, goal);
    while queue != [] && !found
      invariant found ==> Tree(edges, start, paths, parent) && goal in paths
      invariant !found ==> start in seen && seen <= ids
      invariant !found && queue == [] ==> Expanded(edges, seen, {}) && goal !in seen
      invariant !found && queue != [] ==> AtHead(edges, start, goal, paths, parent, seen, queue)
      decreases if found then 0 else 1, |ids - seen|, |queue|
    {
      var cur := queue[0];
      ghost var seen0, n := seen, |paths[cur]|;
      Pop(edges, start, goal, paths, parent, seen, queue, n);
      var nexts := if cur in out then out[cur] else [];
      assert forall b :: b in nexts <==> Step(edges, cur, b);
      StepsLand(edges, start, cur, nexts);
      found, seen, parent, queue, paths := LookAround(edges, start, goal, cur, nexts, seen, parent, queue[1..], paths, n);
      if !found {
        Advance(edges, start, goal, paths, parent, seen, queue, cur, n);
        SubsetCard(ids - seen, ids - seen0);
      }
    }
    if found {
      TreeRoute(edges, start, paths, parent, goal);
    } else {
      NoRoute(edges, start, goal, seen);
    }
  }

  // --- Labels -----------------------------------------------------------------

  /** The last node declared with an id, as a map filled in order keeps it. */
  function LastWith(nodes: seq<Node>, id: string): Option<Node> {
    if nodes == [] then None
    else if nodes[|nodes| - 1].id == id then Some(nodes[|nodes| - 1])
    else LastWith(nodes[..|nodes| - 1], id)
  }

  /** The label of a node, else its type, else its id. */
  function LabelOf(nodes: seq<Node>, id: string): string {
    match LastWith(nodes, id)
    case None => id
    case Some(n) => if Trim(n.name) != "" then n.name else if Trim(n.kind) != "" then n.kind else id
  }

  function Labels(nodes: seq<Node>, ids: seq<string>): (r: seq<string>)
    ensures |r| == |ids| && forall i :: 0 <= i < |ids| ==> r[i] == LabelOf(nodes, ids[i])
  {
    seq(|ids|, i requires 0 <= i < |ids| => LabelOf(nodes, ids[i]))
  }

  /** The last node declared with an id gives the label: its name, if not blank, else its type,
      if not blank, else the id; an id that no node has is its own label. */
  lemma {:induction false} LabelIs(nodes: seq<Node>, i: nat)
    requires i < |nodes| && forall j :: i < j < |nodes| ==> nodes[j].id != nodes[i].id
    ensures Trim(nodes[i].name) != "" ==> LabelOf(nodes, nodes[i].id) == nodes[i].name
    ensures Trim(nodes[i].name) == "" && Trim(nodes[i].kind) != "" ==> LabelOf(nodes, nodes[i].id) == nodes[i].kind
    ensures Trim(nodes[i].name) == "" && Trim(nodes[i].kind) == "" ==> LabelOf(nodes, nodes[i].id) == nodes[i].id
  {
    if i < |nodes| - 1 { LabelIs(nodes[..|nodes| - 1], i); }
  }

  lemma {:induction false} UnknownIsItsLabel(nodes: seq<Node>, id: string)
    requires forall n :: n in nodes ==> n.id != id
    ensures LabelOf(nodes, id) == id
  {
    if nodes != [] {
      assert nodes[|nodes| - 1] in nodes;
      UnknownIsItsLabel(nodes[..|nodes| - 1], id);
    }
  }

  /** The part of a route after its last empty node id. */
  function AfterBlank(p: seq<string>): (r: seq<string>)
    ensures |r| <= |p| && "" !in r
  {
    if p == [] || p[|p| - 1] == "" then [] else AfterBlank(p[..|p| - 1]) + [p[|p| - 1]]
  }

  /** The summary shows the whole route exactly when no node on it has an empty id. */
  lemma {:induction false} WholeRouteExactly(p: seq<string>)
    ensures AfterBlank(p) == p <==> "" !in p
    ensures AfterBlank(p) == p[|p| - |AfterBlank(p)|..]
  {
    if p != [] && p[|p| - 1] != "" {
      var front := p[..|p| - 1];
      WholeRouteExactly(front);
      assert p == front + [p[|p| - 1]];
      var k := |front| - |AfterBlank(front)|;
      assert p[k..] == front[k..] + [p[|p| - 1]];
    }
  }

  function Rev(s: seq<string>): seq<string> {
    if s == [] then [] else [s[|s| - 1]] + Rev(s[..|s| - 1])
  }

  lemma {:induction false} RevAt(s: seq<string>, k: nat)
    requires k < |s|
    ensures |Rev(s)| == |s| && Rev(s)[k] == s[|s| - 1 - k]
  {
    if |s| > 1 { RevAt(s[..|s| - 1], if k > 0 then k - 1 else 0); }
  }

  /** Swap from both ends. */
  method ReverseInPlace(s: seq<string>) returns (r: seq<string>)
    ensures r == Rev(s)
  {
    r := s;
    var i, j := 0, |s| - 1;
    while i < j
      invariant i + j == |s| - 1 && -1 <= j && 0 <= i <= |s| == |r|
      invariant forall k :: 0 <= k < i ==> r[k] == s[|s| - 1 - k] && r[|s| - 1 - k] == s[k]
      invariant forall k :: i <= k <= j ==> r[k] == s[k]
    {
      r := r[i := r[j]][j := r[i]];
      i, j := i + 1, j - 1;
    }
    if s != [] {
      forall k | 0 <= k < |s| ensures |Rev(s)| == |s| && r[k] == Rev(s)[k] { RevAt(s, k); }
      RevAt(s, 0);
    }
  }

  lemma WalkStep(edges: seq<Edge>, start: string, paths: map<string, seq<string>>, parent: map<string, string>, id: string)
    requires Tree(edges, start, paths, parent) && id in paths && start != ""
    ensures id == "" ==> Rev(AfterBlank(paths[id])) == []
    ensures id == start ==> Rev(AfterBlank(paths[id])) == [id]
    ensures id != start ==> id in parent && parent[id] in paths && |paths[parent[id]]| < |paths[id]|
    ensures id != start && id != "" ==> Rev(AfterBlank(paths[id])) == [id] + Rev(AfterBlank(paths[parent[id]]))
  {
  }

  /** Follow parents from `goal`, collecting labels; an empty id ends the walk. */
  method WalkBack(nodes: seq<Node>, parent: map<string, string>, start: string, goal: string,
                  ghost edges: seq<Edge>, ghost paths: map<string, seq<string>>) returns (chain: seq<string>)
    requires Tree(edges, start, paths, parent) && goal in paths && start != ""
    ensures chain == Labels(nodes, Rev(AfterBlank(paths[goal])))
  {
    hide Tree, AfterBlank, Rev;
    chain := [];
    ghost var ids := [];
    var id := goal;
    while id != ""
      invariant id in paths && chain == Labels(nodes, ids)
      invariant Rev(AfterBlank(paths[goal])) == ids + Rev(AfterBlank(paths[id]))
      decreases |paths[id]|
    {
      WalkStep(edges, start, paths, parent, id);
      chain := chain + [LabelOf(nodes, id)];
      ids := ids + [id];
      if id == start { return; }
      id := parent[id];
    }
    WalkStep(edges, start, paths, parent, id);
  }

  // --- The summary ------------------------------------------------------------

  /** The input node's id, else the first node's, else "". */
  function Entry(g: Graph): string {
    var input := FirstOfKind(g.nodes, "input");
    if input.Some? && input.value.id != "" then input.value.id else if g.nodes != [] then g.nodes[0].id else ""
  }

  /** A path starts at the first input node, if it has an id, else at the first node. */
  lemma {:induction false} EntryIs(g: Graph, i: nat)
    requires i < |g.nodes|
    ensures g.nodes[i].kind == "input" && (forall j :: 0 <= j < i ==> g.nodes[j].kind != "input") && g.nodes[i].id != "" ==>
              Entry(g) == g.nodes[i].id
    ensures g.nodes[i].kind == "input" && (forall j :: 0 <= j < i ==> g.nodes[j].kind != "input") && g.nodes[i].id == "" ==>
              Entry(g) == g.nodes[0].id
    ensures (forall n :: n in g.nodes ==> n.kind != "input") ==> Entry(g) == g.nodes[0].id
  {
    if g.nodes[i].kind == "input" && (forall j :: 0 <= j < i ==> g.nodes[j].kind != "input") { FirstInput(g.nodes, i); }
  }

  lemma {:induction false} FirstInput(nodes: seq<Node>, i: nat)
    requires i < |nodes| && nodes[i].kind == "input" && forall j :: 0 <= j < i ==> nodes[j].kind != "input"
    ensures FirstOfKind(nodes, "input") == Some(nodes[i])
  {
    if i > 0 { FirstInput(nodes[1..], i - 1); }
  }

  ghost predicate Reachable(g: Graph, to: string) {
    exists p :: Route(g.edges, Entry(g), to, p)
  }

  const ARROW := " \U{2192} "

  /** The labels of a shortest route to `to`, from the last empty node id on it. */
  ghost predicate Summarizes(g: Graph, to: string, p: seq<string>, r: string) {
    ShortestRoute(g.edges, Entry(g), to, p) && r == Join(Labels(g.nodes, AfterBlank(p)), " \U{2192} ")
  }

  /** gatePathSummary. */
  method GatePathSummary(g: Graph, to: string) returns (r: string)
    ensures to == "" ==> r == ""
    ensures to != "" && (Entry(g) == "" || !Reachable(g, to)) ==> r == LabelOf(g.nodes, to)
    ensures to != "" && Entry(g) != "" && Reachable(g, to) ==> exists p :: Summarizes(g, to, p, r)
  {
    if to == "" { return ""; }
    var start := Entry(g);
    if start == "" { return LabelOf(g.nodes, to); }
    if start == to {
      OwnRoute(g, to);
      return LabelOf(g.nodes, to);
    }
    var found, parent, paths := Search(g.edges, start, to);
    if !found { return LabelOf(g.nodes, to); }
    var chain := WalkBack(g.nodes, parent, start, to, g.edges, paths);
    chain := ReverseInPlace(chain);
    r := Join(chain, ARROW);
    RevLabels(g.nodes, AfterBlank(paths[to]));
    assert Summarizes(g, to, paths[to], r);
  }

  lemma OwnRoute(g: Graph, to: string)
    requires Entry(g) == to != ""
    ensures Reachable(g, to) && Summarizes(g, to, [to], LabelOf(g.nodes, to))
  {
    assert Route(g.edges, Entry(g), to, [to]);
    assert AfterBlank([to]) == [to] by { assert [to][..0] == []; }
    assert Labels(g.nodes, [to]) == [LabelOf(g.nodes, to)];
  }

  lemma RevLabels(nodes: seq<Node>, ids: seq<string>)
    ensures Rev(Labels(nodes, Rev(ids))) == Labels(nodes, ids)
  {
    var ls := Labels(nodes, Rev(ids));
    forall k | 0 <= k < |ids|
      ensures |Rev(ids)| == |ids| && |Rev(ls)| == |ls| && Rev(ls)[k] == LabelOf(nodes, ids[k])
    {
      RevAt(ids, k);
      RevAt(ids, |ids| - 1 - k);
      RevAt(ls, k);
    }
    assert ids == [] ==> Rev(ids) == [] && Rev(ls) == [];
  }

  /** The cut is real: with an empty id in the middle only the tail is shown. */
  lemma EmptyIdCutsTheRoute(g: Graph, p: seq<string>)
    requires |g.edges| == 2 && Entry(g) == "s"
    requires g.edges[0].source == "s" && g.edges[0].target == "" && g.edges[0].kind == ""
    requires g.edges[1].source == "" && g.edges[1].target == "t" && g.edges[1].kind == ""
    ensures Route(g.edges, "s", "t", p) ==> p == ["s", "", "t"]
    ensures Route(g.edges, "s", "t", ["s", "", "t"]) && AfterBlank(["s", "", "t"]) == ["t"]
  {
    var es := g.edges;
    assert forall a, b :: Step(es, a, b) <==> (a == "s" && b == "") || (a == "" && b == "t") by {
      assert es[0] in es && es[1] in es;
      assert forall e :: e in es ==> e == es[0] || e == es[1];
    }
    if Route(es, "s", "t", p) {
      assert forall b :: !Step(es, "t", b);
      forall i | 0 <= i < |p| - 1 ensures p[i] != "t" { assert Step(es, p[i], p[i + 1]); }
      assert Step(es, p[0], p[1]);
      assert |p| > 2 ==> Step(es, p[1], p[2]);
    }
    var q := ["s", "", "t"];
    assert q[..2][|q[..2]| - 1] == "";
  }
}
