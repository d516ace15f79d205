/** Whether a human gate lies ahead of a node, over edges and configured gotos. */
module Reachability {
  import opened ExecSlot
  import opened Expr
  import opened Lists
  import opened Text
  import opened Workflow

  /** `str`: nothing for nil, else fmt.Sprint. */
  function Str(v: Value, show: Value -> string): string {
    if v.VNil? then "" else show(v)
  }

  /** The trimmed goto of a branch case, gate action or exit; "" when there is none. */
  function GotoOf(v: Value, show: Value -> string): string {
    if v.VMap? then Trim(Str(Lookup(v.m, "goto"), show)) else ""
  }

  function ItemsAt(config: map<string, Value>, key: string): seq<Value> {
    var v := Lookup(config, key);
    if v.VList? then v.items else []
  }

  function ExitsOf(config: map<string, Value>): map<string, Value> {
    var v := Lookup(config, "exits");
    if v.VMap? then v.m else map[]
  }

  // --- What a neighbour is ------------------------------------------------

  /** A goto that routing may take without an edge. */
  ghost predicate ConfigGoto(n: Node, show: Value -> string, t: string) {
    t != "" && (
      || (exists v :: v in ItemsAt(n.config, "cases") && GotoOf(v, show) == t)
      || (exists v :: v in ItemsAt(n.config, "actions") && GotoOf(v, show) == t)
      || (exists k :: k in ExitsOf(n.config) && GotoOf(ExitsOf(n.config)[k], show) == t))
  }

  ghost predicate Neighbor(g: Graph, n: Node, show: Value -> string, t: string) {
    (t != "" && exists e :: e in OutEdges(g, n.id) && Trim(e.target) == t) || ConfigGoto(n, show, t)
  }

  /** A list of cases or actions, and an object of exits, offer the gotos of their entries,
      trimmed; an entry without one offers none. */
  lemma ConfiguredGotos(n: Node, show: Value -> string, items: seq<Value>, i: nat, m: map<string, Value>, t: string)
    requires i < |items| && items[i] == VMap(m) && "goto" in m && !m["goto"].VNil? && t == Trim(show(m["goto"])) && t != ""
    ensures "cases" in n.config && n.config["cases"] == VList(items) ==> ConfigGoto(n, show, t)
    ensures "actions" in n.config && n.config["actions"] == VList(items) ==> ConfigGoto(n, show, t)
  {
    var v := items[i];
    assert v in items && GotoOf(v, show) == t;
    if "cases" in n.config && n.config["cases"] == VList(items) { assert v in ItemsAt(n.config, "cases"); }
    if "actions" in n.config && n.config["actions"] == VList(items) { assert v in ItemsAt(n.config, "actions"); }
  }

  lemma ConfiguredExits(n: Node, show: Value -> string, exits: map<string, Value>, k: string, m: map<string, Value>, t: string)
    requires "exits" in n.config && n.config["exits"] == VMap(exits) && k in exits && exits[k] == VMap(m)
    requires "goto" in m && !m["goto"].VNil? && t == Trim(show(m["goto"])) && t != ""
    ensures ConfigGoto(n, show, t)
  {
    assert k in ExitsOf(n.config) && GotoOf(ExitsOf(n.config)[k], show) == t;
  }

  /** And there are no other configured gotos. */
  lemma NoOtherGotos(n: Node, show: Value -> string, t: string)
    requires ConfigGoto(n, show, t)
    ensures t != "" && exists v: Value :: OffersGoto(n, v) && t == Trim(show(v.m["goto"]))
  {
    if v :| v in ItemsAt(n.config, "cases") && GotoOf(v, show) == t {
      GotoNotEmpty(v, show, t);
      assert OffersGoto(n, v);
    } else if v :| v in ItemsAt(n.config, "actions") && GotoOf(v, show) == t {
      GotoNotEmpty(v, show, t);
      assert OffersGoto(n, v);
    } else {
      var k :| k in ExitsOf(n.config) && GotoOf(ExitsOf(n.config)[k], show) == t;
      GotoNotEmpty(ExitsOf(n.config)[k], show, t);
      assert OffersGoto(n, ExitsOf(n.config)[k]);
    }
  }

  lemma GotoNotEmpty(v: Value, show: Value -> string, t: string)
    requires GotoOf(v, show) == t && t != ""
    ensures v.VMap? && "goto" in v.m && !v.m["goto"].VNil? && t == Trim(show(v.m["goto"]))
  {
    assert Trim("") == "";
  }

  /** `v` is an entry of a node's cases, actions or exits, with a goto. */
  ghost predicate OffersGoto(n: Node, v: Value) {
    && v.VMap? && "goto" in v.m && !v.m["goto"].VNil?
    && (|| ("cases" in n.config && n.config["cases"].VList? && v in n.config["cases"].items)
        || ("actions" in n.config && n.config["actions"].VList? && v in n.config["actions"].items)
        || ("exits" in n.config && n.config["exits"].VMap? && v in n.config["exits"].m.Values))
  }

  /** A forward walk: every node but the last is declared and leads to the next. */
  ghost predicate Walk(g: Graph, show: Value -> string, p: seq<string>) {
    p != [] && forall i :: 0 <= i < |p| - 1 ==> Hop(g, show, p[i], p[i + 1])
  }

  ghost predicate Hop(g: Graph, show: Value -> string, a: string, b: string) {
    FindNode(g, a).Some? && Neighbor(g, FindNode(g, a).value, show, b)
  }

  predicate IsHumanGate(g: Graph, id: string) {
    FindNode(g, id).Some? && FindNode(g, id).value.kind == "human_gate"
  }

  ghost predicate WalkTo(g: Graph, show: Value -> string, p: seq<string>, from: string, to: string) {
    Walk(g, show, p) && p[0] == from && p[|p| - 1] == to
  }

  ghost predicate Reaches(g: Graph, show: Value -> string, from: string, to: string) {
    exists p :: WalkTo(g, show, p, from, to)
  }

  /** A human gate is at `from` or ahead of it. */
  ghost predicate GateAhead(g: Graph, show: Value -> string, from: string) {
    exists to :: IsHumanGate(g, to) && Reaches(g, show, from, to)
  }

  // --- Collecting the neighbours ------------------------------------------

  method GotosIn(items: seq<Value>, show: Value -> string) returns (out: seq<string>)
    ensures forall t :: t in out <==> t != "" && exists v :: v in items && GotoOf(v, show) == t
  {
    out := [];
    for i := 0 to |items|
      invariant forall t :: t in out <==> t != "" && exists j :: 0 <= j < i && GotoOf(items[j], show) == t
    {
      var goto := GotoOf(items[i], show);
      if goto != "" { out := out + [goto]; }
    }
  }

  /** configGotoTargets.  The exits are visited in an unspecified order. */
  method ConfigGotoTargets(n: Node, show: Value -> string) returns (out: seq<string>)
    ensures forall t :: t in out <==> ConfigGoto(n, show, t)
  {
    var cases := GotosIn(ItemsAt(n.config, "cases"), show);
    var actions := GotosIn(ItemsAt(n.config, "actions"), show);
    out := cases + actions;
    var exits, todo := ExitsOf(n.config), ExitsOf(n.config).Keys;
    while todo != {}
      invariant todo <= exits.Keys
      invariant forall t :: t in out <==>
        (t in cases || t in actions || (t != "" && exists k :: k in exits && k !in todo && GotoOf(exits[k], show) == t))
      decreases |todo|
    {
      var k :| k in todo;
      var goto := GotoOf(exits[k], show);
      if goto != "" { out := out + [goto]; }
      todo := todo - {k};
    }
  }

  ghost predicate NoRepeats(ids: seq<string>) {
    forall i, j :: 0 <= i < j < |ids| ==> ids[i] != ids[j]
  }

  /** Add ids one by one, trimmed, leaving out blank ones and those already there. */
  method AddAll(out0: seq<string>, ids: seq<string>) returns (out: seq<string>)
    requires NoRepeats(out0)
    ensures NoRepeats(out)
    ensures forall t :: t in out <==> t in out0 || (t != "" && exists id :: id in ids && Trim(id) == t)
  {
    hide Trim;
    out := out0;
    for i := 0 to |ids|
      invariant NoRepeats(out)
      invariant forall t :: t in out <==> t in out0 || (t != "" && exists j :: 0 <= j < i && Trim(ids[j]) == t)
    {
      out := AddOnce(out, Trim(ids[i]));
    }
  }

  function TargetsOf(edges: seq<Edge>): seq<string> {
    seq(|edges|, i requires 0 <= i < |edges| => edges[i].target)
  }

  /** remainingPathNeighbors: each neighbour once, edges before gotos. */
  method RemainingPathNeighbors(g: Graph, n: Node, show: Value -> string) returns (out: seq<string>)
    ensures forall t :: t in out <==> Neighbor(g, n, show, t)
    ensures NoRepeats(out)
  {
    hide Trim, ConfigGoto;
    var edges := OutEdges(g, n.id);
    out := AddAll([], TargetsOf(edges));
    ghost var fromEdges := out;
    forall t ensures t in out <==> t != "" && exists e :: e in edges && Trim(e.target) == t {
      if e :| e in edges && Trim(e.target) == t {
        var j :| 0 <= j < |edges| && edges[j] == e;
        assert TargetsOf(edges)[j] == e.target;
      }
      if id :| id in TargetsOf(edges) && Trim(id) == t {
        var j :| 0 <= j < |edges| && TargetsOf(edges)[j] == id;
        assert edges[j] in edges;
      }
    }
    var gotos := ConfigGotoTargets(n, show);
    forall t | t in gotos ensures Trim(t) == t && t != "" { GotoIsTrimmed(n, show, t); }
    out := AddAll(out, gotos);
  }

  function AddOnce(out: seq<string>, id: string): (r: seq<string>)
    ensures forall t :: t in r <==> t in out || (t == id && id != "")
  {
    if id == "" || id in out then out else out + [id]
  }

  lemma {:induction false} TrimRightAgain(s: string)
    ensures TrimRight(TrimRight(s)) == TrimRight(s)
  {
    if s != "" && IsSpace(s[|s| - 1]) { TrimRightAgain(s[..|s| - 1]); }
  }

  lemma {:induction false} TrimLeftAgain(s: string)
    ensures TrimLeft(s) == "" || !IsSpace(TrimLeft(s)[0])
  {
    if s != "" && IsSpace(s[0]) { TrimLeftAgain(s[1..]); }
  }

  lemma {:induction false} TrimRightKeepsHead(s: string)
    ensures TrimRight(s) == "" || (s != "" && TrimRight(s)[0] == s[0])
  {
    if s != "" && IsSpace(s[|s| - 1]) { TrimRightKeepsHead(s[..|s| - 1]); }
  }

  lemma TrimAgain(s: string)
    ensures Trim(Trim(s)) == Trim(s)
  {
    TrimLeftAgain(s);
    TrimRightKeepsHead(TrimLeft(s));
    TrimRightAgain(TrimLeft(s));
  }

  lemma GotoIsTrimmed(n: Node, show: Value -> string, t: string)
    requires ConfigGoto(n, show, t)
    ensures Trim(t) == t && t != ""
  {
    forall v: Value ensures Trim(GotoOf(v, show)) == GotoOf(v, show) {
      if v.VMap? { TrimAgain(Str(Lookup(v.m, "goto"), show)); }
    }
  }

  // --- The search ---------------------------------------------------------

  lemma ExtendWalk(g: Graph, show: Value -> string, from: string, a: string, b: string)
    requires Reaches(g, show, from, a) && Hop(g, show, a, b)
    ensures Reaches(g, show, from, b)
  {
    var p :| WalkTo(g, show, p, from, a);
    assert WalkTo(g, show, p + [b], from, b);
  }

  lemma EmptyWalk(g: Graph, show: Value -> string, from: string)
    ensures Reaches(g, show, from, from)
  {
    assert WalkTo(g, show, [from], from, from);
  }

  /** A set closed under hops keeps every walk that starts in it. */
  lemma {:induction false} StaysInside(g: Graph, show: Value -> string, inside: set<string>, p: seq<string>)
    requires Walk(g, show, p) && p[0] in inside
    requires forall a, b :: a in inside && Hop(g, show, a, b) ==> b in inside
    ensures p[|p| - 1] in inside
  {
    if |p| > 1 {
      assert Hop(g, show, p[0], p[1]);
      assert Walk(g, show, p[1..]) by {
        forall i | 0 <= i < |p[1..]| - 1 ensures Hop(g, show, p[1..][i], p[1..][i + 1]) {
          assert Hop(g, show, p[i + 1], p[i + 2]);
        }
      }
      StaysInside(g, show, inside, p[1..]);
    }
  }

  lemma NoGateInside(g: Graph, show: Value -> string, inside: set<string>, from: string)
    requires from in inside
    requires forall a, b :: a in inside && Hop(g, show, a, b) ==> b in inside
    requires forall a :: a in inside ==> !IsHumanGate(g, a)
    ensures !GateAhead(g, show, from)
  {
    forall to | Reaches(g, show, from, to) ensures !IsHumanGate(g, to) {
      var p :| WalkTo(g, show, p, from, to);
      StaysInside(g, show, inside, p);
    }
  }

  /** Every id the search can meet. */
  ghost function Ids(g: Graph, show: Value -> string, from: string): (ids: set<string>)
    ensures from in ids && forall a, b :: Hop(g, show, a, b) ==> b in ids
  {
    var targets := set e | e in g.edges :: Trim(e.target);
    var cases := set n, v | n in g.nodes && v in ItemsAt(n.config, "cases") :: GotoOf(v, show);
    var actions := set n, v | n in g.nodes && v in ItemsAt(n.config, "actions") :: GotoOf(v, show);
    var exits := set n, k | n in g.nodes && k in ExitsOf(n.config) :: GotoOf(ExitsOf(n.config)[k], show);
    {from} + targets + cases + actions + exits
  }

  /** Everything seen is ahead of `from`, and no human gate. */
  ghost predicate Searched(g: Graph, show: Value -> string, from: string, visited: set<string>) {
    forall a :: a in visited ==> Reaches(g, show, from, a) && !IsHumanGate(g, a)
  }

  /** Everything seen but the nodes still waiting has had its neighbours seen. */
  ghost predicate Expanded(g: Graph, show: Value -> string, visited: set<string>, waiting: set<string>) {
    forall a, b :: a in visited && a !in waiting && Hop(g, show, a, b) ==> b in visited
  }

  lemma SeeOne(g: Graph, show: Value -> string, from: string, visited: set<string>, waiting: set<string>, id: string)
    requires Searched(g, show, from, visited) && Expanded(g, show, visited, waiting)
    requires Reaches(g, show, from, id) && !IsHumanGate(g, id)
    ensures Searched(g, show, from, visited + {id}) && Expanded(g, show, visited + {id}, waiting + {id})
  {
  }

  /** The inner loop: look at the neighbours of `cur`, enqueue the new ones. */
  method LookAround(g: Graph, show: Value -> string, ghost from: string, cur: string, nexts: seq<string>,
                    visited0: set<string>, queue0: seq<string>)
    returns (found: bool, visited: set<string>, queue: seq<string>)
    requires Searched(g, show, from, visited0) && Expanded(g, show, visited0, Elements(queue0) + {cur})
    requires Elements(queue0) <= visited0
    requires forall t :: t in nexts ==> Reaches(g, show, from, t)
    ensures found ==> exists t :: t in nexts && IsHumanGate(g, t)
    ensures !found ==> Searched(g, show, from, visited) && Expanded(g, show, visited, Elements(queue) + {cur})
    ensures !found ==> Elements(queue) <= visited == visited0 + Elements(nexts)
    ensures !found && visited == visited0 ==> queue == queue0
  {
    visited, queue := visited0, queue0;
    for i := 0 to |nexts|
      invariant Searched(g, show, from, visited) && Expanded(g, show, visited, Elements(queue) + {cur})
      invariant Elements(queue) <= visited == visited0 + Elements(nexts[..i])
      invariant visited == visited0 ==> queue == queue0
    {
      assert Elements(nexts[..i + 1]) == Elements(nexts[..i]) + {nexts[i]};
      if nexts[i] !in visited {
        if IsHumanGate(g, nexts[i]) { return true, visited, queue; }
        SeeOne(g, show, from, visited, Elements(queue) + {cur}, nexts[i]);
        assert Elements(queue + [nexts[i]]) + {cur} == Elements(queue) + {cur} + {nexts[i]};
        visited := visited + {nexts[i]};
        queue := queue + [nexts[i]];
      }
    }
    assert nexts[..|nexts|] == nexts;
    return false, visited, queue;
  }

  /** A node is done when all its neighbours have been seen. */
  lemma DoneWith(g: Graph, show: Value -> string, visited: set<string>, waiting: set<string>, cur: string, nexts: seq<string>)
    requires Expanded(g, show, visited, waiting + {cur}) && Elements(nexts) <= visited
    requires forall b :: b in nexts <==> Hop(g, show, cur, b)
    ensures Expanded(g, show, visited, waiting)
  {
    forall b | Hop(g, show, cur, b) ensures b in visited { assert b in Elements(nexts); }
  }

  lemma AllReached(g: Graph, show: Value -> string, from: string, visited: set<string>, cur: string, nexts: seq<string>)
    requires Searched(g, show, from, visited) && cur in visited
    requires forall t :: t in nexts <==> Hop(g, show, cur, t)
    ensures Elements(nexts) <= Ids(g, show, from) && forall t :: t in nexts ==> Reaches(g, show, from, t)
  {
    hide Hop, Ids;
    forall t | t in nexts ensures Reaches(g, show, from, t) { ExtendWalk(g, show, from, cur, t); }
  }

  lemma UnknownHasNoGate(g: Graph, show: Value -> string, from: string)
    requires FindNode(g, from).None?
    ensures !GateAhead(g, show, from)
  {
    NoGateInside(g, show, {from}, from);
  }

  lemma GateFound(g: Graph, show: Value -> string, from: string, t: string)
    requires Reaches(g, show, from, t) && IsHumanGate(g, t)
    ensures GateAhead(g, show, from)
  {
  }

  lemma NoGateFound(g: Graph, show: Value -> string, from: string, visited: set<string>)
    requires from in visited && Searched(g, show, from, visited) && Expanded(g, show, visited, Elements([]))
    ensures !GateAhead(g, show, from)
  {
    NoGateInside(g, show, visited, from);
  }

  lemma HeadAndRest(queue: seq<string>)
    requires queue != []
    ensures Elements(queue) == Elements(queue[1..]) + {queue[0]}
  {
  }

  lemma OneSeen(g: Graph, show: Value -> string, from: string)
    requires Reaches(g, show, from, from) && !IsHumanGate(g, from)
    ensures Searched(g, show, from, {from}) && Expanded(g, show, {from}, Elements([from])) && Elements([from]) == {from}
  {
    assert Elements([from]) == {from};
  }

  /** hasRemainingHumanGate: breadth first, whatever cycles the graph has. */
  method HasRemainingHumanGate(g: Graph, from: string, show: Value -> string) returns (found: bool)
    ensures found == (from != "" && GateAhead(g, show, from))
  {
    hide Searched, Expanded, Ids, GateAhead, Elements;
    if from == "" || FindNode(g, from).None? {
      if FindNode(g, from).None? { UnknownHasNoGate(g, show, from); }
      return false;
    }
    EmptyWalk(g, show, from);
    if FindNode(g, from).value.kind == "human_gate" {
      GateFound(g, show, from, from);
      return true;
    }
    var visited, queue := {from}, [from];
    ghost var ids := Ids(g, show, from);
    OneSeen(g, show, from);
    while queue != []
      invariant from in visited && visited <= ids && Elements(queue) <= visited
      invariant Searched(g, show, from, visited) && Expanded(g, show, visited, Elements(queue))
      decreases |ids - visited|, |queue|
    {
      var cur, rest := queue[0], queue[1..];
      HeadAndRest(queue);
      var node := FindNode(g, cur);
      var nexts := [];
      if node.Some? { nexts := RemainingPathNeighbors(g, node.value, show); }
      assert forall t :: t in nexts <==> Hop(g, show, cur, t);
      AllReached(g, show, from, visited, cur, nexts);
      ghost var seen := visited;
      found, visited, queue := LookAround(g, show, from, cur, nexts, visited, rest);
      if found {
        ghost var t :| t in nexts && IsHumanGate(g, t);
        GateFound(g, show, from, t);
        return;
      }
      DoneWith(g, show, visited, Elements(queue), cur, nexts);
      SubsetCard(ids - visited, ids - seen);
    }
    NoGateFound(g, show, from, visited);
    return false;
  }
}
