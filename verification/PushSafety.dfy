/** What the push queue keeps: run notifications in order, and the shape of the queue;
    and what flushing keeps, however enqueues, flushes and aborts interleave. */
module PushSafety {
  import opened Lists
  import opened PushQueue
  import opened Text

  // --- Run notifications are neither lost, merged nor reordered -----------------

  function KeptOf(items: seq<Item>): seq<Item> {
    Filter(items, Kept)
  }

  lemma {:induction false} FilterReplace(items: seq<Item>, i: nat, x: Item)
    requires i < |items| && !Kept(items[i]) && !Kept(x)
    ensures KeptOf(items[i := x]) == KeptOf(items)
  {
    hide Protected;
    if i > 0 {
      FilterReplace(items[1..], i - 1, x);
      assert items[i := x][1..] == items[1..][i - 1 := x];
    } else {
      assert items[0 := x][1..] == items[1..];
    }
  }

  lemma {:induction false} FilterRemove(items: seq<Item>, i: nat)
    requires i < |items| && !Kept(items[i])
    ensures KeptOf(RemoveAt(items, i)) == KeptOf(items)
  {
    hide Protected;
    if i > 0 {
      FilterRemove(items[1..], i - 1);
      assert RemoveAt(items, i)[1..] == RemoveAt(items[1..], i - 1);
    } else {
      assert RemoveAt(items, 0) == items[1..];
    }
  }

  lemma {:induction false} EvictKeeps(items: seq<Item>)
    ensures KeptOf(EvictUnchanged(items)) == KeptOf(items)
    decreases |items|
  {
    var i := FirstIndex(items, IsLow);
    if |items| >= DEPTH && i < |items| {
      FilterRemove(items, i);
      EvictKeeps(RemoveAt(items, i));
    }
  }

  lemma CrowdKeeps(items: seq<Item>, item: Item)
    ensures KeptOf(Crowd(items, item)) == KeptOf(items) + KeptOf([item])
  {
    hide KeptOf, FirstIndex, Trim;
    var same := FirstIndex(items, Coalesces(item));
    var changed := FirstIndex(items, IsDroppable);
    var free := FirstIndex(items, IsFree);
    KeptOne(item);
    if same < |items| {
      assert Coalesces(item)(items[same]);
      FilterReplace(items, same, item);
    } else if changed < |items| {
      FilterRemove(items, changed);
      KeptSum(RemoveAt(items, changed), item);
    } else if !Protected(item) && free < |items| {
      FilterRemove(items, free);
      KeptSum(RemoveAt(items, free), item);
    } else {
      KeptSum(items, item);
    }
  }

  lemma KeptOne(item: Item)
    ensures KeptOf([item]) == if Kept(item) then [item] else []
    ensures KeptOf([]) == []
  {
    FilterNone();
    FilterNext([], item, Kept);
    assert [] + [item] == [item];
  }

  lemma KeptSum(items: seq<Item>, item: Item)
    ensures KeptOf(items + [item]) == KeptOf(items) + KeptOf([item])
  {
    FilterSum(items, [item], Kept);
  }

  /** An enqueue adds its item to the kept ones if it is one, last, and touches no other. */
  lemma EnqueueKeeps(items: seq<Item>, item: Item)
    ensures KeptOf(Enqueue(items, item)) == KeptOf(items) + KeptOf([item])
  {
    hide KeptOf, FirstIndex, Trim, Crowd, EvictUnchanged;
    var same := FirstIndex(items, MergesInto(item));
    var any := FirstIndex(items, IsLow);
    KeptOne(item);
    KeptSum(items, item);
    if item.kind == Unchanged && same < |items| {
      assert MergesInto(item)(items[same]);
      FilterReplace(items, same, item);
    } else if |items| >= DEPTH {
      if item.kind == Unchanged {
        if any < |items| { FilterReplace(items, any, item); }
      } else {
        var left := EvictUnchanged(items);
        EvictKeeps(items);
        KeptSum(left, item);
        CrowdKeeps(left, item);
      }
    }
  }

  // --- The shape of the queue ---------------------------------------------------

  /** At most one unchanged item in a category. */
  ghost predicate OneUnchangedEach(items: seq<Item>) {
    forall i, j :: 0 <= i < j < |items| && items[i].kind == Unchanged && items[j].kind == Unchanged ==>
      !SameCategory(items[i].category, items[j].category)
  }

  function Unprotected(items: seq<Item>): nat {
    |Filter(items, IsFree)|
  }

  ghost predicate NoUnchanged(items: seq<Item>) {
    forall p :: p in items ==> p.kind != Unchanged
  }

  /** The queue never holds more than its depth of items that may be dropped, and
      exceeds its depth only without unchanged items. */
  ghost predicate Shape(items: seq<Item>) {
    && OneUnchangedEach(items)
    && Unprotected(items) <= DEPTH
    && (|items| > DEPTH ==> NoUnchanged(items))
  }

  lemma {:induction false} FilterAtMost(items: seq<Item>, ok: Item -> bool)
    ensures |Filter(items, ok)| <= |items|
    ensures (forall p :: p in items ==> !ok(p)) ==> |Filter(items, ok)| == 0
  {
    if items != [] { FilterAtMost(items[1..], ok); }
  }

  lemma {:induction false} CountReplace(items: seq<Item>, i: nat, x: Item, ok: Item -> bool)
    requires i < |items|
    ensures |Filter(items[i := x], ok)| == |Filter(items, ok)| - (if ok(items[i]) then 1 else 0) + if ok(x) then 1 else 0
  {
    if i > 0 {
      CountReplace(items[1..], i - 1, x, ok);
      assert items[i := x][1..] == items[1..][i - 1 := x];
    } else {
      assert items[0 := x][1..] == items[1..];
    }
  }

  lemma {:induction false} CountRemove(items: seq<Item>, i: nat, ok: Item -> bool)
    requires i < |items|
    ensures |Filter(RemoveAt(items, i), ok)| == |Filter(items, ok)| - if ok(items[i]) then 1 else 0
  {
    if i > 0 {
      CountRemove(items[1..], i - 1, ok);
      assert RemoveAt(items, i)[1..] == RemoveAt(items[1..], i - 1);
    } else {
      assert RemoveAt(items, 0) == items[1..];
    }
  }

  lemma CountNext(items: seq<Item>, x: Item, ok: Item -> bool)
    ensures |Filter(items + [x], ok)| == |Filter(items, ok)| + if ok(x) then 1 else 0
  {
    FilterNext(items, x, ok);
  }

  /** Removing an item, or one unchanged item taking the place of another, keeps the categories apart. */
  lemma StaysApartRemoved(items: seq<Item>, i: nat)
    requires i < |items| && OneUnchangedEach(items)
    ensures OneUnchangedEach(RemoveAt(items, i))
  {
  }

  lemma StaysApartReplaced(items: seq<Item>, i: nat, x: Item)
    requires i < |items| && OneUnchangedEach(items)
    requires x.kind == Unchanged ==>
      forall j :: 0 <= j < |items| && j != i && items[j].kind == Unchanged ==> !SameCategory(items[j].category, x.category)
    ensures OneUnchangedEach(items[i := x])
  {
  }

  lemma StaysApartAppended(items: seq<Item>, x: Item)
    requires OneUnchangedEach(items)
    requires x.kind == Unchanged ==>
      forall j :: 0 <= j < |items| && items[j].kind == Unchanged ==> !SameCategory(items[j].category, x.category)
    ensures OneUnchangedEach(items + [x])
  {
  }

  lemma {:induction false} EvictShape(items: seq<Item>)
    requires OneUnchangedEach(items)
    ensures OneUnchangedEach(EvictUnchanged(items))
    ensures Unprotected(EvictUnchanged(items)) <= Unprotected(items)
    decreases |items|
  {
    var i := FirstIndex(items, IsLow);
    if |items| >= DEPTH && i < |items| {
      StaysApartRemoved(items, i);
      CountRemove(items, i, IsFree);
      EvictShape(RemoveAt(items, i));
    }
  }

  lemma CrowdShape(items: seq<Item>, item: Item)
    requires NoUnchanged(items) && item.kind != Unchanged && Unprotected(items) <= DEPTH
    ensures NoUnchanged(Crowd(items, item)) && Unprotected(Crowd(items, item)) <= DEPTH
    ensures OneUnchangedEach(Crowd(items, item))
    ensures item in Crowd(items, item)
  {
    hide Filter, FirstIndex, Trim;
    var same := FirstIndex(items, Coalesces(item));
    var changed := FirstIndex(items, IsDroppable);
    var free := FirstIndex(items, IsFree);
    if same < |items| {
      assert Coalesces(item)(items[same]);
      CountReplace(items, same, item, IsFree);
      assert items[same := item][same] == item;
    } else if changed < |items| {
      CountRemove(items, changed, IsFree);
      CountNext(RemoveAt(items, changed), item, IsFree);
    } else if !Protected(item) && free < |items| {
      CountRemove(items, free, IsFree);
      CountNext(RemoveAt(items, free), item, IsFree);
    } else {
      CountNext(items, item, IsFree);
      if !Protected(item) { FilterAtMost(items, IsFree); }
    }
  }

  /** Every enqueue keeps the shape. */
  lemma EnqueueShape(items: seq<Item>, item: Item)
    requires Shape(items)
    ensures Shape(Enqueue(items, item))
  {
    hide Filter, FirstIndex, SameCategory, Protected, Crowd, EvictUnchanged, OneUnchangedEach;
    var same := FirstIndex(items, MergesInto(item));
    var any := FirstIndex(items, IsLow);
    if item.kind == Unchanged && same < |items| {
      MergeShape(items, item, same);
    } else if |items| < DEPTH {
      NoMergeTarget(items, item);
      StaysApartAppended(items, item);
      FilterAtMost(items + [item], IsFree);
    } else if item.kind == Unchanged {
      if any < |items| {
        NoMergeTarget(items, item);
        StaysApartReplaced(items, any, item);
        assert |items[any := item]| == |items| == DEPTH;
        FilterAtMost(items[any := item], IsFree);
      }
    } else {
      var left := EvictUnchanged(items);
      EvictShape(items);
      StaysApartAppended(left, item);
      FilterAtMost(left + [item], IsFree);
      if |left| >= DEPTH { CrowdShape(left, item); }
    }
  }

  lemma NoMergeTarget(items: seq<Item>, item: Item)
    requires item.kind == Unchanged ==> FirstIndex(items, MergesInto(item)) == |items|
    ensures item.kind == Unchanged ==>
      forall j :: 0 <= j < |items| && items[j].kind == Unchanged ==> !SameCategory(items[j].category, item.category)
  {
  }

  lemma MergeShape(items: seq<Item>, item: Item, i: nat)
    requires Shape(items) && item.kind == Unchanged && i < |items| && MergesInto(item)(items[i])
    ensures Shape(items[i := item])
  {
    hide Filter;
    CountReplace(items, i, item, IsFree);
    forall j | 0 <= j < |items| && j != i && items[j].kind == Unchanged
      ensures !SameCategory(items[j].category, item.category) { }
    StaysApartReplaced(items, i, item);
    assert items[i] in items;
  }

  /** A changed or failed item is always in the queue after its enqueue; an unchanged one
      is turned away exactly when the queue is full of items that are not unchanged. */
  lemma IncomingIsRetained(items: seq<Item>, item: Item)
    requires Shape(items)
    ensures item.kind != Unchanged ==> item in Enqueue(items, item)
    ensures item.kind == Unchanged ==> (item in Enqueue(items, item) <==> |items| < DEPTH || !NoUnchanged(items))
  {
    hide Filter, SameCategory, Protected, Crowd, EvictUnchanged, OneUnchangedEach;
    var same := FirstIndex(items, MergesInto(item));
    var any := FirstIndex(items, IsLow);
    if item.kind == Unchanged && same < |items| {
      assert items[same := item][same] == item;
      assert items[same] in items && items[same].kind == Unchanged;
    } else if |items| >= DEPTH {
      if item.kind == Unchanged {
        if any < |items| {
          assert items[any := item][any] == item;
          assert items[any] in items && items[any].kind == Unchanged;
        } else {
          forall p | p in items ensures p.kind != Unchanged { var k :| 0 <= k < |items| && items[k] == p; }
        }
      } else {
        var left := EvictUnchanged(items);
        EvictShapeOf(items);
        if |left| >= DEPTH { CrowdShape(left, item); }
      }
    }
  }

  lemma EvictShapeOf(items: seq<Item>)
    requires Shape(items)
    ensures Unprotected(EvictUnchanged(items)) <= DEPTH
  {
    EvictShape(items);
  }

  // --- A flush batch ------------------------------------------------------------

  /** A batch is the queue reordered: the same items, every changed or failed one before
      every unchanged one, and each of the two groups in arrival order. */
  lemma {:induction false} BatchIsAPermutation(items: seq<Item>)
    ensures multiset(ByPriority(items)) == multiset(items)
    ensures forall i, j :: 0 <= i < j < |ByPriority(items)| && ByPriority(items)[j].kind != Unchanged ==>
              ByPriority(items)[i].kind != Unchanged
    ensures Filter(ByPriority(items), IsHigh) == Filter(items, IsHigh)
    ensures Filter(ByPriority(items), IsLow) == Filter(items, IsLow)
  {
    hide Filter, IsHigh, IsLow;
    Partition(items);
    var h, l := Filter(items, IsHigh), Filter(items, IsLow);
    HighThenLow(items);
    FilterSum(h, l, IsHigh);
    FilterSum(h, l, IsLow);
    AllPass(h, IsHigh);
    AllPass(l, IsLow);
    NonePass(l, IsHigh);
    NonePass(h, IsLow);
    assert h + [] == h && [] + l == l;
  }

  lemma HighThenLow(items: seq<Item>)
    ensures forall p :: p in Filter(items, IsHigh) ==> IsHigh(p) && !IsLow(p)
    ensures forall p :: p in Filter(items, IsLow) ==> IsLow(p) && !IsHigh(p)
    ensures forall i, j :: 0 <= i < j < |ByPriority(items)| && ByPriority(items)[j].kind != Unchanged ==>
              ByPriority(items)[i].kind != Unchanged
  {
    var h, l := Filter(items, IsHigh), Filter(items, IsLow);
    var b := h + l;
    assert forall k :: 0 <= k < |h| ==> b[k] in h;
    assert forall k :: |h| <= k < |b| ==> b[k] in l;
  }

  lemma {:induction false} Partition(items: seq<Item>)
    ensures multiset(Filter(items, IsHigh) + Filter(items, IsLow)) == multiset(items)
  {
    if items != [] {
      Partition(items[1..]);
      assert items == [items[0]] + items[1..];
    }
  }

  lemma {:induction false} AllPass(items: seq<Item>, ok: Item -> bool)
    requires forall p :: p in items ==> ok(p)
    ensures Filter(items, ok) == items
  {
    if items != [] {
      AllPass(items[1..], ok);
      assert items == [items[0]] + items[1..];
    }
  }

  lemma {:induction false} NonePass(items: seq<Item>, ok: Item -> bool)
    requires forall p :: p in items ==> !ok(p)
    ensures Filter(items, ok) == []
  {
    if items != [] { NonePass(items[1..], ok); }
  }

  lemma {:induction false} ShapeAlways(more: seq<Item>)
    ensures Shape(EnqueueAll([], more))
  {
    if more == [] {
      assert Filter([], IsFree) == [];
    } else {
      ShapeAlways(more[..|more| - 1]);
      EnqueueShape(EnqueueAll([], more[..|more| - 1]), more[|more| - 1]);
    }
  }

  // --- Flushing while pushes arrive -------------------------------------------------

  /** A flush of one conversation: sending its batch, or putting the rest back. */
  datatype Flight = Flight(items: seq<Item>, requeuing: bool)

  /** The queue, the flushes under way, and what has arrived and been handed out. */
  datatype Sys = Sys(pending: seq<Item>, flights: seq<Flight>, arrived: seq<Item>, attempted: seq<Item>)

  /** The steps, each one critical section or one delivery attempt. */
  datatype Step =
    | Arrive(item: Item)
    | Take
    | Attempt(f: nat)
    | Abort(f: nat)
    | PutBack(f: nat)

  predicate CanStep(s: Sys, e: Step) {
    match e
    case Arrive(item) => true
    case Take => true
    case Attempt(f) => f < |s.flights| && !s.flights[f].requeuing && s.flights[f].items != []
    case Abort(f) => f < |s.flights| && !s.flights[f].requeuing && s.flights[f].items != []
    case PutBack(f) => f < |s.flights| && s.flights[f].requeuing && s.flights[f].items != []
  }

  /** Attempt covers a failed lookup or send too: the item is not tried again. */
  function DoStep(s: Sys, e: Step): Sys
    requires CanStep(s, e)
  {
    match e
    case Arrive(item) => s.(pending := Enqueue(s.pending, item), arrived := s.arrived + [item])
    case Take => s.(pending := [], flights := s.flights + [Flight(ByPriority(s.pending), false)])
    case Attempt(f) =>
      var items := s.flights[f].items;
      s.(flights := s.flights[f := Flight(items[1..], false)], attempted := s.attempted + [items[0]])
    case Abort(f) =>
      s.(pending := [], flights := s.flights[f := Flight(s.flights[f].items + s.pending, true)])
    case PutBack(f) =>
      var items := s.flights[f].items;
      s.(pending := Enqueue(s.pending, items[0]), flights := s.flights[f := Flight(items[1..], true)])
  }

  /** How often an item occurs. */
  function Times(items: seq<Item>, p: Item): nat {
    multiset(items)[p]
  }

  function InFlight(flights: seq<Flight>, p: Item): nat {
    if flights == [] then 0 else Times(flights[0].items, p) + InFlight(flights[1..], p)
  }

  /** Every run notification that arrived is in exactly one place. */
  ghost predicate Conserved(s: Sys) {
    forall p :: Kept(p) ==> Balanced(s, p)
  }

  ghost predicate Balanced(s: Sys, p: Item) {
    Times(s.arrived, p) == Times(s.pending, p) + InFlight(s.flights, p) + Times(s.attempted, p)
  }

  lemma {:induction false} InFlightUpdate(flights: seq<Flight>, f: nat, x: Flight, p: Item)
    requires f < |flights|
    ensures InFlight(flights[f := x], p) == InFlight(flights, p) - Times(flights[f].items, p) + Times(x.items, p)
  {
    hide Times;
    if f > 0 {
      InFlightUpdate(flights[1..], f - 1, x, p);
      assert flights[f := x][1..] == flights[1..][f - 1 := x];
    } else {
      assert flights[0 := x][1..] == flights[1..];
    }
  }

  lemma {:induction false} InFlightAppend(flights: seq<Flight>, x: Flight, p: Item)
    ensures InFlight(flights + [x], p) == InFlight(flights, p) + Times(x.items, p)
  {
    hide Times;
    if flights == [] {
      assert [x][1..] == [];
    } else {
      InFlightAppend(flights[1..], x, p);
      assert (flights + [x])[1..] == flights[1..] + [x];
    }
  }

  lemma {:induction false} KeptAreCounted(items: seq<Item>, p: Item)
    requires Kept(p)
    ensures Times(KeptOf(items), p) == Times(items, p)
  {
    hide Protected;
    if items != [] {
      KeptAreCounted(items[1..], p);
      assert items == [items[0]] + items[1..];
    }
  }

  lemma EnqueueCounts(items: seq<Item>, x: Item, p: Item)
    requires Kept(p)
    ensures Times(Enqueue(items, x), p) == Times(items, p) + Times([x], p)
  {
    hide Enqueue, Protected, KeptOf;
    EnqueueKeeps(items, x);
    KeptAreCounted(items, p);
    KeptAreCounted([x], p);
    KeptAreCounted(Enqueue(items, x), p);
  }

  lemma TimesOfHead(items: seq<Item>, p: Item)
    requires items != []
    ensures Times(items, p) == Times([items[0]], p) + Times(items[1..], p)
  {
    assert items == [items[0]] + items[1..];
  }

  lemma TimesOfSum(a: seq<Item>, b: seq<Item>, p: Item)
    ensures Times(a + b, p) == Times(a, p) + Times(b, p)
    ensures Times([], p) == 0
  {
  }

  lemma StepBalances(s: Sys, e: Step, p: Item)
    requires Kept(p) && Balanced(s, p) && CanStep(s, e)
    ensures Balanced(DoStep(s, e), p)
  {
    hide Times, Enqueue, ByPriority, Protected;
    TimesOfSum([], [], p);
    match e {
      case Arrive(item) =>
        EnqueueCounts(s.pending, item, p);
        TimesOfSum(s.arrived, [item], p);
      case Take =>
        SameTimes(s.pending, p);
        InFlightAppend(s.flights, Flight(ByPriority(s.pending), false), p);
      case Attempt(f) =>
        TimesOfHead(s.flights[f].items, p);
        TimesOfSum(s.attempted, [s.flights[f].items[0]], p);
        InFlightUpdate(s.flights, f, Flight(s.flights[f].items[1..], false), p);
      case Abort(f) =>
        TimesOfSum(s.flights[f].items, s.pending, p);
        InFlightUpdate(s.flights, f, Flight(s.flights[f].items + s.pending, true), p);
      case PutBack(f) =>
        TimesOfHead(s.flights[f].items, p);
        EnqueueCounts(s.pending, s.flights[f].items[0], p);
        InFlightUpdate(s.flights, f, Flight(s.flights[f].items[1..], true), p);
    }
  }

  lemma SameTimes(items: seq<Item>, p: Item)
    ensures Times(ByPriority(items), p) == Times(items, p)
  {
    BatchIsAPermutation(items);
  }

  lemma StepConserves(s: Sys, e: Step)
    requires Conserved(s) && CanStep(s, e)
    ensures Conserved(DoStep(s, e))
  {
    hide Balanced, Protected;
    forall p | Kept(p) ensures Balanced(DoStep(s, e), p) { StepBalances(s, e, p); }
  }

  ghost predicate Possible(s: Sys, es: seq<Step>)
    decreases |es|
  {
    es == [] || (CanStep(s, es[0]) && Possible(DoStep(s, es[0]), es[1..]))
  }

  function After(s: Sys, es: seq<Step>): Sys
    requires Possible(s, es)
    decreases |es|
  {
    if es == [] then s else After(DoStep(s, es[0]), es[1..])
  }

  /** Whatever arrives while flushes send, find the conversation busy and put items back:
      every changed or failed run notification is exactly once in the queue, in a flush, or
      handed to a delivery attempt, and the queue keeps its shape. */
  lemma {:induction false} NothingProtectedIsLost(s: Sys, es: seq<Step>)
    requires Possible(s, es) && Conserved(s) && Shape(s.pending)
    ensures Conserved(After(s, es)) && Shape(After(s, es).pending)
    decreases |es|
  {
    hide Conserved, Shape;
    if es != [] {
      StepConserves(s, es[0]);
      StepShapes(s, es[0]);
      NothingProtectedIsLost(DoStep(s, es[0]), es[1..]);
    }
  }

  lemma StepShapes(s: Sys, e: Step)
    requires Shape(s.pending) && CanStep(s, e)
    ensures Shape(DoStep(s, e).pending)
  {
    hide Shape;
    ShapeAlways([]);
    match e {
      case Arrive(item) => EnqueueShape(s.pending, item);
      case Take =>
      case Attempt(f) =>
      case Abort(f) =>
      case PutBack(f) => EnqueueShape(s.pending, s.flights[f].items[0]);
    }
  }
}
