/** The queue of timed pushes waiting for a conversation to be idle: bounded,
    merging, evicting, and never losing a run notification. */
module PushQueue {
  import opened Lists
  import opened Text

  datatype Kind = Changed | Unchanged | Failed

  datatype Item = Item(category: string, kind: Kind, text: string, channel: string, serial: nat)

  const DEPTH := 8

  predicate SameCategory(a: string, b: string) {
    Trim(a) == Trim(b)
  }

  /** A run notification: its receipt is already claimed, so it must not be dropped. */
  predicate Protected(p: Item) {
    Trim(p.category) == "run_notify"
  }

  /** The items that may never be lost.  An unchanged item is mergeable whatever its category. */
  predicate Kept(p: Item) {
    Protected(p) && p.kind != Unchanged
  }

  predicate IsHigh(p: Item) { p.kind != Unchanged }

  predicate IsLow(p: Item) { p.kind == Unchanged }

  predicate IsDroppable(p: Item) { p.kind == Changed && !Protected(p) }

  predicate IsFree(p: Item) { !Protected(p) }

  /** The unchanged items an unchanged item replaces. */
  function MergesInto(item: Item): Item -> bool {
    (p: Item) => p.kind == Unchanged && SameCategory(p.category, item.category)
  }

  /** The changed or failed items a changed or failed one may overwrite. */
  function Coalesces(item: Item): Item -> bool {
    (p: Item) => p.kind != Unchanged && !Protected(p) && !Protected(item) && SameCategory(p.category, item.category)
  }

  function RemoveAt(items: seq<Item>, i: nat): seq<Item>
    requires i < |items|
  {
    items[..i] + items[i + 1..]
  }

  // --- Enqueueing ------------------------------------------------------------------

  /** Drop the oldest unchanged items until there is room or none is left. */
  function EvictUnchanged(items: seq<Item>): (r: seq<Item>)
    ensures |r| <= |items|
    ensures |r| >= DEPTH ==> forall p :: p in r ==> p.kind != Unchanged
    ensures forall p :: p in r ==> p in items
    decreases |items|
  {
    var i := FirstIndex(items, IsLow);
    if |items| < DEPTH || i == |items| then items else EvictUnchanged(RemoveAt(items, i))
  }

  /** A changed or failed item against a queue full of changed and failed items. */
  function Crowd(items: seq<Item>, item: Item): seq<Item> {
    var same := FirstIndex(items, Coalesces(item));
    var changed := FirstIndex(items, IsDroppable);
    var free := FirstIndex(items, IsFree);
    if same < |items| then items[same := item]
    else if changed < |items| then RemoveAt(items, changed) + [item]
    else if !Protected(item) && free < |items| then RemoveAt(items, free) + [item]
    else items + [item]
  }

  function Enqueue(items: seq<Item>, item: Item): seq<Item> {
    var same := FirstIndex(items, MergesInto(item));
    var any := FirstIndex(items, IsLow);
    if item.kind == Unchanged && same < |items| then items[same := item]
    else if |items| < DEPTH then items + [item]
    else if item.kind == Unchanged then (if any < |items| then items[any := item] else items)
    else
      var left := EvictUnchanged(items);
      if |left| < DEPTH then left + [item] else Crowd(left, item)
  }

  /** The items of a batch that satisfy `ok`, in order. */
  function Filter(items: seq<Item>, ok: Item -> bool): (r: seq<Item>)
    ensures forall p :: p in r <==> p in items && ok(p)
  {
    if items == [] then []
    else (if ok(items[0]) then [items[0]] else []) + Filter(items[1..], ok)
  }

  /** Changed and failed items before unchanged ones, each in arrival order. */
  function ByPriority(items: seq<Item>): seq<Item> {
    Filter(items, IsHigh) + Filter(items, IsLow)
  }

  method IndexWhere(items: seq<Item>, ok: Item -> bool) returns (i: int)
    ensures i == if FirstIndex(items, ok) < |items| then FirstIndex(items, ok) else -1
  {
    i := 0;
    while i < |items|
      invariant 0 <= i <= |items| && forall j :: 0 <= j < i ==> !ok(items[j])
    {
      if ok(items[i]) { return; }
      i := i + 1;
    }
    return -1;
  }

  lemma FilterNone()
    ensures forall ok: Item -> bool :: Filter([], ok) == []
  {
  }

  lemma ShortBatch(items: seq<Item>)
    requires |items| < 2
    ensures ByPriority(items) == items
  {
    if |items| == 1 {
      assert Filter(items[1..], IsHigh) == [] && Filter(items[1..], IsLow) == [];
      assert items == [items[0]];
    }
  }

  method SortPushByPriority(items: seq<Item>) returns (r: seq<Item>)
    ensures r == ByPriority(items)
  {
    if |items| < 2 {
      ShortBatch(items);
      return items;
    }
    hide Filter;
    assert Filter([], IsHigh) == [] && Filter([], IsLow) == [] by { FilterNone(); }
    var high, low := [], [];
    for i := 0 to |items|
      invariant high == Filter(items[..i], IsHigh) && low == Filter(items[..i], IsLow)
    {
      assert items[..i + 1] == items[..i] + [items[i]];
      FilterNext(items[..i], items[i], IsHigh);
      FilterNext(items[..i], items[i], IsLow);
      if items[i].kind == Unchanged { low := low + [items[i]]; } else { high := high + [items[i]]; }
    }
    assert items[..|items|] == items;
    return high + low;
  }

  lemma FilterHead(a: seq<Item>, ok: Item -> bool)
    requires a != []
    ensures Filter(a, ok) == (if ok(a[0]) then [a[0]] else []) + Filter(a[1..], ok)
  {
  }

  lemma Tail(a: seq<Item>, b: seq<Item>)
    requires a != []
    ensures (a + b)[0] == a[0] && (a + b)[1..] == a[1..] + b
  {
  }

  lemma Regroup(a: seq<Item>, b: seq<Item>, c: seq<Item>)
    ensures a + (b + c) == (a + b) + c
  {
  }

  lemma {:induction false} FilterSum(a: seq<Item>, b: seq<Item>, ok: Item -> bool)
    ensures Filter(a + b, ok) == Filter(a, ok) + Filter(b, ok)
  {
    if a == [] {
      assert a + b == b;
    } else {
      hide Filter;
      FilterSum(a[1..], b, ok);
      FilterHead(a, ok);
      FilterHead(a + b, ok);
      Tail(a, b);
      Regroup(if ok(a[0]) then [a[0]] else [], Filter(a[1..], ok), Filter(b, ok));
    }
  }

  lemma FilterNext(a: seq<Item>, p: Item, ok: Item -> bool)
    ensures Filter(a + [p], ok) == Filter(a, ok) + if ok(p) then [p] else []
  {
    FilterSum(a, [p], ok);
    assert [p][1..] == [];
  }

  class Queue {
    var pending: seq<Item>

    constructor ()
      ensures pending == []
    {
      pending := [];
    }

    method ReplaceSameCategoryHigh(item: Item) returns (done: bool)
      modifies this
      ensures var i := FirstIndex(old(pending), Coalesces(item));
              && done == (i < |old(pending)|)
              && pending == if done then old(pending)[i := item] else old(pending)
    {
      var i := 0;
      while i < |pending|
        invariant 0 <= i <= |pending| && pending == old(pending)
        invariant forall j :: 0 <= j < i ==> !Coalesces(item)(pending[j])
      {
        var p := pending[i];
        if p.kind != Unchanged && !Protected(p) && !Protected(item) && SameCategory(p.category, item.category) {
          pending := pending[i := item];
          return true;
        }
        i := i + 1;
      }
      return false;
    }

    method Evict()
      modifies this
      ensures pending == EvictUnchanged(old(pending))
    {
      while |pending| >= DEPTH
        invariant EvictUnchanged(pending) == EvictUnchanged(old(pending))
        decreases |pending|
      {
        var idx := IndexWhere(pending, IsLow);
        if idx < 0 { break; }
        pending := RemoveAt(pending, idx);
      }
    }

    method MakeRoom(item: Item)
      modifies this
      ensures pending == Crowd(old(pending), item)
    {
      hide FirstIndex, Protected, Coalesces, IsFree, IsDroppable;
      var done := ReplaceSameCategoryHigh(item);
      if done { return; }
      var drop := IndexWhere(pending, IsDroppable);
      if drop >= 0 {
        pending := RemoveAt(pending, drop) + [item];
        return;
      }
      if Protected(item) {
        pending := pending + [item];
        return;
      }
      drop := IndexWhere(pending, IsFree);
      if drop >= 0 {
        pending := RemoveAt(pending, drop) + [item];
        return;
      }
      pending := pending + [item];
    }

    /** enqueuePush. */
    method EnqueuePush(item: Item)
      modifies this
      ensures pending == Enqueue(old(pending), item)
    {
      if item.kind == Unchanged {
        var same := IndexWhere(pending, MergesInto(item));
        if same >= 0 {
          pending := pending[same := item];
          return;
        }
      }
      if |pending| >= DEPTH {
        if item.kind == Unchanged {
          var idx := IndexWhere(pending, IsLow);
          if idx >= 0 { pending := pending[idx := item]; }
          return;
        }
        Evict();
        if |pending| >= DEPTH {
          MakeRoom(item);
          return;
        }
      }
      pending := pending + [item];
    }

    /** takePushQueue. */
    method TakePushQueue() returns (batch: seq<Item>)
      modifies this
      ensures pending == [] && batch == ByPriority(old(pending))
    {
      if |pending| == 0 { return []; }
      var out := pending;
      pending := [];
      batch := SortPushByPriority(out);
    }

    /** requeuePushAll when nothing interleaves: the rest of the batch, then what arrived. */
    method RequeuePushAll(items: seq<Item>)
      modifies this
      ensures pending == if items == [] then old(pending) else EnqueueAll([], items + old(pending))
    {
      if |items| == 0 { return; }
      hide Enqueue;
      var combined := items + pending;
      pending := [];
      for i := 0 to |combined|
        invariant pending == EnqueueAll([], combined[..i])
      {
        assert combined[..i + 1][..i] == combined[..i];
        EnqueuePush(combined[i]);
      }
      assert combined[..|combined|] == combined;
    }
  }

  /** flushPushQueue, nothing arriving meanwhile: try each item until the conversation is
      seen busy, then put the rest back.  `busy` says what each check finds. */
  method FlushPushQueue(q: Queue, busy: nat -> bool) returns (tried: seq<Item>)
    modifies q
    ensures tried <= ByPriority(old(q.pending))
    ensures forall i :: 0 <= i < |tried| ==> !busy(i)
    ensures |tried| < |ByPriority(old(q.pending))| ==> busy(|tried|)
    ensures q.pending == EnqueueAll([], ByPriority(old(q.pending))[|tried|..])
  {
    hide ByPriority, Enqueue;
    var items := q.TakePushQueue();
    tried := [];
    for i := 0 to |items|
      invariant tried == items[..i] && q.pending == [] && forall j :: 0 <= j < i ==> !busy(j)
    {
      if busy(i) {
        assert items[i..] + [] == items[i..];
        q.RequeuePushAll(items[i..]);
        return;
      }
      tried := tried + [items[i]];
    }
  }

  function EnqueueAll(items: seq<Item>, more: seq<Item>): seq<Item> {
    if more == [] then items else Enqueue(EnqueueAll(items, more[..|more| - 1]), more[|more| - 1])
  }
}
