/** What an enqueue does to every item that waits, notification or not. */
module PushLaws {
  import opened Lists
  import opened PushQueue
  import opened Text

  // --- Oldest first ----------------------------------------------------------

  /** The items without the `n` oldest unchanged ones. */
  function DropOldest(items: seq<Item>, n: nat): seq<Item> {
    if items == [] then []
    else if n > 0 && items[0].kind == Unchanged then DropOldest(items[1..], n - 1)
    else [items[0]] + DropOldest(items[1..], n)
  }

  function HowManyUnchanged(items: seq<Item>): nat {
    if items == [] then 0 else (if items[0].kind == Unchanged then 1 else 0) + HowManyUnchanged(items[1..])
  }

  /** How many must go for one more to fit. */
  function Excess(items: seq<Item>): nat {
    if |items| < DEPTH then 0 else |items| - DEPTH + 1
  }

  /** Dropping the oldest of all is dropping the first unchanged item, and so on. */
  lemma {:induction false} DropFirst(items: seq<Item>, i: nat, n: nat)
    requires i < |items| && items[i].kind == Unchanged && n > 0
    requires forall j :: 0 <= j < i ==> items[j].kind != Unchanged
    ensures DropOldest(items, n) == DropOldest(RemoveAt(items, i), n - 1)
    ensures HowManyUnchanged(RemoveAt(items, i)) == HowManyUnchanged(items) - 1
  {
    if i > 0 {
      DropFirst(items[1..], i - 1, n);
      assert RemoveAt(items, i)[1..] == RemoveAt(items[1..], i - 1);
    } else {
      assert RemoveAt(items, 0) == items[1..];
    }
  }

  lemma {:induction false} NoneToDrop(items: seq<Item>, n: nat)
    requires n == 0 || forall j :: 0 <= j < |items| ==> items[j].kind != Unchanged
    ensures DropOldest(items, n) == items
    ensures n > 0 ==> HowManyUnchanged(items) == 0
  {
    if items != [] { NoneToDrop(items[1..], n); }
  }

  lemma EvictStep(items: seq<Item>)
    ensures var i := FirstIndex(items, IsLow);
            EvictUnchanged(items) == if |items| < DEPTH || i == |items| then items else EvictUnchanged(RemoveAt(items, i))
  {
  }

  /** Eviction drops the oldest unchanged items, and no more than it takes. */
  lemma {:induction false} EvictsOldest(items: seq<Item>)
    ensures EvictUnchanged(items) == DropOldest(items, Least(HowManyUnchanged(items), Excess(items)))
    decreases |items|
  {
    EvictStep(items);
    hide DropOldest, HowManyUnchanged, EvictUnchanged;
    var i := FirstIndex(items, IsLow);
    if |items| < DEPTH {
      NoneToDrop(items, 0);
    } else if i == |items| {
      NoneToDrop(items, 1);
      NoneToDrop(items, 0);
    } else {
      EvictsOldest(RemoveAt(items, i));
      CountAtLeast(items, i);
      DropFirst(items, i, Least(HowManyUnchanged(items), Excess(items)));
    }
  }

  lemma {:induction false} CountAtLeast(items: seq<Item>, i: nat)
    requires i < |items| && items[i].kind == Unchanged
    ensures HowManyUnchanged(items) >= 1
  {
    if i > 0 { CountAtLeast(items[1..], i - 1); }
  }

  function Least(a: nat, b: nat): nat {
    if a < b then a else b
  }

  /** With all unchanged items gone the others are left, in order. */
  lemma {:induction false} DropAll(items: seq<Item>)
    ensures DropOldest(items, HowManyUnchanged(items)) == Filter(items, IsHigh)
  {
    if items != [] { DropAll(items[1..]); }
  }

  lemma {:induction false} DropLength(items: seq<Item>, n: nat)
    requires n <= HowManyUnchanged(items)
    ensures |DropOldest(items, n)| == |items| - n
  {
    if items != [] { DropLength(items[1..], if n > 0 && items[0].kind == Unchanged then n - 1 else n); }
  }

  /** Nothing changed or failed goes, ... */
  lemma {:induction false} HighStay(items: seq<Item>, n: nat)
    ensures Filter(DropOldest(items, n), IsHigh) == Filter(items, IsHigh)
  {
    if items != [] {
      var dropped := n > 0 && items[0].kind == Unchanged;
      var rest := DropOldest(items[1..], if dropped then n - 1 else n);
      HighStay(items[1..], if dropped then n - 1 else n);
      if !dropped { assert ([items[0]] + rest)[1..] == rest; }
    }
  }

  /** ... and of the unchanged items the oldest go. */
  lemma {:induction false} OldestGo(items: seq<Item>, n: nat)
    requires n <= HowManyUnchanged(items)
    ensures |Filter(items, IsLow)| == HowManyUnchanged(items)
    ensures Filter(DropOldest(items, n), IsLow) == Filter(items, IsLow)[n..]
  {
    hide Filter;
    if items != [] {
      FilterHead(items, IsLow);
      var kept := DropOldest(items, n);
      if n > 0 && items[0].kind == Unchanged {
        OldestGo(items[1..], n - 1);
      } else {
        OldestGo(items[1..], n);
        FilterHead(kept, IsLow);
        assert kept[1..] == DropOldest(items[1..], n);
      }
    } else {
      FilterNone();
    }
  }

  // --- What an enqueue does ------------------------------------------------------

  /** An unchanged item of the same category, spaces aside. */
  function SameUnchanged(item: Item): Item -> bool {
    (p: Item) => p.kind == Unchanged && Trim(p.category) == Trim(item.category)
  }

  /** A changed or failed item of the same category, which is not that of run notifications. */
  function SameHigh(item: Item): Item -> bool {
    (p: Item) => p.kind != Unchanged && Trim(p.category) == Trim(item.category) && Trim(item.category) != "run_notify"
  }

  function AnyUnchanged(): Item -> bool {
    (p: Item) => p.kind == Unchanged
  }

  /** `i` is the first item that `ok` holds of. */
  ghost predicate First(items: seq<Item>, ok: Item -> bool, i: nat) {
    i < |items| && ok(items[i]) && forall j :: 0 <= j < i ==> !ok(items[j])
  }

  ghost predicate NoneIs(items: seq<Item>, ok: Item -> bool) {
    forall p :: p in items ==> !ok(p)
  }

  /** Below the depth nothing goes: the item comes last, unless it is unchanged and there is
      an unchanged one of its category, the first of which it overwrites in place. */
  lemma BelowDepth(items: seq<Item>, item: Item)
    requires |items| < 8
    ensures item.kind != Unchanged || NoneIs(items, SameUnchanged(item)) ==> Enqueue(items, item) == items + [item]
    ensures item.kind == Unchanged ==>
              forall i: nat :: First(items, SameUnchanged(item), i) ==> Enqueue(items, item) == items[i := item]
  {
    IsTheFirst(items, MergesInto(item));
  }

  lemma IsTheFirst(items: seq<Item>, ok: Item -> bool)
    ensures forall i: nat :: First(items, ok, i) ==> FirstIndex(items, ok) == i
    ensures NoneIs(items, ok) <==> FirstIndex(items, ok) == |items|
  {
    if FirstIndex(items, ok) < |items| { assert items[FirstIndex(items, ok)] in items; }
  }

  /** At the depth an unchanged item overwrites the first of its category, else the oldest
      unchanged one, else it is turned away; it never costs another item its place. */
  lemma UnchangedAtDepth(items: seq<Item>, item: Item)
    requires |items| >= 8 && item.kind == Unchanged
    ensures forall i: nat :: First(items, SameUnchanged(item), i) ==> Enqueue(items, item) == items[i := item]
    ensures NoneIs(items, SameUnchanged(item)) ==>
              forall i: nat :: First(items, AnyUnchanged(), i) ==> Enqueue(items, item) == items[i := item]
    ensures NoneIs(items, AnyUnchanged()) ==> Enqueue(items, item) == items
  {
    IsTheFirst(items, MergesInto(item));
    IsTheFirst(items, IsLow);
  }

  /** At the depth a changed or failed item pushes out the oldest unchanged ones, exactly as
      many as it takes, and comes last. */
  lemma HighPushesOutUnchanged(items: seq<Item>, item: Item)
    requires |items| >= DEPTH && item.kind != Unchanged && HowManyUnchanged(items) >= Excess(items)
    ensures Enqueue(items, item) == DropOldest(items, Excess(items)) + [item]
    ensures |Enqueue(items, item)| == 8
    ensures Filter(DropOldest(items, Excess(items)), IsHigh) == Filter(items, IsHigh)
    ensures |Filter(items, IsLow)| == HowManyUnchanged(items)
    ensures Filter(DropOldest(items, Excess(items)), IsLow) == Filter(items, IsLow)[Excess(items)..]
  {
    EvictsOldest(items);
    DropLength(items, Excess(items));
    HighStay(items, Excess(items));
    OldestGo(items, Excess(items));
  }

  /** Whether `item` may push out `p`: never a notification, and a notification pushes out
      nothing that failed. */
  predicate MayGo(p: Item, item: Item) {
    p.kind != Unchanged && Trim(p.category) != "run_notify" && (p.kind == Changed || Trim(item.category) != "run_notify")
  }

  /** What goes first: changed before failed, then the older one. */
  predicate GoesFirst(items: seq<Item>, i: nat, j: nat)
    requires i < |items| && j < |items|
  {
    if items[i].kind == Changed then items[j].kind == Changed ==> i < j
    else items[j].kind != Changed && i < j
  }

  ghost predicate Goes(items: seq<Item>, item: Item, i: nat) {
    && i < |items| && MayGo(items[i], item)
    && forall j :: 0 <= j < |items| && j != i && MayGo(items[j], item) ==> GoesFirst(items, i, j)
  }

  /** Where even that does not make room all unchanged items go.  Of the others the first that
      the item coalesces with is overwritten in place; else one goes, a changed one before
      a failed one and the oldest of its kind, if any may; and the item comes last. */
  lemma HighAgainstHigh(items: seq<Item>, item: Item)
    requires |items| >= DEPTH && item.kind != Unchanged && HowManyUnchanged(items) < Excess(items)
    ensures var left := Filter(items, IsHigh);
            && (forall i: nat :: First(left, SameHigh(item), i) ==> Enqueue(items, item) == left[i := item])
            && (NoneIs(left, SameHigh(item)) ==>
                  && (forall i: nat :: Goes(left, item, i) ==> Enqueue(items, item) == RemoveAt(left, i) + [item])
                  && ((forall p :: p in left ==> !MayGo(p, item)) ==> Enqueue(items, item) == left + [item]))
  {
    var left := Filter(items, IsHigh);
    EvictsOldest(items);
    DropAll(items);
    DropLength(items, HowManyUnchanged(items));
    assert EvictUnchanged(items) == left && |left| >= DEPTH;
    CrowdGoes(left, item);
  }

  lemma CrowdGoes(left: seq<Item>, item: Item)
    requires forall p :: p in left ==> p.kind != Unchanged
    ensures forall i: nat :: First(left, SameHigh(item), i) ==> Crowd(left, item) == left[i := item]
    ensures NoneIs(left, SameHigh(item)) ==>
              && (forall i: nat :: Goes(left, item, i) ==> Crowd(left, item) == RemoveAt(left, i) + [item])
              && ((forall p :: p in left ==> !MayGo(p, item)) ==> Crowd(left, item) == left + [item])
  {
    IsTheFirst(left, Coalesces(item));
    forall i: nat | Goes(left, item, i) && NoneIs(left, SameHigh(item)) ensures Crowd(left, item) == RemoveAt(left, i) + [item] {
      GoesIsFirst(left, item, i);
    }
    if forall p :: p in left ==> !MayGo(p, item) {
      NobodyGoes(left, item);
    }
  }

  lemma GoesIsFirst(left: seq<Item>, item: Item, i: nat)
    requires Goes(left, item, i) && forall p :: p in left ==> p.kind != Unchanged
    ensures if FirstIndex(left, IsDroppable) < |left| then FirstIndex(left, IsDroppable) == i
            else !Protected(item) && FirstIndex(left, IsFree) == i
  {
    var changed, free := FirstIndex(left, IsDroppable), FirstIndex(left, IsFree);
    assert left[i] in left;
    if changed < |left| {
      assert MayGo(left[changed], item);
    } else {
      assert !IsDroppable(left[i]);
      assert left[free] in left && MayGo(left[free], item);
    }
  }

  lemma NobodyGoes(left: seq<Item>, item: Item)
    requires forall p :: p in left ==> p.kind != Unchanged && !MayGo(p, item)
    ensures FirstIndex(left, IsDroppable) == |left|
    ensures !Protected(item) ==> FirstIndex(left, IsFree) == |left|
  {
    IsTheFirst(left, IsDroppable);
    IsTheFirst(left, IsFree);
  }
}
