/** The per-run execution slot that lets exactly one driver advance a run.

    `execRuns` says whether a run has a live driver and `execGen` numbers the
    claims; a driver proves ownership by showing the number it was given.  The
    number is a uint64, so it wraps. */
module ExecSlot {

  /** The number of distinct uint64 generations. */
  const WRAP: nat := 0x1_0000_0000_0000_0000

  type Gen = g: nat | g < WRAP

  datatype Option<+T> = None | Some(value: T)

  /** What the two maps say about one run; an absent entry reads as (false, 0). */
  datatype Slot = Slot(held: bool, gen: Gen)

  function Bump(g: Gen): Gen {
    (g + 1) % WRAP
  }

  function Begin(s: Slot): (Slot, Option<Gen>) {
    if s.held then (s, None) else (Slot(true, Bump(s.gen)), Some(Bump(s.gen)))
  }

  function End(s: Slot, gen: Gen): Slot {
    if s.gen == gen then s.(held := false) else s
  }

  function ForceEnd(s: Slot): Slot {
    if s.held then Slot(false, Bump(s.gen)) else s
  }

  predicate IsOwner(s: Slot, gen: Gen) {
    s.held && s.gen == gen
  }

  /** The two maps of the engine, updated in place by the four operations. */
  class ExecTable {
    var execRuns: map<string, bool>
    var execGen: map<string, Gen>

    constructor ()
      ensures forall r :: SlotOf(r) == Slot(false, 0)
    {
      execRuns, execGen := map[], map[];
    }

    function SlotOf(r: string): Slot
      reads this
    {
      Slot(r in execRuns && execRuns[r], if r in execGen then execGen[r] else 0)
    }

    method BeginExecute(r: string) returns (gen: Gen, ok: bool)
      modifies this
      ensures SlotOf(r) == Begin(old(SlotOf(r))).0
      ensures ok == !old(SlotOf(r)).held
      ensures ok ==> Begin(old(SlotOf(r))).1 == Some(gen)
      ensures forall q :: q != r ==> SlotOf(q) == old(SlotOf(q))
    {
      if r in execRuns && execRuns[r] {
        return 0, false;
      }
      var g := if r in execGen then execGen[r] else 0;
      execGen := execGen[r := Bump(g)];
      execRuns := execRuns[r := true];
      return execGen[r], true;
    }

    method EndExecute(r: string, gen: Gen)
      modifies this
      ensures SlotOf(r) == End(old(SlotOf(r)), gen)
      ensures forall q :: q != r ==> SlotOf(q) == old(SlotOf(q))
    {
      if (if r in execGen then execGen[r] else 0) == gen {
        execRuns := execRuns - {r};
      }
    }

    method ForceEndExecute(r: string)
      modifies this
      ensures SlotOf(r) == ForceEnd(old(SlotOf(r)))
      ensures forall q :: q != r ==> SlotOf(q) == old(SlotOf(q))
    {
      if r in execRuns && execRuns[r] {
        var g := if r in execGen then execGen[r] else 0;
        execGen := execGen[r := Bump(g)];
        execRuns := execRuns - {r};
      }
    }

    method IsExecOwner(r: string, gen: Gen) returns (owner: bool)
      ensures owner == IsOwner(SlotOf(r), gen)
    {
      owner := r in execRuns && execRuns[r] && (if r in execGen then execGen[r] else 0) == gen;
    }
  }

  // ---------------------------------------------------------------------
  // Every interleaving of begin, end and force-end on one run
  // ---------------------------------------------------------------------

  /** A history: the slot, how often the generation was bumped, and the tickets
      (bump numbers) whose drivers have not called End yet. */
  datatype History = History(slot: Slot, bumps: nat, live: set<nat>)

  datatype Event = BeginEv | EndEv(ticket: nat) | ForceEv

  const Fresh := History(Slot(false, 0), 0, {})

  predicate Enabled(h: History, e: Event) {
    e.EndEv? ==> e.ticket in h.live
  }

  function Step(h: History, e: Event): History
    requires Enabled(h, e)
  {
    match e
    case BeginEv =>
      if h.slot.held then h
      else History(Begin(h.slot).0, h.bumps + 1, h.live + {h.bumps + 1})
    case EndEv(t) => History(End(h.slot, t % WRAP), h.bumps, h.live - {t})
    case ForceEv => History(ForceEnd(h.slot), if h.slot.held then h.bumps + 1 else h.bumps, h.live)
  }

  ghost predicate Playable(h: History, events: seq<Event>)
    decreases |events|
  {
    events == [] || (Enabled(h, events[0]) && Playable(Step(h, events[0]), events[1..]))
  }

  ghost function Play(h: History, events: seq<Event>): History
    requires Playable(h, events)
    decreases |events|
  {
    if events == [] then h else Play(Step(h, events[0]), events[1..])
  }

  /** The slot shows the bump count, every live ticket was handed out, and a held
      slot belongs to the live driver that drew the newest ticket. */
  ghost predicate Good(h: History) {
    && h.slot.gen == h.bumps % WRAP
    && (forall t :: t in h.live ==> 1 <= t <= h.bumps)
    && (h.slot.held ==> h.bumps in h.live)
  }

  lemma {:induction false} GoodAlways(h: History, events: seq<Event>)
    requires Good(h) && Playable(h, events)
    ensures Good(Play(h, events))
    ensures h.bumps <= Play(h, events).bumps <= h.bumps + |events|
    decreases |events|
  {
    if events != [] {
      GoodAlways(Step(h, events[0]), events[1..]);
    }
  }

  /** Two tickets carry the same generation exactly when they are a multiple of
      2^64 bumps apart. */
  lemma SameGeneration(a: nat, b: nat)
    requires b <= a
    ensures a % WRAP == b % WRAP <==> (a - b) % WRAP == 0
  {
  }

  /** A driver that was force-cleared and ends late leaves a newer driver's claim
      alone, and fails the ownership test, exactly when its ticket is not a
      multiple of 2^64 bumps behind. */
  lemma LateEndIsHarmless(events: seq<Event>, t: nat)
    requires Playable(Fresh, events)
    requires var h := Play(Fresh, events); h.slot.held && t in h.live && t != h.bumps
    ensures var h := Play(Fresh, events);
            && Enabled(h, EndEv(t))
            && (Step(h, EndEv(t)).slot == h.slot <==> (h.bumps - t) % WRAP != 0)
            && (IsOwner(h.slot, t % WRAP) <==> (h.bumps - t) % WRAP == 0)
  {
    var h := Play(Fresh, events);
    GoodAlways(Fresh, events);
    SameGeneration(h.bumps, t);
  }

  /** In every history of fewer than 2^64 + 1 events the only driver that passes
      the ownership test is the one holding the newest ticket. */
  lemma AtMostOneOwner(events: seq<Event>, t: nat)
    requires |events| <= WRAP && Playable(Fresh, events)
    requires t in Play(Fresh, events).live
    ensures var h := Play(Fresh, events);
            IsOwner(h.slot, t % WRAP) <==> h.slot.held && t == h.bumps
  {
    var h := Play(Fresh, events);
    GoodAlways(Fresh, events);
    SameGeneration(h.bumps, t);
    assert h.bumps - t < WRAP;
  }

  /** A new claim is numbered above every generation handed out before it exactly
      as long as the counter has not wrapped. */
  lemma GenerationsIncrease(events: seq<Event>)
    requires Playable(Fresh, events) && !Play(Fresh, events).slot.held
    ensures var h := Play(Fresh, events);
            && Begin(h.slot).1.Some?
            && ((forall k {:trigger k % WRAP} :: 1 <= k <= h.bumps ==> k % WRAP < Begin(h.slot).1.value) <==> h.bumps + 1 < WRAP)
  {
    var h := Play(Fresh, events);
    GoodAlways(Fresh, events);
    ModStep(h.bumps);
    if h.bumps + 1 >= WRAP {
      var k := WRAP - 1;
      assert k % WRAP == WRAP - 1;
    }
  }

  lemma ModStep(n: nat)
    ensures Bump(n % WRAP) == (n + 1) % WRAP
  {
  }

  /** `k` times: claim the slot, then have it force-cleared. */
  ghost function Churn(k: nat): seq<Event> {
    if k == 0 then [] else [BeginEv, ForceEv] + Churn(k - 1)
  }

  lemma {:induction false} ChurnBumps(k: nat, h: History)
    requires Good(h) && !h.slot.held
    ensures Playable(h, Churn(k))
    ensures var g := Play(h, Churn(k));
            Good(g) && !g.slot.held && g.bumps == h.bumps + 2 * k && h.live <= g.live
  {
    if k > 0 {
      var h1 := Step(h, BeginEv);
      var h2 := Step(h1, ForceEv);
      ModStep(h.bumps);
      ModStep(h1.bumps);
      assert Good(h2);
      ChurnBumps(k - 1, h2);
      var es := Churn(k);
      assert es[1..] == [ForceEv] + Churn(k - 1);
      assert es[1..][1..] == Churn(k - 1);
    }
  }

  lemma {:induction false} PlayAppend(h: History, events: seq<Event>, e: Event)
    requires Playable(h, events) && Enabled(Play(h, events), e)
    ensures Playable(h, events + [e]) && Play(h, events + [e]) == Step(Play(h, events), e)
    decreases |events|
  {
    if events == [] {
      assert events + [e] == [e];
      assert [e][1..] == [];
    } else {
      PlayAppend(Step(h, events[0]), events[1..], e);
      assert (events + [e])[1..] == events[1..] + [e];
    }
  }

  /** The condition is not idle: some history reaches the wrap, and there a late
      end takes the slot away from a newer live driver. */
  lemma WrapDropsANewerClaim()
    ensures exists events, t ::
              && Playable(Fresh, events) && t in Play(Fresh, events).live
              && t != Play(Fresh, events).bumps && Play(Fresh, events).slot.held
              && !Step(Play(Fresh, events), EndEv(t)).slot.held
  {
    var first := Step(Step(Fresh, BeginEv), ForceEv);
    ChurnBumps(1, Fresh);
    assert Churn(1) == [BeginEv, ForceEv];
    assert Play(Fresh, Churn(1)) == first by {
      assert Churn(1)[1..] == [ForceEv];
      assert [ForceEv][1..] == [];
    }
    var half := WRAP / 2;
    assert Churn(half) == [BeginEv, ForceEv] + Churn(half - 1);
    assert Churn(half)[1..][1..] == Churn(half - 1);
    ChurnBumps(half, Fresh);
    ChurnBumps(half - 1, first);
    assert Play(Fresh, Churn(half)) == Play(first, Churn(half - 1));
    PlayAppend(Fresh, Churn(half), BeginEv);
    var events := Churn(half) + [BeginEv];
    var h := Play(Fresh, events);
    GoodAlways(Fresh, events);
    assert 1 in first.live;
    assert h.bumps == WRAP + 1;
    LateEndIsHarmless(events, 1);
  }
}
