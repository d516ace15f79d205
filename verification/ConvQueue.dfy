/** One conversation's messages: one turn at a time, in arrival order, with a bounded queue. */
module ConvQueue {
  type Message = string

  const CONV_DEPTH := 16

  /** A goroutine that owns the busy cycle: in a turn, or between two of them. */
  datatype Owner = InTurn(m: Message) | Between

  /** What the sender is told. */
  datatype Reply = Processing | Queued(ahead: nat) | Full

  /** The queue, the goroutines that own a busy cycle, and the history of the
      conversation: messages accepted, turns started, turns finished. */
  datatype Conv = Conv(busy: bool, pending: seq<Message>, owners: seq<Owner>,
                       accepted: seq<Message>, started: seq<Message>, finished: nat)

  const Idle := Conv(false, [], [], [], [], 0)

  // --- Steps -----------------------------------------------------------------------

  /** dispatch up to its unlock; an idle conversation gets an owner that starts the turn. */
  function Dispatch(c: Conv, m: Message): Conv {
    if c.busy then
      if |c.pending| >= CONV_DEPTH then c
      else c.(pending := c.pending + [m], accepted := c.accepted + [m])
    else
      c.(busy := true, owners := c.owners + [InTurn(m)], accepted := c.accepted + [m], started := c.started + [m])
  }

  function Answer(c: Conv, m: Message): Reply {
    if !c.busy then Processing
    else if |c.pending| >= CONV_DEPTH then Full
    else Queued(1 + |c.pending|)
  }

  /** The turn of owner `i` returns. */
  function EndTurn(c: Conv, i: nat): Conv
    requires i < |c.owners| && c.owners[i].InTurn?
  {
    c.(owners := c.owners[i := Between], finished := c.finished + 1)
  }

  /** The critical section of drainConvQueue: give up the cycle or take the next message. */
  function DrainNext(c: Conv, i: nat): Conv
    requires i < |c.owners| && c.owners[i].Between?
  {
    if c.pending == [] then c.(busy := false, owners := c.owners[..i] + c.owners[i + 1..])
    else c.(pending := c.pending[1..], owners := c.owners[i := InTurn(c.pending[0])],
            started := c.started + [c.pending[0]])
  }

  datatype Step = Arrive(m: Message) | End(i: nat) | Next(i: nat)

  predicate CanStep(c: Conv, e: Step) {
    match e
    case Arrive(m) => true
    case End(i) => i < |c.owners| && c.owners[i].InTurn?
    case Next(i) => i < |c.owners| && c.owners[i].Between?
  }

  function DoStep(c: Conv, e: Step): Conv
    requires CanStep(c, e)
  {
    match e
    case Arrive(m) => Dispatch(c, m)
    case End(i) => EndTurn(c, i)
    case Next(i) => DrainNext(c, i)
  }

  ghost predicate Possible(c: Conv, es: seq<Step>)
    decreases |es|
  {
    es == [] || (CanStep(c, es[0]) && Possible(DoStep(c, es[0]), es[1..]))
  }

  function After(c: Conv, es: seq<Step>): Conv
    requires Possible(c, es)
    decreases |es|
  {
    if es == [] then c else After(DoStep(c, es[0]), es[1..])
  }

  // --- What every interleaving keeps ---------------------------------------------

  function TurnsInFlight(owners: seq<Owner>): nat {
    if owners == [] then 0 else (if owners[0].InTurn? then 1 else 0) + TurnsInFlight(owners[1..])
  }

  ghost predicate Inv(c: Conv) {
    && |c.owners| == (if c.busy then 1 else 0)
    && (!c.busy ==> c.pending == [])
    && |c.pending| <= CONV_DEPTH
    && c.started + c.pending == c.accepted
    && |c.started| == c.finished + TurnsInFlight(c.owners)
    && (forall i :: 0 <= i < |c.owners| && c.owners[i].InTurn? ==> c.started != [] && c.owners[i].m == c.started[|c.started| - 1])
  }

  lemma StepKeeps(c: Conv, e: Step)
    requires Inv(c) && CanStep(c, e)
    ensures Inv(DoStep(c, e))
  {
  }

  /** From an idle conversation, however messages and turns interleave: one turn at a time,
      turns in the order messages were accepted, a bounded queue that is empty when idle. */
  lemma {:induction false} FirstComeFirstServed(c: Conv, es: seq<Step>)
    requires Inv(c) && Possible(c, es)
    ensures Inv(After(c, es)) && TurnsInFlight(After(c, es).owners) <= 1
    ensures After(c, es).started <= After(c, es).accepted
    decreases |es|
  {
    if es == [] {
      assert c.owners != [] ==> c.owners[1..] == [];
    } else {
      StepKeeps(c, es[0]);
      FirstComeFirstServed(DoStep(c, es[0]), es[1..]);
    }
  }

  /** The number ahead that a queued sender is told counts every accepted message not yet
      finished exactly when a turn is in flight; between two turns it is one too many. */
  lemma AheadIsExactInATurn(c: Conv, m: Message)
    requires Inv(c) && Answer(c, m).Queued?
    ensures Answer(c, m).ahead == |c.accepted| - c.finished <==> TurnsInFlight(c.owners) == 1
    ensures Answer(c, m).ahead == |c.accepted| - c.finished + 1 <==> TurnsInFlight(c.owners) == 0
  {
  }

  /** A message is refused exactly when sixteen already wait behind the cycle's owner; a
      refused message leaves no trace, and no other message is ever dropped. */
  lemma RefusedExactlyWhenFull(c: Conv, m: Message)
    requires Inv(c)
    ensures Answer(c, m).Full? <==> |c.accepted| == |c.started| + 16
    ensures Answer(c, m).Processing? <==> c.owners == []
    ensures Answer(c, m).Processing? ==> Dispatch(c, m).started == c.started + [m]
    ensures !Answer(c, m).Processing? ==> Dispatch(c, m).started == c.started && Dispatch(c, m).owners == c.owners
    ensures Dispatch(c, m).accepted == if Answer(c, m).Full? then c.accepted else c.accepted + [m]
  {
  }

  /** The window in which the count is off can be reached with two messages. */
  lemma OneTooManyAhead(m: Message, m2: Message)
    ensures Possible(Idle, [Arrive(m), End(0)])
    ensures var c := After(Idle, [Arrive(m), End(0)]);
            Answer(c, m2) == Queued(1) && |c.accepted| - c.finished == 0
  {
    var c := DoStep(Idle, Arrive(m));
    assert c.owners == [InTurn(m)];
    assert [Arrive(m), End(0)][1..] == [End(0)] && [End(0)][1..] == [];
    assert Possible(DoStep(c, End(0)), []);
    assert Possible(c, [End(0)]);
    assert After(c, [End(0)]) == DoStep(c, End(0));
  }

  // --- The queue object ---------------------------------------------------------

  class Queue {
    var busy: bool
    var pending: seq<Message>

    constructor ()
      ensures !busy && pending == []
    {
      busy, pending := false, [];
    }

    /** Whether the queue is the queue of a conversation in state `c`. */
    ghost predicate Shows(c: Conv)
      reads this
    {
      busy == c.busy && pending == c.pending
    }

    /** IsConversationBusy. */
    method IsConversationBusy(ghost c: Conv) returns (b: bool)
      requires Shows(c) && Inv(c)
      ensures b == c.busy == (c.owners != [])
    {
      b := busy || |pending| > 0;
    }

    /** The locked part of dispatch; `start` tells the caller to run the turn itself. */
    method Enter(m: Message, ghost c: Conv) returns (reply: Reply, start: bool)
      requires Shows(c)
      modifies this
      ensures Shows(Dispatch(c, m)) && reply == Answer(c, m) && start == !c.busy
    {
      if busy {
        if |pending| >= CONV_DEPTH { return Full, false; }
        var ahead := 1 + |pending|;
        pending := pending + [m];
        return Queued(ahead), false;
      }
      busy := true;
      return Processing, true;
    }

    /** The locked part of drainConvQueue: the next message, or none and the cycle ends. */
    method TakeNext(ghost c: Conv, ghost i: nat) returns (more: bool, m: Message)
      requires Shows(c) && i < |c.owners| && c.owners[i].Between?
      modifies this
      ensures Shows(DrainNext(c, i)) && more == (c.pending != []) && (more ==> m == c.pending[0])
    {
      if |pending| == 0 {
        busy := false;
        return false, "";
      }
      more, m := true, pending[0];
      pending := pending[1..];
    }

    /** drainConvQueue when no message arrives meanwhile: every waiting message gets its
        turn, in order, and the cycle ends. */
    method Drain() returns (turns: seq<Message>)
      requires busy
      modifies this
      ensures turns == old(pending) && pending == [] && !busy
    {
      turns := [];
      while true
        invariant busy && turns + pending == old(pending)
        decreases |pending|
      {
        ghost var c := Conv(busy, pending, [Between], [], [], 0);
        var more, m := TakeNext(c, 0);
        if !more { return; }
        turns := turns + [m];
      }
    }
  }
}
