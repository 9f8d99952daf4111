/** session, internal/rabbitmq/session.go: one channel and its connection behind a
    mutex and a closed flag. The mutex makes every method one indivisible operation,
    so any number of callers amounts to a sequence of operations. */
module Sessions {
  import opened Results
  import opened Protocol
  import opened Worlds

  datatype SessionError = SessionClosed | ChannelError

  /** One caller's operation; ok is what the broker client would answer. */
  datatype Op = Acknowledge(tag: nat, ok: bool) | Release(tag: nat, ok: bool) | CancelConsumer | CloseAll

  /** The calls that reach the channel and the connection. */
  function Reach(closed: bool, op: Op): Trace {
    if closed then []
    else match op
         case Acknowledge(tag, ok) => [Settle(Ack, tag, ok)]
         case Release(tag, ok) => [Settle(Nack, tag, ok)]
         case CancelConsumer => [Event.CancelConsumer]
         case CloseAll => [CloseChannel, CloseConn]
  }

  function ClosedAfter(closed: bool, op: Op): bool {
    closed || op.CloseAll?
  }

  /** What a settlement returns. */
  function Answer(closed: bool, ok: bool): Option<SessionError> {
    if closed then Some(SessionClosed) else if ok then None else Some(ChannelError)
  }

  class Session {
    const world: World
    var closed: bool

    constructor (world: World)
      ensures this.world == world && !closed
    {
      this.world := world;
      closed := false;
    }

    method AckTag(tag: nat) returns (err: Option<SessionError>, ghost ok: bool)
      requires world.Sound()
      modifies world`trace, world`now, world`left
      ensures err == if closed then Some(SessionClosed) else if ok then None else Some(ChannelError)
      ensures closed ==> world.left == old(world.left)
      ensures world.trace == old(world.trace) + Reach(closed, Acknowledge(tag, ok))
      ensures !closed ==> world.Did(Settle(Ack, tag, ok), old(world.trace), old(world.now), old(world.left))
    {
      if closed {
        ok := true;
        return Some(SessionClosed), ok;
      }
      var sent := world.Settle(Ack, tag);
      ok := sent;
      err := if sent then None else Some(ChannelError);
    }

    method NackTag(tag: nat) returns (err: Option<SessionError>, ghost ok: bool)
      requires world.Sound()
      modifies world`trace, world`now, world`left
      ensures err == if closed then Some(SessionClosed) else if ok then None else Some(ChannelError)
      ensures closed ==> world.left == old(world.left)
      ensures world.trace == old(world.trace) + Reach(closed, Release(tag, ok))
      ensures !closed ==> world.Did(Settle(Nack, tag, ok), old(world.trace), old(world.now), old(world.left))
    {
      if closed {
        ok := true;
        return Some(SessionClosed), ok;
      }
      var sent := world.Settle(Nack, tag);
      ok := sent;
      err := if sent then None else Some(ChannelError);
    }

    method Cancel()
      requires world.Sound()
      modifies world`trace, world`now, world`left
      ensures closed ==> world.left == old(world.left)
      ensures world.trace == old(world.trace) + Reach(closed, Op.CancelConsumer)
      ensures !closed ==>
                world.Did(Event.CancelConsumer, old(world.trace), old(world.now), old(world.left))
    {
      if !closed {
        world.CancelConsumer();
      }
    }

    /** Idempotent: only the first call touches the channel, then the connection. */
    method Close()
      requires world.Sound()
      modifies this, world`trace, world`now, world`left
      ensures closed && world.Sound()
      ensures world.trace == old(world.trace) + Reach(old(closed), CloseAll)
      ensures world.left <= old(world.left)
      ensures world.now == if old(closed) then old(world.now)
                             else Then(world.cfg, Then(world.cfg, old(world.now), CloseChannel), CloseConn)
    {
      if closed {
        return;
      }
      closed := true;
      world.CloseChannel();
      world.CloseConn();
    }
  }

  // --------------------------------------------------------- any number of callers

  function ClosedAt(ops: seq<Op>): bool {
    if ops == [] then false else ClosedAfter(ClosedAt(ops[..|ops| - 1]), ops[|ops| - 1])
  }

  /** Everything a sequence of operations sends to the channel and the connection. */
  function Calls(ops: seq<Op>): Trace {
    if ops == [] then []
    else
      var n := |ops| - 1;
      Calls(ops[..n]) + Reach(ClosedAt(ops[..n]), ops[n])
  }

  /** Position of the first close, or the number of operations. */
  function FirstClose(ops: seq<Op>): (n: nat)
    ensures n <= |ops|
    ensures forall i :: 0 <= i < n ==> !ops[i].CloseAll?
    ensures n < |ops| ==> ops[n].CloseAll?
  {
    if ops == [] then 0
    else if ops[0].CloseAll? then 0
    else
      var rest := FirstClose(ops[1..]);
      assert forall i :: 1 <= i < rest + 1 ==> ops[i] == ops[1..][i - 1];
      rest + 1
  }

  function Single(op: Op): Event {
    match op
    case Acknowledge(tag, ok) => Settle(Ack, tag, ok)
    case Release(tag, ok) => Settle(Nack, tag, ok)
    case CancelConsumer => Event.CancelConsumer
    case CloseAll => CloseChannel
  }

  function Singles(ops: seq<Op>): Trace {
    seq(|ops|, i requires 0 <= i < |ops| => Single(ops[i]))
  }

  lemma {:induction false} ClosedExactlyAfterClose(ops: seq<Op>)
    ensures ClosedAt(ops) <==> FirstClose(ops) < |ops|
  {
    if ops != [] {
      var n := |ops| - 1;
      ClosedExactlyAfterClose(ops[..n]);
      FirstCloseOfPrefix(ops);
    }
  }

  lemma FirstCloseOfPrefix(ops: seq<Op>)
    requires ops != []
    ensures var n := |ops| - 1;
            var first := FirstClose(ops[..n]);
            FirstClose(ops) == if first < n then first else if ops[n].CloseAll? then n else n + 1
  {
    var n := |ops| - 1;
    var first, whole := FirstClose(ops[..n]), FirstClose(ops);
    assert forall i :: 0 <= i < n ==> ops[..n][i] == ops[i];
    assert first < n ==> ops[..n][first] == ops[first];
  }

  lemma SinglesAppend(ops: seq<Op>, op: Op)
    ensures Singles(ops + [op]) == Singles(ops) + [Single(op)]
  {
  }

  /** Nothing is added once a close has happened. */
  lemma WireAfterClose(ops: seq<Op>)
    requires ops != [] && FirstClose(ops[..|ops| - 1]) < |ops| - 1
    ensures Calls(ops) == Calls(ops[..|ops| - 1])
    ensures FirstClose(ops) == FirstClose(ops[..|ops| - 1])
  {
    ClosedExactlyAfterClose(ops[..|ops| - 1]);
    FirstCloseOfPrefix(ops);
  }

  function Adds(op: Op): Trace {
    if op.CloseAll? then [CloseChannel, CloseConn] else [Single(op)]
  }

  lemma ReachOpen(op: Op)
    ensures Reach(false, op) == Adds(op)
  {
  }

  /** Before that, each operation adds its own call, and the first close adds two. */
  lemma WireBeforeClose(ops: seq<Op>)
    requires ops != [] && FirstClose(ops[..|ops| - 1]) == |ops| - 1
    ensures FirstClose(ops) == (if ops[|ops| - 1].CloseAll? then |ops| - 1 else |ops|)
    ensures Calls(ops) == Calls(ops[..|ops| - 1]) + Adds(ops[|ops| - 1])
  {
    var before, last := ops[..|ops| - 1], ops[|ops| - 1];
    FirstCloseOfPrefix(ops);
    assert !ClosedAt(before) by { ClosedExactlyAfterClose(before); }
    ReachOpen(last);
  }

  /** Whatever the callers do, what reaches the wire is one call per operation up to the
      first close, then the channel's close and the connection's, and nothing after. */
  lemma {:induction false} WireShape(ops: seq<Op>)
    ensures var n := FirstClose(ops);
            Calls(ops) == Singles(ops[..n]) + (if n < |ops| then [CloseChannel, CloseConn] else [])
  {
    if ops != [] {
      var n := |ops| - 1;
      var before := ops[..n];
      WireShape(before);
      if FirstClose(before) < n {
        WireAfterClose(ops);
        assert before[..FirstClose(before)] == ops[..FirstClose(before)];
      } else {
        WireBeforeClose(ops);
        SinglesAppend(before, ops[n]);
        assert before[..n] == before && before + [ops[n]] == ops == ops[..n + 1];
      }
    }
  }

  /** A settlement is refused without touching the channel exactly when it comes after a close. */
  lemma {:induction false} LateSettlementRefused(ops: seq<Op>, op: Op)
    requires op.Acknowledge? || op.Release?
    ensures Answer(ClosedAt(ops), op.ok) == Some(SessionClosed)
       <==> exists i :: 0 <= i < |ops| && ops[i].CloseAll?
    ensures (exists i :: 0 <= i < |ops| && ops[i].CloseAll?) <==> Calls(ops + [op]) == Calls(ops)
  {
    ClosedExactlyAfterClose(ops);
    assert (ops + [op])[..|ops|] == ops;
  }
}
