/** Everything outside one consumer: broker client, object store, rewriter, publisher,
    clock and run context. Each method is one call; its answer is arbitrary, subject
    to the context: nothing is reported as cancelled before cancellation. The calls
    are recorded in order. */
module Worlds {
  import opened Results
  import opened Protocol

  datatype Arrival = Got(d: Delivery) | Ended | Stopped

  lemma SeenCause(cfg: Config, was: Option<State>, e: Event)
    ensures var now := Then(cfg, was, e);
            now.Some? && now.value.seen && !CausedByCancel(e) ==> was.Some? && was.value.seen
  {
    if was.Some? && Next(cfg, was.value, e).Some? {
      NextSessionStep(cfg, was.value, e);
    }
  }

  class World {
    const cfg: Config
    ghost var trace: Trace

    /** Where the protocol stands after the trace, if it accepts it. */
    ghost var now: Option<State>

    /** Calls still to be made before the context is cancelled. Only Cancelled and the
        calls that wait on the context let the process see anything of it. */
    var left: nat

    /** Deliveries that the local buffer can still hand to a drain. */
    var buffered: nat

    constructor (cfg: Config, left: nat, buffered: nat)
      ensures this.cfg == cfg && trace == [] && now == Some(START) && this.left == left && this.buffered == buffered
      ensures Sound() && At(Head)
    {
      this.cfg, this.left, this.buffered := cfg, left, buffered;
      trace, now := [], Some(START);
    }

    /** now is where the trace leads. */
    ghost predicate Tied()
      reads this
    {
      forall tr: Trace :: tr == trace ==> Run(cfg, tr) == now
    }

    /** Cancellation is seen only once it has happened. */
    ghost predicate Sound()
      reads this
    {
      Tied() && (now.Some? && now.value.seen ==> left == 0)
    }

    ghost predicate At(pc: Pc)
      reads this
    {
      now.Some? && now.value.pc == pc
    }

    /** Exactly one event happened since the given moment. */
    ghost predicate Did(e: Event, before: Trace, was: Option<State>, leftBefore: nat)
      reads this
    {
      && trace == before + [e]
      && now == Then(cfg, was, e)
      && left == (if leftBefore == 0 then 0 else leftBefore - 1)
      && Sound()
    }

    ghost method Emit(e: Event)
      requires Sound()
      modifies this`trace, this`now
      ensures Tied() && trace == old(trace) + [e]
      ensures now == Then(cfg, old(now), e)
      ensures now.Some? && now.value.seen && !CausedByCancel(e) ==> old(left) == 0
    {
      RunExtend(cfg, trace, e);
      SeenCause(cfg, now, e);
      assert Run(cfg, trace) == now;
      trace, now := trace + [e], Then(cfg, now, e);
    }

    method Tick()
      modifies this`left
      ensures left == (if old(left) == 0 then 0 else old(left) - 1)
    {
      left := if left == 0 then 0 else left - 1;
    }

    /** ctx.Err() != nil */
    method Cancelled() returns (c: bool)
      requires Sound()
      modifies this`trace, this`now, this`left
      ensures c == (old(left) == 0)
      ensures Did(Check(c), old(trace), old(now), old(left))
    {
      c := left == 0;
      Emit(Check(c));
      Tick();
    }

    method Dial() returns (ok: bool)
      requires Sound()
      modifies this`trace, this`now, this`left
      ensures Did(Event.Dial(ok), old(trace), old(now), old(left))
    {
      ok := *;
      Emit(Event.Dial(ok));
      Tick();
    }

    method OpenChannel() returns (ok: bool)
      requires Sound()
      modifies this`trace, this`now, this`left
      ensures Did(Event.OpenChannel(ok), old(trace), old(now), old(left))
    {
      ok := *;
      Emit(Event.OpenChannel(ok));
      Tick();
    }

    method Declare(step: Setup) returns (ok: bool)
      requires Sound()
      modifies this`trace, this`now, this`left
      ensures Did(Event.Declare(step, ok), old(trace), old(now), old(left))
    {
      ok := *;
      Emit(Event.Declare(step, ok));
      Tick();
    }

    method CloseChannel()
      requires Sound()
      modifies this`trace, this`now, this`left
      ensures Did(Event.CloseChannel, old(trace), old(now), old(left))
    {
      Emit(Event.CloseChannel);
      Tick();
    }

    method CloseConn()
      requires Sound()
      modifies this`trace, this`now, this`left
      ensures Did(Event.CloseConn, old(trace), old(now), old(left))
    {
      Emit(Event.CloseConn);
      Tick();
    }

    /** sleepContext: the timer and the context race, so a cancelled sleep may still end normally. */
    method Sleep(delay: int) returns (interrupted: bool)
      requires Sound()
      modifies this`trace, this`now, this`left
      ensures Did(Event.Sleep(delay, interrupted), old(trace), old(now), old(left))
    {
      interrupted := *;
      if left > 0 {
        interrupted := false;
      }
      Emit(Event.Sleep(delay, interrupted));
      Tick();
    }

    function ArrivalEvent(a: Arrival): Event {
      match a
      case Got(d) => Receive(d)
      case Ended => StreamEnd
      case Stopped => Interrupted
    }

    /** The select over the delivery stream and the context. */
    method Await() returns (a: Arrival)
      requires Sound()
      modifies this`trace, this`now, this`left
      ensures Did(ArrivalEvent(a), old(trace), old(now), old(left))
    {
      a := Ended;
      a := *;
      if a.Stopped? && left > 0 {
        a := Ended;
      }
      Emit(ArrivalEvent(a));
      Tick();
    }

    function DrainEvent(d: Option<Delivery>): Event {
      match d
      case Some(delivery) => DrainOne(delivery)
      case None => DrainStop
    }

    /** The non-blocking select of a drain; nothing when the buffer is empty or closed. */
    method TryReceive() returns (d: Option<Delivery>)
      requires Sound()
      modifies this
      ensures Did(DrainEvent(d), old(trace), old(now), old(left))
      ensures d.Some? ==> buffered < old(buffered)
      ensures d.None? ==> buffered == old(buffered)
    {
      d := *;
      if buffered == 0 {
        d := None;
      } else if d.Some? {
        buffered := buffered - 1;
      }
      Emit(DrainEvent(d));
      Tick();
    }

    method CancelConsumer()
      requires Sound()
      modifies this`trace, this`now, this`left
      ensures Did(Event.CancelConsumer, old(trace), old(now), old(left))
    {
      Emit(Event.CancelConsumer);
      Tick();
    }

    method Decode(d: Delivery) returns (ok: bool)
      requires Sound()
      modifies this`trace, this`now, this`left
      ensures Did(Event.Decode(ok), old(trace), old(now), old(left))
    {
      ok := *;
      Emit(Event.Decode(ok));
      Tick();
    }

    method ReadSummary(d: Delivery) returns (r: ReadResult)
      requires Sound()
      modifies this`trace, this`now, this`left
      ensures Did(Read(r), old(trace), old(now), old(left))
    {
      r := NotFound;
      r := *;
      if left > 0 && r.ReadError? {
        r := ReadError(false);
      }
      Emit(Read(r));
      Tick();
    }

    method RewriteSummary(text: string) returns (r: RewriteResult)
      requires Sound()
      modifies this`trace, this`now, this`left
      ensures Did(Rewrite(text, r), old(trace), old(now), old(left))
    {
      r := Report("");
      r := *;
      if left > 0 && r.RewriteError? {
        r := RewriteError(false);
      }
      Emit(Rewrite(text, r));
      Tick();
    }

    method PublishText(text: string) returns (r: PublishResult)
      requires Sound()
      modifies this`trace, this`now, this`left
      ensures Did(Publish(text, r), old(trace), old(now), old(left))
    {
      r := PublishResult.Accepted;
      r := *;
      if left > 0 && r.Rejected? {
        r := Rejected(false);
      }
      Emit(Publish(text, r));
      Tick();
    }

    method Settle(kind: Kind, tag: nat) returns (ok: bool)
      requires Sound()
      modifies this`trace, this`now, this`left
      ensures Did(Event.Settle(kind, tag, ok), old(trace), old(now), old(left))
    {
      ok := *;
      Emit(Event.Settle(kind, tag, ok));
      Tick();
    }
  }
}
