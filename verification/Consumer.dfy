/** The consumer, internal/rabbitmq/consumer.go: the supervisor, one session's consume
    loop, the drain, and the pipeline for one delivery. Every method is shown to make
    only calls that the protocol accepts, from the control point it starts at to the
    one it ends at; the state it leaves is the protocol's. */
module Consumers {
  import opened Results
  import opened Text
  import opened Backoff
  import opened Protocol
  import opened Discipline
  import opened CallShapes
  import opened Worlds
  import opened Sessions

  datatype RunError = RunError

  /** The program's own configuration; the consumer is proved for every one. */
  function ProgramConfig(rewriting: bool): Config {
    Config(rewriting, s => TrimSpace(s), n => BackoffDelay(n))
  }

  /** Sleep i is min(30s, 2^(k-1) s) for the streak k before it. */
  ghost predicate SleepsOnSchedule(tr: Trace, i: nat)
    requires i < |tr|
  {
    tr[i].Sleep? ==>
      StreakOf(tr[..i]).count >= 1 && tr[i].delay == Capped(INITIAL, CAP, StreakOf(tr[..i]).count - 1)
  }

  predicate PublishesTrimmed(tr: Trace, i: nat)
    requires i < |tr|
  {
    tr[i].Publish? ==> tr[i].text != "" && Trimmed(tr[i].text)
  }

  /** What the program's own run leaves behind, with or without a rewriter, whatever the
      outside answers: every dequeued delivery has had one settlement attempt, on its own
      session and in order, acks before nacks; everything opened is closed; every sleep is
      the documented one; and nothing untrimmed or empty was published. */
  lemma ProgramRun(rewriting: bool, tr: Trace)
    requires Accepts(ProgramConfig(rewriting), tr) && Run(ProgramConfig(rewriting), tr).value.pc == Done
    ensures Handles(Attempts(tr)) == Dequeued(tr) && AcksThenNacks(Attempts(tr))
    ensures Books(tr).Some? && Books(tr).value.AllClosed()
    ensures forall i :: 0 <= i < |tr| ==> SleepsOnSchedule(tr, i) && PublishesTrimmed(tr, i)
  {
    CompleteRun(ProgramConfig(rewriting), tr);
    forall i | 0 <= i < |tr|
      ensures SleepsOnSchedule(tr, i) && PublishesTrimmed(tr, i)
    {
      ProgramStep(rewriting, tr, i);
    }
  }

  lemma ProgramStep(rewriting: bool, tr: Trace, i: nat)
    requires Accepts(ProgramConfig(rewriting), tr) && i < |tr|
    ensures SleepsOnSchedule(tr, i) && PublishesTrimmed(tr, i)
  {
    var cfg := ProgramConfig(rewriting);
    if tr[i].Sleep? {
      SleepSchedule(cfg, tr, i);
    }
    if tr[i].Publish? {
      PrefixAccepted(cfg, tr, i + 1);
      assert tr[..i + 1] == tr[..i] + [Publish(tr[i].text, tr[i].publish)];
      var d, _ := PublishedText(cfg, tr[..i], tr[i].text, tr[i].publish);
      TrimmedChoice(rewriting, Work(tr[..i]), d, tr[i].text);
    }
  }

  lemma TrimmedChoice(rewriting: bool, w: Trace, d: Delivery, text: string)
    requires HasText(ProgramConfig(rewriting), w, |w|, d, text)
    ensures Trimmed(text)
  {
    var _, _ := TrimIsSlice(w[3].read.body);
    if rewriting && w[4].rewrite.Report? {
      var _, _ := TrimIsSlice(w[4].rewrite.text);
    }
  }

  class Consumer {
    const world: World

    constructor (world: World)
      ensures this.world == world
    {
      this.world := world;
    }

    /** The supervisor's counters, as the protocol has them. */
    ghost predicate Keeps(failures: nat, delivered: bool)
      reads world
    {
      world.now.Some? && world.now.value.failures == failures && world.now.value.delivered == delivered
    }

    /** The control point and the supervisor's counters. */
    ghost predicate Stands(pc: Pc, failures: nat, delivered: bool)
      reads world
    {
      world.Sound() && world.At(pc) && Keeps(failures, delivered)
    }

    /** settle: one attempt, an ack unless the context is cancelled by now. */
    method Settle(sess: Session, d: Delivery, ghost o: Outcome, ghost failures: nat, ghost delivered: bool)
        returns (ghost steps: Trace, ghost ok: bool)
      requires sess.world == world && !sess.closed
      requires Stands(Settling(d, o), failures, delivered)
      modifies world`trace, world`now, world`left
      ensures world.left <= old(world.left)
      ensures Stands(Loop, failures, delivered)
      ensures world.trace == old(world.trace) + steps
      ensures steps == [Check(old(world.left) == 0), Event.Settle(KindFor(old(world.left) == 0), d.tag, ok)]
    {
      var cancelled := world.Cancelled();
      if cancelled {
        var sent := Requeue(sess, d, o, failures, delivered);
        return [Check(true), Event.Settle(Nack, d.tag, sent)], sent;
      }
      var sent := Acknowledge(sess, d, o, failures, delivered);
      return [Check(false), Event.Settle(Ack, d.tag, sent)], sent;
    }

    method Requeue(sess: Session, d: Delivery, ghost o: Outcome, ghost failures: nat, ghost delivered: bool)
        returns (ghost ok: bool)
      requires sess.world == world && !sess.closed
      requires Stands(Sending(d, Nack, o), failures, delivered)
      modifies world`trace, world`now, world`left
      ensures world.left <= old(world.left)
      ensures Stands(Loop, failures, delivered)
      ensures world.trace == old(world.trace) + [Event.Settle(Nack, d.tag, ok)]
    {
      var _, sent := sess.NackTag(d.tag);
      ok := sent;
    }

    method Acknowledge(sess: Session, d: Delivery, ghost o: Outcome, ghost failures: nat, ghost delivered: bool)
        returns (ghost ok: bool)
      requires sess.world == world && !sess.closed
      requires Stands(Sending(d, Ack, o), failures, delivered)
      modifies world`trace, world`now, world`left
      ensures world.left <= old(world.left)
      ensures Stands(Loop, failures, delivered)
      ensures world.trace == old(world.trace) + [Event.Settle(Ack, d.tag, ok)]
    {
      var _, sent := sess.AckTag(d.tag);
      ok := sent;
    }

    /** The first half of handleDelivery: decode, read and trim. No text means that the
        outcome is already decided. */
    method ReadText(d: Delivery, ghost failures: nat, ghost delivered: bool)
        returns (text: Option<string>, ghost o: Outcome, ghost steps: Trace)
      requires Stands(Decoding(d), failures, delivered)
      modifies world`trace, world`now, world`left
      ensures world.left <= old(world.left)
      ensures world.trace == old(world.trace) + steps && IsWork(steps)
      ensures text.Some? ==>
                Stands(if world.cfg.rewriting then Rewriting(d, text.value) else Publishing(d, text.value),
                       failures, delivered)
      ensures text.None? ==> Stands(Settling(d, o), failures, delivered)
    {
      var decoded := world.Decode(d);
      o, steps := Undecodable, [Event.Decode(decoded)];
      if !decoded {
        return None, o, steps;
      }
      assert Stands(Reading(d), failures, delivered);
      var summary := world.ReadSummary(d);
      steps := [Event.Decode(decoded), Read(summary)];
      if !summary.Found? {
        return None, if summary.NotFound? then Missing else Unreadable(summary.cancelled), steps;
      }
      var trimmed := world.cfg.trim(summary.body);
      o := Empty;
      text := if trimmed == "" then None else Some(trimmed);
    }

    /** The rewriting step: any failure or blank report falls back to the summary. */
    method ChooseText(d: Delivery, text: string, ghost failures: nat, ghost delivered: bool)
        returns (chosen: string, ghost report: RewriteResult)
      requires world.cfg.rewriting && Stands(Rewriting(d, text), failures, delivered)
      modifies world`trace, world`now, world`left
      ensures world.left <= old(world.left)
      ensures world.trace == old(world.trace) + [Rewrite(text, report)]
      ensures Stands(Publishing(d, chosen), failures, delivered)
      ensures report.RewriteError? || world.cfg.trim(report.text) == "" ==> chosen == text
      ensures report.Report? && world.cfg.trim(report.text) != "" ==> chosen == world.cfg.trim(report.text)
    {
      var answer := world.RewriteSummary(text);
      report, chosen := answer, text;
      if answer.Report? {
        var trimmed := world.cfg.trim(answer.text);
        if trimmed != "" {
          chosen := trimmed;
        }
      }
      assert chosen == Chosen(world.cfg, text, report);
    }

    /** The final step of the pipeline: publish, then settle whatever came of it. */
    method PublishAndSettle(sess: Session, d: Delivery, text: string, ghost failures: nat, ghost delivered: bool)
        returns (ghost steps: Trace)
      requires sess.world == world && !sess.closed
      requires Stands(Publishing(d, text), failures, delivered)
      modifies world`trace, world`now, world`left
      ensures world.left <= old(world.left)
      ensures Stands(Loop, failures, delivered)
      ensures world.trace == old(world.trace) + steps && HandledOnce(steps, d.tag)
      ensures steps[0].Publish? && steps[0].text == text
    {
      var result := world.PublishText(text);
      var settlement, _ := Settle(sess, d, if result.Accepted? then Posted else Dropped(result.cancelled),
                                  failures, delivered);
      steps := [Publish(text, result)] + settlement;
    }

    /** The second half: rewrite if configured, publish, settle. */
    method RewriteAndPublish(sess: Session, d: Delivery, text: string, ghost failures: nat, ghost delivered: bool)
        returns (ghost steps: Trace)
      requires sess.world == world && !sess.closed
      requires Stands(if world.cfg.rewriting then Rewriting(d, text) else Publishing(d, text), failures, delivered)
      modifies world`trace, world`now, world`left
      ensures world.left <= old(world.left)
      ensures Stands(Loop, failures, delivered)
      ensures world.trace == old(world.trace) + steps && HandledOnce(steps, d.tag)
    {
      if !world.cfg.rewriting {
        steps := PublishAndSettle(sess, d, text, failures, delivered);
        return;
      }
      ghost var before := world.trace;
      var publishText, report := ChooseText(d, text, failures, delivered);
      var publication := PublishAndSettle(sess, d, publishText, failures, delivered);
      HandledAfter(before, [Rewrite(text, report)], publication, d.tag);
      steps := [Rewrite(text, report)] + publication;
    }

    /** The pipeline for a delivery found alive. */
    method Process(sess: Session, d: Delivery, ghost failures: nat, ghost delivered: bool) returns (ghost steps: Trace)
      requires sess.world == world && !sess.closed
      requires Stands(Decoding(d), failures, delivered)
      modifies world`trace, world`now, world`left
      ensures world.left <= old(world.left)
      ensures Stands(Loop, failures, delivered)
      ensures world.trace == old(world.trace) + steps && HandledOnce(steps, d.tag)
    {
      ghost var before := world.trace;
      var text, o, preparation := ReadText(d, failures, delivered);
      if text.None? {
        var settlement, _ := Settle(sess, d, o, failures, delivered);
        HandledAfter(before, preparation, settlement, d.tag);
        steps := preparation + settlement;
      } else {
        var publication := RewriteAndPublish(sess, d, text.value, failures, delivered);
        HandledAfter(before, preparation, publication, d.tag);
        steps := preparation + publication;
      }
    }

    /** handleDelivery: the whole pipeline for one delivery, ending in exactly one
        settlement attempt, of its own tag. */
    method HandleDelivery(sess: Session, d: Delivery, ghost failures: nat, ghost delivered: bool)
        returns (ghost steps: Trace)
      requires sess.world == world && !sess.closed
      requires Stands(Entry(d), failures, delivered)
      modifies world`trace, world`now, world`left
      ensures world.left <= old(world.left)
      ensures Stands(Loop, failures, delivered)
      ensures world.trace == old(world.trace) + steps && HandledOnce(steps, d.tag)
    {
      ghost var before := world.trace;
      var cancelled := world.Cancelled();
      if cancelled {
        var settlement, _ := Settle(sess, d, Untouched, failures, delivered);
        HandledAfter(before, [Check(true)], settlement, d.tag);
        steps := [Check(true)] + settlement;
      } else {
        assert Stands(Decoding(d), failures, delivered);
        var work := Process(sess, d, failures, delivered);
        HandledAfter(before, [Check(false)], work, d.tag);
        steps := [Check(false)] + work;
      }
    }

    /** One turn of the drain loop. */
    method DrainOnce(sess: Session, ghost failures: nat, ghost delivered: bool)
        returns (d: Option<Delivery>, ghost ok: bool)
      requires sess.world == world && !sess.closed
      requires Stands(Draining, failures, delivered) && world.left == 0
      modifies world
      ensures world.left == 0
      ensures d.None? ==> Stands(AfterConsume, failures, delivered) && world.trace == old(world.trace) + [DrainStop]
      ensures d.Some? ==>
                && Stands(Draining, failures, delivered) && world.buffered < old(world.buffered)
                && world.trace == old(world.trace) + [DrainOne(d.value)] + [Event.Settle(Nack, d.value.tag, ok)]
    {
      ok := true;
      d := world.TryReceive();
      if d.None? {
        return;
      }
      assert Stands(DrainSending(d.value), failures, delivered);
      var _, sent := sess.NackTag(d.value.tag);
      ok := sent;
    }

    /** drainDeliveries: requeues whatever the local buffer still holds, one nack each. */
    method DrainDeliveries(sess: Session, ghost failures: nat, ghost delivered: bool) returns (ghost steps: Trace)
      requires sess.world == world && !sess.closed
      requires Stands(Draining, failures, delivered) && world.left == 0
      modifies world
      ensures Stands(AfterConsume, failures, delivered) && world.left == 0
      ensures world.trace == old(world.trace) + steps + [DrainStop] && NackedEach(steps)
    {
      steps := [];
      while true
        invariant Stands(Draining, failures, delivered) && world.left == 0
        invariant world.trace == old(world.trace) + steps && NackedEach(steps)
        decreases world.buffered
      {
        var d, ok := DrainOnce(sess, failures, delivered);
        if d.None? {
          return;
        }
        NackedOneMore(old(world.trace), steps, d.value, ok);
        steps := steps + [DrainOne(d.value), Event.Settle(Nack, d.value.tag, ok)];
      }
    }

    /** The two statements consume ends with at shutdown. */
    method CancelAndDrain(sess: Session, ghost failures: nat, ghost delivered: bool) returns (ghost steps: Trace)
      requires sess.world == world && !sess.closed
      requires Stands(Cancelling, failures, delivered) && world.left == 0
      modifies world
      ensures Stands(AfterConsume, failures, delivered) && world.left == 0
      ensures world.trace == old(world.trace) + [Event.CancelConsumer] + steps + [DrainStop] && NackedEach(steps)
    {
      sess.Cancel();
      assert Stands(Draining, failures, delivered);
      steps := DrainDeliveries(sess, failures, delivered);
    }

    /** The turn in which shutdown was noticed. */
    method LastTurn(sess: Session, ghost start: Trace, ghost observed: Trace,
                    ghost failures: nat, ghost delivered: bool)
        returns (ghost steps: Trace, ghost drained: Trace)
      requires sess.world == world && !sess.closed
      requires Stands(Cancelling, failures, delivered) && world.left == 0
      requires world.trace == start + observed
      requires observed == [Check(true)] || observed == [Check(false), Interrupted]
      modifies world
      ensures Stands(AfterConsume, failures, delivered) && world.left == 0
      ensures world.trace == start + steps && Settled(steps) && !Received(steps)
      ensures ShutsDown(steps, observed, drained)
    {
      var nacked := CancelAndDrain(sess, failures, delivered);
      ClosingTurn(start, observed, nacked);
      drained, steps := nacked, observed + [Event.CancelConsumer] + nacked + [DrainStop];
    }

    /** One turn of the consume loop: a delivery handled, the stream's end, or shutdown. */
    method Turn(sess: Session, ghost failures: nat, ghost delivered: bool)
        returns (arrival: Arrival, ghost steps: Trace, ghost observed: Trace, ghost drained: Trace)
      requires sess.world == world && !sess.closed
      requires Stands(Loop, failures, delivered)
      modifies world
      ensures world.left <= old(world.left)
      ensures arrival.Got? ==> Stands(Loop, failures, true) && world.left < old(world.left)
      ensures !arrival.Got? ==> Stands(AfterConsume, failures, delivered)
      ensures arrival.Stopped? ==> world.left == 0
      ensures world.trace == old(world.trace) + steps && Settled(steps) && (arrival.Got? <==> Received(steps))
      ensures TurnCalls(steps, if arrival.Got? then Some(arrival.d) else None, arrival.Stopped?, observed, drained)
    {
      ghost var start := world.trace;
      observed, drained := [], [];
      var cancelled := world.Cancelled();
      if cancelled {
        var last, nacked := LastTurn(sess, start, [Check(true)], failures, delivered);
        return Stopped, last, [Check(true)], nacked;
      }
      arrival := world.Await();
      match arrival {
        case Got(d) =>
          var work := HandleDelivery(sess, d, failures, true);
          TakingTurn(start, d, work);
          steps := [Check(false)] + [Receive(d)] + work;
          assert steps[..2] == [Check(false), Receive(d)] && steps[2..] == work;
        case Ended =>
          IdleSettled([Check(false), StreamEnd]);
          steps := [Check(false), StreamEnd];
        case Stopped =>
          var last, nacked := LastTurn(sess, start, [Check(false), Interrupted], failures, delivered);
          return arrival, last, [Check(false), Interrupted], nacked;
      }
    }

    /** consume: reports whether the session delivered anything; no error means shutdown.
        It settles every delivery it takes, once and in order. Its last calls are the end of
        the stream, or what stopped it, the consumer's cancel and the drain. */
    method Consume(sess: Session, ghost failures: nat)
        returns (delivered: bool, err: Option<SessionError>, ghost earlier: Trace, ghost last: Trace,
                 ghost observed: Trace, ghost drained: Trace)
      requires sess.world == world && !sess.closed
      requires Stands(Loop, failures, false)
      modifies world
      ensures world.left <= old(world.left)
      ensures Stands(AfterConsume, failures, delivered)
      ensures err.None? ==> world.left == 0
      ensures world.trace == old(world.trace) + (earlier + last) && Settled(earlier + last)
      ensures delivered <==> Received(earlier + last)
      ensures Uncancelled(earlier) && TurnCalls(last, None, err.None?, observed, drained)
    {
      delivered, earlier := false, [];
      while true
        invariant Stands(Loop, failures, delivered) && world.left <= old(world.left)
        invariant world.trace == old(world.trace) + earlier && Consumed(earlier, delivered) && Uncancelled(earlier)
        decreases world.left
      {
        var arrival, turn, seen, nacked := Turn(sess, failures, delivered);
        ConsumedOn(old(world.trace), earlier, turn, delivered);
        match arrival {
          case Got(d) =>
            delivered := true;
            TakingOn(earlier, turn, d);
            earlier := earlier + turn;
          case Ended =>
            return delivered, Some(SessionClosed), earlier, turn, seen, nacked;
          case Stopped =>
            return delivered, None, earlier, turn, seen, nacked;
        }
      }
    }

    /** One declaration: the next of the five. */
    method DeclareNext(step: Setup, ghost n: nat, ghost start: Trace, ghost failures: nat, ghost delivered: bool)
        returns (ok: bool)
      requires n < 5 && SETUPS[n] == step && Stands(Declaring(step), failures, delivered)
      requires world.trace == start + Declared(n, true)
      modifies world`trace, world`now, world`left
      ensures world.left <= old(world.left)
      ensures ok ==> Stands(if step.Consume? then Connected else Declaring(NextSetup(step)), failures, delivered)
      ensures !ok ==> Stands(FailChannel, failures, delivered)
      ensures world.trace == start + Declared(n + 1, ok)
    {
      ok := world.Declare(step);
      DeclaredMore(start, n, ok);
    }

    /** The declarations of connect, in order, up to the first that fails. */
    method DeclareTopology(ghost failures: nat, ghost delivered: bool) returns (ok: bool, ghost n: nat)
      requires Stands(Declaring(Exchange), failures, delivered)
      modifies world`trace, world`now, world`left
      ensures world.left <= old(world.left)
      ensures Stands(if ok then Connected else FailChannel, failures, delivered)
      ensures 1 <= n <= 5 && (ok ==> n == 5)
      ensures world.trace == old(world.trace) + Declared(n, ok)
      ensures ok ==>
                Declared(n, ok) == [Event.Declare(Exchange, true), Event.Declare(Queue, true),
                                    Event.Declare(Bind, true), Event.Declare(Qos, true),
                                    Event.Declare(Setup.Consume, true)]
    {
      AllDeclared();
      ghost var start := world.trace;
      ok := DeclareNext(Exchange, 0, start, failures, delivered);
      if !ok {
        return ok, 1;
      }
      ok := DeclareNext(Queue, 1, start, failures, delivered);
      if !ok {
        return ok, 2;
      }
      ok := DeclareNext(Bind, 2, start, failures, delivered);
      if !ok {
        return ok, 3;
      }
      ok, n := DeclareConsumer(start, failures, delivered);
    }

    /** What makes the channel a consumer's. */
    method DeclareConsumer(ghost start: Trace, ghost failures: nat, ghost delivered: bool)
        returns (ok: bool, ghost n: nat)
      requires Stands(Declaring(Qos), failures, delivered)
      requires world.trace == start + Declared(3, true)
      modifies world`trace, world`now, world`left
      ensures world.left <= old(world.left)
      ensures Stands(if ok then Connected else FailChannel, failures, delivered)
      ensures 4 <= n <= 5 && (ok ==> n == 5)
      ensures world.trace == start + Declared(n, ok)
    {
      ok := DeclareNext(Qos, 3, start, failures, delivered);
      if !ok {
        return ok, 4;
      }
      ok := DeclareNext(Setup.Consume, 4, start, failures, delivered);
      n := 5;
    }

    /** connect: null when the attempt failed, everything it opened then being closed. */
    method Connect(ghost failures: nat, ghost delivered: bool) returns (sess: Session?, ghost steps: Trace)
      requires Stands(Dialing, failures, delivered)
      modifies world`trace, world`now, world`left
      ensures world.left <= old(world.left)
      ensures sess == null ==> Stands(FailCheck, failures, delivered)
      ensures sess != null ==>
                Stands(Connected, failures, delivered) && fresh(sess) && sess.world == world && !sess.closed
      ensures world.trace == old(world.trace) + steps && ConnectCalls(steps, sess != null)
    {
      var ok := world.Dial();
      if !ok {
        return null, [Event.Dial(false)];
      }
      ghost var rest;
      sess, rest := Open(failures, delivered);
      steps := [Event.Dial(true)] + rest;
    }

    /** connect, once the connection is dialled. */
    method Open(ghost failures: nat, ghost delivered: bool) returns (sess: Session?, ghost steps: Trace)
      requires Stands(Opening, failures, delivered)
      modifies world`trace, world`now, world`left
      ensures world.left <= old(world.left)
      ensures sess == null ==> Stands(FailCheck, failures, delivered)
      ensures sess != null ==>
                Stands(Connected, failures, delivered) && fresh(sess) && sess.world == world && !sess.closed
      ensures world.trace == old(world.trace) + steps && OpenCalls(steps, sess != null)
    {
      var ok := world.OpenChannel();
      if !ok {
        world.CloseConn();
        return null, [Event.OpenChannel(false), Event.CloseConn];
      }
      ghost var rest;
      ok, rest := SetUp(failures, delivered);
      steps := [Event.OpenChannel(true)] + rest;
      if !ok {
        return null, steps;
      }
      sess := new Session(world);
    }

    /** connect, once the channel is open: on failure both are closed. */
    method SetUp(ghost failures: nat, ghost delivered: bool) returns (ok: bool, ghost steps: Trace)
      requires Stands(Declaring(Exchange), failures, delivered)
      modifies world`trace, world`now, world`left
      ensures world.left <= old(world.left)
      ensures Stands(if ok then Connected else FailCheck, failures, delivered)
      ensures world.trace == old(world.trace) + steps && SetupCalls(steps, ok)
    {
      ghost var n;
      ok, n := DeclareTopology(failures, delivered);
      steps := Declared(n, ok);
      if !ok {
        CloseBoth(failures, delivered);
        steps := steps + CLOSES;
      }
    }

    method CloseBoth(ghost failures: nat, ghost delivered: bool)
      requires Stands(FailChannel, failures, delivered)
      modifies world`trace, world`now, world`left
      ensures world.left <= old(world.left)
      ensures Stands(FailCheck, failures, delivered)
      ensures world.trace == old(world.trace) + CLOSES
    {
      world.CloseChannel();
      world.CloseConn();
    }

    /** sess.close() at the end of a session, for good or before another attempt. */
    method TearDown(sess: Session, ghost last: bool, ghost failures: nat, ghost delivered: bool)
      requires sess.world == world && !sess.closed
      requires Stands(ClosingChannel(last), failures, delivered)
      modifies sess, world`trace, world`now, world`left
      ensures sess.closed && world.left <= old(world.left)
      ensures last ==> Stands(Done, failures, delivered)
      ensures !last ==> Stands(Sleeping, (if delivered then 0 else failures) + 1, delivered)
      ensures world.trace == old(world.trace) + CLOSES
    {
      assert Then(world.cfg, world.now, CloseChannel)
          == Some(world.now.value.(pc := ClosingConn(last)));
      sess.Close();
    }

    /** What follows consume: stop, or give the failure count for the next sleep. */
    method Leave(sess: Session, failures: nat, delivered: bool) returns (stop: bool, next: nat)
      requires sess.world == world && !sess.closed
      requires Stands(AfterConsume, failures, delivered)
      modifies sess, world`trace, world`now, world`left
      ensures sess.closed && world.left <= old(world.left)
      ensures stop ==> world.Sound() && world.At(Done) && world.left == 0
      ensures !stop ==> Stands(Sleeping, next, delivered) && next == (if delivered then 1 else failures + 1)
      ensures world.trace == old(world.trace) + ([Check(stop)] + CLOSES)
    {
      stop := world.Cancelled();
      TearDown(sess, stop, failures, delivered);
      next := if delivered then 0 else failures;
      next := next + 1;
    }

    /** One established session, from the check that shutdown has not overtaken it to its
        teardown; either Run must stop, or the failure count for the next sleep is given. */
    method Serve(sess: Session, failures: nat, ghost before: bool)
        returns (stop: bool, next: nat, ghost delivered: bool, ghost steps: Trace)
      requires sess.world == world && !sess.closed
      requires Stands(Connected, failures, before)
      modifies world, sess
      ensures sess.closed && world.left <= old(world.left)
      ensures stop ==> world.Sound() && world.At(Done) && world.left == 0
      ensures !stop ==> Stands(Sleeping, next, delivered) && next == (if Received(steps) then 1 else failures + 1)
      ensures world.trace == old(world.trace) + steps && ServeCalls(steps, stop)
    {
      ghost var start := world.trace;
      stop := world.Cancelled();
      if stop {
        TearDown(sess, true, failures, false);
        assert start + [Check(true)] + CLOSES == start + ([Check(true)] + CLOSES);
        return true, failures, false, [Check(true)] + CLOSES;
      }
      var received, _, earlier, last, _, _ := Consume(sess, failures);
      ghost var calls := earlier + last;
      stop, next := Leave(sess, failures, received);
      Served(start, calls, stop);
      delivered := received;
      steps := [Check(false)] + calls + ([Check(stop)] + CLOSES);
    }

    /** The backoff sleep; it reports whether shutdown interrupted it. */
    method Backoff(failures: nat, ghost delivered: bool) returns (interrupted: bool)
      requires Stands(Sleeping, failures, delivered)
      modifies world`trace, world`now, world`left
      ensures world.left <= old(world.left)
      ensures Stands(if interrupted then Done else Head, failures, delivered)
      ensures interrupted ==> world.left == 0
      ensures world.trace == old(world.trace) + [Event.Sleep(world.cfg.backoff(failures), interrupted)]
    {
      interrupted := world.Sleep(world.cfg.backoff(failures));
    }

    /** After a failed connect: stop if that was shutdown, else count the failure. */
    method Count(failures: nat, ghost delivered: bool) returns (stop: bool, next: nat)
      requires Stands(FailCheck, failures, delivered)
      modifies world`trace, world`now, world`left
      ensures world.left <= old(world.left)
      ensures stop ==> world.Sound() && world.At(Done) && world.left == 0
      ensures !stop ==> Stands(Sleeping, next, delivered) && next == failures + 1
      ensures world.trace == old(world.trace) + [Check(stop)]
    {
      stop := world.Cancelled();
      next := failures + 1;
    }

    /** The check at the head of Run's loop. */
    method Begin(ghost failures: nat, ghost delivered: bool) returns (stop: bool)
      requires Stands(Head, failures, delivered)
      modifies world`trace, world`now, world`left
      ensures stop ==> world.Sound() && world.At(Done) && world.left == 0
      ensures !stop ==> Stands(Dialing, failures, delivered) && world.left < old(world.left)
      ensures world.trace == old(world.trace) + [Check(stop)]
    {
      stop := world.Cancelled();
    }

    /** Run: connects, consumes and reconnects until the context is cancelled. It returns
        for every run in which cancellation comes, always without an error, and its calls
        are then a complete trace of the protocol. */
    method Run() returns (err: Option<RunError>)
      requires world.trace == [] && world.now == Some(START) && world.Sound()
      modifies world
      ensures err.None?
      ensures world.At(Done) && Accepts(world.cfg, world.trace)
      ensures Protocol.Run(world.cfg, world.trace) == world.now
      ensures world.left == 0
    {
      var failures := 0;
      ghost var delivered := false;
      while true
        invariant Stands(Head, failures, delivered)
        decreases world.left
      {
        var stop := Begin(failures, delivered);
        if stop {
          return None;
        }
        var sess, _ := Connect(failures, delivered);
        if sess == null {
          stop, failures := Count(failures, delivered);
        } else {
          var last, next, received, _ := Serve(sess, failures, delivered);
          stop, failures, delivered := last, next, received;
        }
        if stop {
          return None;
        }
        var interrupted := Backoff(failures, delivered);
        if interrupted {
          return None;
        }
      }
    }
  }
}
