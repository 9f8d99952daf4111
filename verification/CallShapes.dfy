/** The calls each part of the consumer makes, internal/rabbitmq/consumer.go, as shapes of
    traces, and how the shapes of the parts make up those of the whole. */
module CallShapes {
  import opened Results
  import opened Protocol

  // ------------------------------------------------------------ around one delivery

  predicate Opens(e: Event) {
    e.Dial? || e.OpenChannel? || e.Declare? || e.CloseChannel? || e.CloseConn? || e.Sleep?
  }

  /** Neither takes nor settles a delivery, nor opens or closes anything. */
  predicate Idle(e: Event) {
    !e.Settle? && !e.Receive? && !e.DrainOne? && !Opens(e)
  }

  predicate AllIdle(mid: Trace) {
    forall i :: 0 <= i < |mid| ==> Idle(mid[i])
  }

  /** Work on a delivery already taken, short of settling it. */
  predicate IsWork(mid: Trace) {
    AllIdle(mid) && Uncancelled(mid)
  }

  /** Nothing of a shutdown: no consumer cancelled, nothing drained. */
  predicate Uncancelled(steps: Trace) {
    forall i :: 0 <= i < |steps| ==> !steps[i].CancelConsumer? && !steps[i].DrainOne? && !steps[i].DrainStop?
  }

  /** Everything done for one delivery: work, then one settlement attempt of its tag. */
  predicate HandledOnce(work: Trace, tag: nat) {
    && |work| >= 1 && IsWork(work[..|work| - 1])
    && work[|work| - 1].Settle? && work[|work| - 1].tag == tag
  }

  lemma HandledAfter(before: Trace, first: Trace, last: Trace, tag: nat)
    requires IsWork(first) && HandledOnce(last, tag)
    ensures HandledOnce(first + last, tag)
    ensures before + first + last == before + (first + last)
  {
  }

  /** Deliveries taken from the buffer, each nacked before the next is taken. */
  predicate NackedEach(steps: Trace) {
    && |steps| % 2 == 0
    && forall i :: 0 <= i < |steps| / 2 ==> NackedPair(steps[2 * i], steps[2 * i + 1])
  }

  predicate NackedPair(taken: Event, settled: Event) {
    taken.DrainOne? && settled.Settle? && settled.kind == Nack && settled.tag == taken.d.tag
  }

  lemma NackedOneMore(before: Trace, steps: Trace, d: Delivery, ok: bool)
    requires NackedEach(steps)
    ensures NackedEach(steps + [DrainOne(d), Event.Settle(Nack, d.tag, ok)])
    ensures before + steps + [DrainOne(d)] + [Event.Settle(Nack, d.tag, ok)]
         == before + (steps + [DrainOne(d), Event.Settle(Nack, d.tag, ok)])
  {
  }

  function KindFor(cancelled: bool): Kind {
    if cancelled then Nack else Ack
  }

  // ------------------------------------------------------------ inside one session

  /** The tags taken from the stream, handled or drained, in order. */
  function Takes(steps: Trace): seq<nat> {
    if steps == [] then []
    else
      var e := steps[|steps| - 1];
      Takes(steps[..|steps| - 1]) + (if e.Receive? || e.DrainOne? then [e.d.tag] else [])
  }

  /** The tags settled, in order. */
  function Settles(steps: Trace): seq<nat> {
    if steps == [] then []
    else
      var e := steps[|steps| - 1];
      Settles(steps[..|steps| - 1]) + (if e.Settle? then [e.tag] else [])
  }

  /** Everything taken has been settled, once each and in order, and nothing was opened or
      closed meanwhile. */
  predicate Settled(steps: Trace) {
    && Takes(steps) == Settles(steps)
    && forall i :: 0 <= i < |steps| ==> !Opens(steps[i])
  }

  predicate Received(steps: Trace) {
    exists i :: 0 <= i < |steps| && steps[i].Receive?
  }

  lemma {:induction false} TakesConcat(a: Trace, b: Trace)
    ensures Takes(a + b) == Takes(a) + Takes(b)
  {
    if b == [] {
      assert a + b == a;
    } else {
      var n := |b| - 1;
      TakesConcat(a, b[..n]);
      assert (a + b)[..|a + b| - 1] == a + b[..n];
    }
  }

  lemma {:induction false} SettlesConcat(a: Trace, b: Trace)
    ensures Settles(a + b) == Settles(a) + Settles(b)
  {
    if b == [] {
      assert a + b == a;
    } else {
      var n := |b| - 1;
      SettlesConcat(a, b[..n]);
      assert (a + b)[..|a + b| - 1] == a + b[..n];
    }
  }

  lemma TagsConcat(a: Trace, b: Trace)
    ensures Takes(a + b) == Takes(a) + Takes(b)
    ensures Settles(a + b) == Settles(a) + Settles(b)
  {
    TakesConcat(a, b);
    SettlesConcat(a, b);
  }

  lemma TagsOfOne(e: Event)
    ensures Takes([e]) == if e.Receive? || e.DrainOne? then [e.d.tag] else []
    ensures Settles([e]) == if e.Settle? then [e.tag] else []
  {
    assert [e][..0] == [];
  }

  lemma {:induction false} IdleTags(mid: Trace)
    requires AllIdle(mid)
    ensures Takes(mid) == [] && Settles(mid) == []
  {
    if mid != [] {
      IdleTags(mid[..|mid| - 1]);
    }
  }

  lemma SettledConcat(a: Trace, b: Trace)
    requires Settled(a) && Settled(b)
    ensures Settled(a + b) && (Received(a + b) <==> Received(a) || Received(b))
  {
    TagsConcat(a, b);
    if i :| 0 <= i < |b| && b[i].Receive? {
      assert (a + b)[|a| + i].Receive?;
    }
    if i :| 0 <= i < |a| && a[i].Receive? {
      assert (a + b)[i].Receive?;
    }
  }

  lemma IdleSettled(mid: Trace)
    requires AllIdle(mid)
    ensures Settled(mid) && !Received(mid)
  {
    IdleTags(mid);
  }

  lemma {:induction false} NackedSettled(steps: Trace)
    requires NackedEach(steps)
    ensures Settled(steps) && !Received(steps)
  {
    if steps != [] {
      var n := |steps| - 2;
      assert NackedPair(steps[2 * (n / 2)], steps[2 * (n / 2) + 1]);
      NackedPrefix(steps);
      NackedSettled(steps[..n]);
      PairTags(steps[n], steps[n + 1]);
      SettledConcat(steps[..n], [steps[n], steps[n + 1]]);
      assert steps == steps[..n] + [steps[n], steps[n + 1]];
    }
  }

  lemma NackedPrefix(steps: Trace)
    requires NackedEach(steps) && steps != []
    ensures |steps| >= 2 && NackedEach(steps[..|steps| - 2])
  {
  }

  lemma PairTags(taken: Event, settled: Event)
    requires NackedPair(taken, settled)
    ensures Settled([taken, settled]) && !Received([taken, settled])
  {
    TagsOfOne(taken);
    TagsOfOne(settled);
    TagsConcat([taken], [settled]);
    assert [taken, settled] == [taken] + [settled];
  }

  lemma HandledTags(work: Trace, tag: nat)
    requires HandledOnce(work, tag)
    ensures Takes(work) == [] && Settles(work) == [tag]
  {
    IdleTags(work[..|work| - 1]);
  }

  lemma HandledOpensNothing(work: Trace, tag: nat, i: nat)
    requires HandledOnce(work, tag) && i < |work|
    ensures !Opens(work[i])
  {
    assert i < |work| - 1 ==> Idle(work[..|work| - 1][i]);
  }

  lemma TakenTags(d: Delivery, work: Trace)
    requires Takes(work) == [] && Settles(work) == [d.tag]
    ensures Takes([Receive(d)] + work) == Settles([Receive(d)] + work)
  {
    TagsConcat([Receive(d)], work);
    TagsOfOne(Receive(d));
  }

  lemma TakenOpensNothing(d: Delivery, work: Trace)
    requires forall i :: 0 <= i < |work| ==> !Opens(work[i])
    ensures forall i :: 0 <= i < |[Receive(d)] + work| ==> !Opens(([Receive(d)] + work)[i])
  {
  }

  /** Taking a delivery and handling it settles it. */
  lemma HandledSettled(d: Delivery, work: Trace)
    requires HandledOnce(work, d.tag)
    ensures Settled([Receive(d)] + work) && Received([Receive(d)] + work)
  {
    HandledTags(work, d.tag);
    TakenTags(d, work);
    forall i | 0 <= i < |work|
      ensures !Opens(work[i])
    {
      HandledOpensNothing(work, d.tag, i);
    }
    TakenOpensNothing(d, work);
    assert ([Receive(d)] + work)[0].Receive?;
  }

  /** A turn of the consume loop that takes a delivery. */
  lemma TakingTurn(start: Trace, d: Delivery, work: Trace)
    requires HandledOnce(work, d.tag)
    ensures var turn := [Check(false)] + [Receive(d)] + work;
            && start + [Check(false)] + [Receive(d)] + work == start + turn
            && Settled(turn) && Received(turn)
  {
    IdleSettled([Check(false)]);
    HandledSettled(d, work);
    SettledConcat([Check(false)], [Receive(d)] + work);
    assert [Check(false)] + [Receive(d)] + work == [Check(false)] + ([Receive(d)] + work);
  }

  /** How shutdown ends consume: what was observed, the consumer's cancel, each delivery of the
      buffer taken and nacked, and the poll that finds it empty. */
  predicate ShutsDown(steps: Trace, observed: Trace, drained: Trace) {
    && (observed == [Check(true)] || observed == [Check(false), Interrupted])
    && NackedEach(drained)
    && steps == observed + [Event.CancelConsumer] + drained + [DrainStop]
  }

  /** The calls of one turn of the consume loop, by what it met. */
  predicate TurnCalls(steps: Trace, taken: Option<Delivery>, stopped: bool, observed: Trace, drained: Trace) {
    match taken
    case Some(d) =>
      |steps| >= 3 && steps[..2] == [Check(false), Receive(d)] && HandledOnce(steps[2..], d.tag)
    case None =>
      if stopped then ShutsDown(steps, observed, drained) else steps == [Check(false), StreamEnd]
  }

  lemma TakingUncancelled(steps: Trace, d: Delivery)
    requires TurnCalls(steps, Some(d), false, [], [])
    ensures Uncancelled(steps)
  {
    var work := steps[2..];
    assert forall i :: 2 <= i < |steps| - 1 ==> steps[i] == work[..|work| - 1][i - 2];
    assert steps[|steps| - 1] == work[|work| - 1];
    assert steps[0] == steps[..2][0] && steps[1] == steps[..2][1];
  }

  /** What consume's loop keeps: everything settled, and whether anything was delivered. */
  predicate Consumed(steps: Trace, delivered: bool) {
    Settled(steps) && (delivered <==> Received(steps))
  }

  lemma ConsumedOn(start: Trace, earlier: Trace, turn: Trace, delivered: bool)
    requires Consumed(earlier, delivered) && Settled(turn)
    ensures Consumed(earlier + turn, delivered || Received(turn))
    ensures start + earlier + turn == start + (earlier + turn)
  {
    SettledConcat(earlier, turn);
  }

  lemma TakingOn(earlier: Trace, turn: Trace, d: Delivery)
    requires Uncancelled(earlier) && TurnCalls(turn, Some(d), false, [], [])
    ensures Uncancelled(earlier + turn)
  {
    TakingUncancelled(turn, d);
  }

  /** The last turn, when the context has been found cancelled. */
  lemma ClosingTurn(start: Trace, first: Trace, drained: Trace)
    requires AllIdle(first) && NackedEach(drained)
    ensures var turn := first + [Event.CancelConsumer] + drained + [DrainStop];
            && start + first + [Event.CancelConsumer] + drained + [DrainStop] == start + turn
            && Settled(turn) && !Received(turn)
  {
    var opening := first + [Event.CancelConsumer];
    IdleSettled(opening);
    NackedSettled(drained);
    SettledConcat(opening, drained);
    IdleSettled([DrainStop]);
    SettledConcat(opening + drained, [DrainStop]);
  }

  // ------------------------------------------------------------- around one session

  const CLOSES: Trace := [Event.CloseChannel, Event.CloseConn]

  const SETUPS: seq<Setup> := [Exchange, Queue, Bind, Qos, Setup.Consume]

  /** The first n declarations, the last of them with this result. */
  function Declared(n: nat, ok: bool): Trace
    requires n <= 5
  {
    seq(n, i requires 0 <= i < n => Event.Declare(SETUPS[i], i < n - 1 || ok))
  }

  lemma AllDeclared()
    ensures Declared(5, true) == [Event.Declare(Exchange, true), Event.Declare(Queue, true), Event.Declare(Bind, true),
                                  Event.Declare(Qos, true), Event.Declare(Setup.Consume, true)]
  {
  }

  lemma DeclaredMore(start: Trace, n: nat, ok: bool)
    requires n < 5
    ensures start + Declared(n, true) + [Event.Declare(SETUPS[n], ok)] == start + Declared(n + 1, ok)
  {
    assert Declared(n + 1, ok) == Declared(n, true) + [Event.Declare(SETUPS[n], ok)];
  }

  /** What connect does: everything up to the first failure, after which it closes what it
      had opened, channel before connection. */
  predicate ConnectCalls(steps: Trace, connected: bool) {
    || (!connected && steps == [Event.Dial(false)])
    || (|steps| >= 1 && steps[0] == Event.Dial(true) && OpenCalls(steps[1..], connected))
  }

  predicate OpenCalls(steps: Trace, connected: bool) {
    || (!connected && steps == [Event.OpenChannel(false), Event.CloseConn])
    || (|steps| >= 1 && steps[0] == Event.OpenChannel(true) && SetupCalls(steps[1..], connected))
  }

  predicate SetupCalls(steps: Trace, connected: bool) {
    if connected then steps == Declared(5, true)
    else exists n :: 1 <= n <= 5 && steps == Declared(n, false) + CLOSES
  }

  /** What one session does: shut down at once, or consume and then close. */
  predicate ServeCalls(steps: Trace, stop: bool) {
    || (stop && steps == [Check(true)] + CLOSES)
    || (|steps| >= 4 && steps[0] == Check(false) && Settled(steps[1..|steps| - 3])
        && steps[|steps| - 3..] == [Check(stop)] + CLOSES)
  }

  lemma Served(start: Trace, calls: Trace, stop: bool)
    requires Settled(calls)
    ensures var steps := [Check(false)] + calls + ([Check(stop)] + CLOSES);
            && ServeCalls(steps, stop)
            && (Received(steps) <==> Received(calls))
            && start + [Check(false)] + calls + ([Check(stop)] + CLOSES) == start + steps
  {
    var steps := [Check(false)] + calls + ([Check(stop)] + CLOSES);
    assert steps[1..|steps| - 3] == calls;
    assert steps[|steps| - 3..] == [Check(stop)] + CLOSES;
    assert forall i :: 0 <= i < |calls| ==> steps[i + 1] == calls[i];
    if i :| 0 <= i < |calls| && calls[i].Receive? {
      assert steps[i + 1].Receive?;
    }
    if i :| 0 <= i < |steps| && steps[i].Receive? {
      assert calls[i - 1].Receive?;
    }
  }
}
