/** What every run of any number of replicas guarantees, whatever sessions die, frames
    are lost, contexts are cancelled or messages redelivered along the way. */
module Guarantees {
  import opened Results
  import opened Protocol
  import opened Bags
  import opened Cluster
  import opened Discipline

  /** Each enqueued message is in exactly one place: ready, unacked under exactly one
      tag of one open channel, or acked. */
  lemma ExactlyOnePlace(cfg: Config, replicas: nat, steps: seq<Step>, s: System, msg: nat)
    requires Reachable(cfg, replicas, steps, s) && msg in s.broker.enqueued
    ensures s.broker.ready[msg] + |Holders(s.broker.unacked, msg)| + s.broker.acked[msg] == 1
    ensures forall k :: k in Holders(s.broker.unacked, msg) ==>
              k.chan < |s.chans| && s.chans[k.chan].open && 1 <= k.tag <= s.chans[k.chan].sent
  {
    ReachableInv(cfg, replicas, steps, s);
    PlacesSum(s.broker, msg);
    forall k | k in Holders(s.broker.unacked, msg)
      ensures k.chan < |s.chans| && s.chans[k.chan].open && 1 <= k.tag <= s.chans[k.chan].sent
    {
      UnackedIsLive(s, k);
    }
  }

  /** No message appears from nowhere. */
  lemma NothingInvented(cfg: Config, replicas: nat, steps: seq<Step>, s: System, msg: nat)
    requires Reachable(cfg, replicas, steps, s) && msg !in s.broker.enqueued
    ensures msg !in s.broker.ready && msg !in s.broker.acked && Holders(s.broker.unacked, msg) == {}
  {
    ReachableInv(cfg, replicas, steps, s);
    PlacesSum(s.broker, msg);
  }

  /** A settlement of a tag on record settles it, and leaves the channel as it is otherwise. */
  lemma ProcessKnown(s: System, c: nat)
    requires c < |s.chans| && s.chans[c].wire != [] && s.chans[c].wire[0].Settlement?
    requires Key(c, s.chans[c].wire[0].tag) in s.broker.unacked
    ensures var f := s.chans[c].wire[0];
            && ProcessFrame(s, c).broker == SettleAt(s, Key(c, f.tag), f.kind).broker
            && ProcessFrame(s, c).chans[c] == s.chans[c].(wire := s.chans[c].wire[1..])
  {
  }

  lemma SettledByAck(s: System, key: Key)
    requires key in s.broker.unacked
    ensures var b' := SettleAt(s, key, Ack).broker;
            && b'.unacked == Drop(s.broker.unacked, key)
            && b'.acked == s.broker.acked + multiset{s.broker.unacked[key]} && b'.ready == s.broker.ready
  {
  }

  lemma SettledByNack(s: System, key: Key)
    requires key in s.broker.unacked
    ensures var b' := SettleAt(s, key, Nack).broker;
            && b'.unacked == Drop(s.broker.unacked, key)
            && b'.ready == s.broker.ready + multiset{s.broker.unacked[key]} && b'.acked == s.broker.acked
  {
  }

  lemma NextFrameOk(cfg: Config, replicas: nat, steps: seq<Step>, s: System, c: nat)
    requires Reachable(cfg, replicas, steps, s)
    requires c < |s.chans| && s.chans[c].wire != [] && s.chans[c].wire[0].Settlement?
    ensures FrameOk(c, s.chans[c].wire[0], s.chans[c].tried, s.broker, s.log)
  {
    ReachableInv(cfg, replicas, steps, s);
    assert ChannelOk(c, s.chans[c], s.broker, s.log);
  }

  /** Every settlement on its way to an open channel carries a tag the broker still holds
      there, for the very message the replica took under that tag on that session; so
      processing it is never a channel error and settles that message alone. */
  lemma SettlesTheRightMessage(cfg: Config, replicas: nat, steps: seq<Step>, s: System, c: nat)
    requires Reachable(cfg, replicas, steps, s)
    requires c < |s.chans| && s.chans[c].open && s.chans[c].wire != [] && s.chans[c].wire[0].Settlement?
    ensures var f := s.chans[c].wire[0];
            var key := Key(c, f.tag);
            var b, b' := s.broker, ProcessFrame(s, c).broker;
            && key in b.unacked && b.unacked[key] == f.meant
            && b'.unacked == Drop(b.unacked, key)
            && (f.kind == Ack ==> b'.acked == b.acked + multiset{f.meant} && b'.ready == b.ready)
            && (f.kind == Nack ==> b'.ready == b.ready + multiset{f.meant} && b'.acked == b.acked)
            && ProcessFrame(s, c).chans[c].open
  {
    NextFrameOk(cfg, replicas, steps, s, c);
    ProcessKnown(s, c);
    SettledByAck(s, Key(c, s.chans[c].wire[0].tag));
    SettledByNack(s, Key(c, s.chans[c].wire[0].tag));
  }

  /** The message a frame is meant for is the one delivered under its tag on that channel. */
  lemma FramesNameTheirDelivery(cfg: Config, replicas: nat, steps: seq<Step>, s: System, c: nat, x: nat)
    requires Reachable(cfg, replicas, steps, s)
    requires c < |s.chans| && x < |s.chans[c].wire| && s.chans[c].wire[x].Settlement?
    ensures var f := s.chans[c].wire[x];
            Key(c, f.tag) in s.log.sent && s.log.sent[Key(c, f.tag)] == f.meant
    ensures var f := s.chans[c].wire[x];
            f.kind == Ack ==> Key(c, f.tag) in s.log.outcomes && Completed(s.log.outcomes[Key(c, f.tag)])
  {
    ReachableInv(cfg, replicas, steps, s);
    assert ChannelOk(c, s.chans[c], s.broker, s.log);
    assert FrameOk(c, s.chans[c].wire[x], s.chans[c].tried, s.broker, s.log);
  }

  /** A message is acked only after some replica's pipeline completed on a delivery of it,
      by an outcome that cancellation did not cause. */
  lemma AckedOnlyIfCompleted(cfg: Config, replicas: nat, steps: seq<Step>, s: System, msg: nat) returns (k: Key)
    requires Reachable(cfg, replicas, steps, s) && msg in s.broker.acked
    ensures k in s.log.sent && s.log.sent[k] == msg
    ensures k in s.log.outcomes && Completed(s.log.outcomes[k])
    ensures s.log.outcomes[k] !in {Untouched, Unreadable(true), Dropped(true)}
  {
    ReachableInv(cfg, replicas, steps, s);
    BagCounts(s.log.acks, msg);
    assert |Holders(s.log.acks, msg)| > 0;
    k :| k in Holders(s.log.acks, msg);
    assert k in s.log.acks;
  }

  /** The step is the ack call of replica i for this delivery, with this outcome. */
  ghost predicate AcksDelivery(s: System, step: Step, k: Key, msg: nat, o: Outcome) {
    && step.Act? && step.rep < |s.reps|
    && step.event.Settle? && step.event.kind == Ack && step.event.tag == k.tag
    && s.reps[step.rep].chan == k.chan
    && s.reps[step.rep].local.pc == Sending(Delivery(k.tag, msg), Ack, o)
  }

  /** Only replicas' acts record outcomes. */
  lemma OutcomesKept(cfg: Config, s: System, step: Step)
    requires Apply(cfg, s, step).Some? && !step.Act?
    ensures Apply(cfg, s, step).value.log.outcomes == s.log.outcomes
  {
  }

  lemma FrameKeepsLog(s: System, c: nat)
    requires c < |s.chans| && s.chans[c].wire != []
    ensures ProcessFrame(s, c).log.outcomes == s.log.outcomes
    ensures ProcessFrame(s, c).log.sent == s.log.sent
  {
  }

  lemma ActOutcome(cfg: Config, s: System, i: nat, e: Event, reaches: bool, k: Key)
    requires i < |s.reps| && Next(cfg, s.reps[i].local, e).Some?
    requires k in Perform(cfg, s, i, e, reaches).log.outcomes
    requires !(k in s.log.outcomes && s.log.outcomes[k] == Perform(cfg, s, i, e, reaches).log.outcomes[k])
    ensures var rep := s.reps[i];
            && e.Settle? && e.kind == Ack && rep.local.pc.Sending? && rep.chan < |s.chans|
            && k == HandKey(rep)
            && Perform(cfg, s, i, e, reaches).log.outcomes[k] == rep.local.pc.outcome
  {
  }

  /** An outcome on record was there before the step, or the step is the ack that records it. */
  lemma OutcomeStep(cfg: Config, s: System, step: Step, k: Key)
    requires Inv(s) && Apply(cfg, s, step).Some?
    requires k in Apply(cfg, s, step).value.log.outcomes
    requires !(k in s.log.outcomes && s.log.outcomes[k] == Apply(cfg, s, step).value.log.outcomes[k])
    ensures k in s.log.sent
    ensures AcksDelivery(s, step, k, s.log.sent[k], Apply(cfg, s, step).value.log.outcomes[k])
  {
    if step.Act? {
      var i := step.rep;
      ActOutcome(cfg, s, i, step.event, step.reaches, k);
      NextSessionStep(cfg, s.reps[i].local, step.event);
      assert ReplicaOk(i, s.reps[i], s.chans, s.log);
    } else {
      OutcomesKept(cfg, s, step);
    }
  }

  lemma SendKeepsLog(s: System, c: nat, msg: nat, k: Key)
    requires Inv(s) && c < |s.chans| && k in s.log.sent
    ensures var sent' := Send(s, c, msg).log.sent; k in sent' && sent'[k] == s.log.sent[k]
  {
  }

  lemma ActKeepsSent(s: System, i: nat, e: Event, reaches: bool, local: State)
    requires i < |s.reps|
    ensures Moved(s, i, e, reaches, local).log.sent == s.log.sent
  {
  }

  lemma SentStays(cfg: Config, s: System, step: Step, k: Key)
    requires Inv(s) && Apply(cfg, s, step).Some? && k in s.log.sent
    ensures var sent' := Apply(cfg, s, step).value.log.sent; k in sent' && sent'[k] == s.log.sent[k]
  {
    match step {
      case Process(c) => FrameKeepsLog(s, c);
      case Deliver(c, msg) => SendKeepsLog(s, c, msg, k);
      case Act(i, e, reaches) => ActKeepsSent(s, i, e, reaches, LocalAfter(cfg, s, i, e));
      case _ =>
    }
  }

  /** An outcome on record after a step was there before it, or the step recorded it. */
  lemma OutcomeBack(cfg: Config, before: System, step: Step, s: System, k: Key)
    requires Inv(before) && Apply(cfg, before, step) == Some(s) && k in s.log.outcomes
    ensures k in s.log.sent
    ensures || (k in before.log.outcomes && before.log.outcomes[k] == s.log.outcomes[k]
                && k in before.log.sent && before.log.sent[k] == s.log.sent[k])
            || AcksDelivery(before, step, k, s.log.sent[k], s.log.outcomes[k])
  {
    if k in before.log.outcomes && before.log.outcomes[k] == s.log.outcomes[k] {
      assert k in before.log.sent;
    } else {
      OutcomeStep(cfg, before, step, k);
    }
    SentStays(cfg, before, step, k);
  }

  /** Step n of the run, taken in the state before, is the ack call that recorded the outcome. */
  ghost predicate Origin(cfg: Config, replicas: nat, steps: seq<Step>, n: nat, before: System,
                         k: Key, msg: nat, o: Outcome) {
    && n < |steps|
    && Reachable(cfg, replicas, steps[..n], before)
    && AcksDelivery(before, steps[n], k, msg, o)
  }

  ghost predicate Records(s: System, k: Key, msg: nat, o: Outcome) {
    k in s.log.outcomes && s.log.outcomes[k] == o && k in s.log.sent && s.log.sent[k] == msg
  }

  lemma OriginOrEarlier(cfg: Config, replicas: nat, steps: seq<Step>, s: System, k: Key) returns (before: System)
    requires Reachable(cfg, replicas, steps, s) && k in s.log.outcomes
    ensures steps != [] && k in s.log.sent
    ensures var n := |steps| - 1;
            && Reachable(cfg, replicas, steps[..n], before)
            && (|| Origin(cfg, replicas, steps, n, before, k, s.log.sent[k], s.log.outcomes[k])
                || Records(before, k, s.log.sent[k], s.log.outcomes[k]))
  {
    var n := |steps| - 1;
    before := Exec(cfg, replicas, steps[..n]).value;
    ReachableInv(cfg, replicas, steps[..n], before);
    OutcomeBack(cfg, before, steps[n], s, k);
  }

  lemma OriginLater(cfg: Config, replicas: nat, steps: seq<Step>, n: nat, before: System,
                    k: Key, msg: nat, o: Outcome)
    requires steps != [] && Origin(cfg, replicas, steps[..|steps| - 1], n, before, k, msg, o)
    ensures Origin(cfg, replicas, steps, n, before, k, msg, o)
  {
    assert steps[..|steps| - 1][..n] == steps[..n];
  }

  /** Where a recorded outcome comes from. */
  lemma {:induction false} OutcomeOrigin(cfg: Config, replicas: nat, steps: seq<Step>, s: System, k: Key)
      returns (n: nat, before: System)
    requires Reachable(cfg, replicas, steps, s) && k in s.log.outcomes
    ensures k in s.log.sent
    ensures Origin(cfg, replicas, steps, n, before, k, s.log.sent[k], s.log.outcomes[k])
  {
    n := |steps| - 1;
    before := OriginOrEarlier(cfg, replicas, steps, s, k);
    if Records(before, k, s.log.sent[k], s.log.outcomes[k]) {
      n, before := OutcomeOrigin(cfg, replicas, steps[..n], before, k);
      OriginLater(cfg, replicas, steps, n, before, k, s.log.sent[k], s.log.outcomes[k]);
    }
  }

  /** End to end: behind every acked message stands a replica whose own trace holds, right
      before its ack call, one whole pipeline for a delivery of that message, ended by
      something other than cancellation while the context was still alive. */
  lemma AckedMeansHandled(cfg: Config, replicas: nat, steps: seq<Step>, s: System, msg: nat)
      returns (i: nat, n: nat, d: Delivery, o: Outcome)
    requires Reachable(cfg, replicas, steps, s) && msg in s.broker.acked
    ensures i < replicas && n < |steps| && d.msg == msg && o !in {Untouched, Unreadable(true), Dropped(true)}
    ensures var w := Work(EventsOf(steps[..n], i));
            |w| >= 1 && w[|w| - 1] == Check(false) && Pipeline(cfg, w, |w| - 1, d, o)
    ensures steps[n].Act? && steps[n].rep == i
    ensures steps[n].event.Settle? && steps[n].event.kind == Ack && steps[n].event.tag == d.tag
  {
    var k := AckedOnlyIfCompleted(cfg, replicas, steps, s, msg);
    var before;
    n, before := OutcomeOrigin(cfg, replicas, steps, s, k);
    i, d, o := steps[n].rep, Delivery(k.tag, msg), s.log.outcomes[k];
    ReplicaCount(cfg, replicas, steps[..n], before);
    ReplicaTraces(cfg, replicas, steps[..n], before, i);
    WorkInvariant(cfg, EventsOf(steps[..n], i));
  }

  lemma {:induction false} ReplicaCount(cfg: Config, replicas: nat, steps: seq<Step>, s: System)
    requires Reachable(cfg, replicas, steps, s)
    ensures |s.reps| == replicas
  {
    if steps != [] {
      var n := |steps| - 1;
      var before := Exec(cfg, replicas, steps[..n]).value;
      ReplicaCount(cfg, replicas, steps[..n], before);
      match steps[n] {
        case Process(c) => FrameKeepsReplicas(before, c);
        case _ =>
      }
    }
  }

  /** Deliveries are accounted for by requeues, and successful publications by deliveries. */
  lemma DuplicateAccounting(cfg: Config, replicas: nat, steps: seq<Step>, s: System, msg: nat)
    requires Reachable(cfg, replicas, steps, s) && msg in s.broker.enqueued
    ensures s.broker.delivered[msg] + s.broker.ready[msg] == 1 + s.broker.requeued[msg]
    ensures s.log.published[msg] <= s.broker.delivered[msg]
    ensures s.broker.requeued[msg] == 0 ==> s.log.published[msg] <= 1
  {
    ReachableInv(cfg, replicas, steps, s);
    PlacesSum(s.broker, msg);
    DeliveriesSum(s.broker, msg);
    BagSubset(s.log.posts, s.log.sent);
  }

  /** One delivery is published at most once: publications correspond one to one to the
      deliveries they were made for. */
  lemma OnePublicationPerDelivery(cfg: Config, replicas: nat, steps: seq<Step>, s: System, msg: nat)
    requires Reachable(cfg, replicas, steps, s)
    ensures s.log.published[msg] == |Holders(s.log.posts, msg)|
    ensures Holders(s.log.posts, msg) <= Holders(s.log.sent, msg)
  {
    ReachableInv(cfg, replicas, steps, s);
    BagCounts(s.log.posts, msg);
  }

  /** Once no channel is open every message is back in the queue or acked: shutdown of all
      replicas, in whatever order and however abrupt, loses none. */
  lemma NothingLostAtRest(cfg: Config, replicas: nat, steps: seq<Step>, s: System, msg: nat)
    requires Reachable(cfg, replicas, steps, s) && msg in s.broker.enqueued
    requires forall c :: 0 <= c < |s.chans| ==> !s.chans[c].open
    ensures s.broker.unacked == map[]
    ensures (msg in s.broker.ready) != (msg in s.broker.acked)
  {
    ExactlyOnePlace(cfg, replicas, steps, s, msg);
    ReachableInv(cfg, replicas, steps, s);
    if s.broker.unacked != map[] {
      var k :| k in s.broker.unacked;
      UnackedIsLive(s, k);
    }
    assert Holders(s.broker.unacked, msg) == {};
  }

  /** The events one replica performed, in order. */
  function EventsOf(steps: seq<Step>, i: nat): Trace {
    if steps == [] then []
    else
      var n := |steps| - 1;
      EventsOf(steps[..n], i) + (if steps[n].Act? && steps[n].rep == i then [steps[n].event] else [])
  }

  /** What any replica of any run does is a trace of the protocol, so all that is proved
      of traces holds of each replica. */
  lemma {:induction false} ReplicaTraces(cfg: Config, replicas: nat, steps: seq<Step>, s: System, i: nat)
    requires Reachable(cfg, replicas, steps, s) && i < replicas
    ensures |s.reps| == replicas
    ensures Run(cfg, EventsOf(steps, i)) == Some(s.reps[i].local)
  {
    if steps != [] {
      var n := |steps| - 1;
      var before := Exec(cfg, replicas, steps[..n]).value;
      ReplicaTraces(cfg, replicas, steps[..n], before, i);
      LocalStep(cfg, before, steps[n], i);
      if steps[n].Act? && steps[n].rep == i {
        RunExtend(cfg, EventsOf(steps[..n], i), steps[n].event);
      } else {
        assert EventsOf(steps, i) == EventsOf(steps[..n], i);
      }
    }
  }

  /** A step moves a replica's protocol state by its own events only. */
  lemma LocalStep(cfg: Config, s: System, step: Step, i: nat)
    requires Apply(cfg, s, step).Some? && i < |s.reps|
    ensures |Apply(cfg, s, step).value.reps| == |s.reps|
    ensures var local' := Apply(cfg, s, step).value.reps[i].local;
            if step.Act? && step.rep == i then Next(cfg, s.reps[i].local, step.event) == Some(local')
            else local' == s.reps[i].local
  {
  }

  lemma FrameKeepsReplicas(s: System, c: nat)
    requires c < |s.chans| && s.chans[c].wire != []
    ensures ProcessFrame(s, c).reps == s.reps
  {
  }
}
