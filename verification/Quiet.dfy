/** Runs in which no channel dies, no stream ends and no replica is shut down: nothing is
    ever requeued, so every message is delivered, and published, at most once. */
module QuietRuns {
  import opened Results
  import opened Protocol
  import opened Bags
  import opened Cluster

  ghost predicate Quiet(steps: seq<Step>) {
    forall i :: 0 <= i < |steps| ==> QuietStep(steps[i])
  }

  predicate QuietStep(step: Step) {
    !step.Die? && !step.Cancel? && !(step.Act? && step.event.StreamEnd?)
  }

  predicate IsAck(f: Frame) {
    f.Settlement? && f.kind == Ack
  }

  /** The channel is alive and only acks travel on it. */
  predicate CalmChannel(chan: Channel) {
    chan.open && forall x :: 0 <= x < |chan.wire| ==> IsAck(chan.wire[x])
  }

  /** The replica is not leaving its session. */
  predicate CalmReplica(rep: Replica) {
    !rep.cancelled && !rep.local.pc.AfterConsume? && !rep.local.pc.ClosingChannel?
  }

  ghost predicate CalmChannels(chans: seq<Channel>) {
    forall c :: 0 <= c < |chans| ==> CalmChannel(chans[c])
  }

  ghost predicate CalmReplicas(reps: seq<Replica>) {
    forall i :: 0 <= i < |reps| ==> CalmReplica(reps[i])
  }

  ghost predicate Calm(s: System) {
    && s.broker.requeued == multiset{}
    && CalmChannels(s.chans)
    && CalmReplicas(s.reps)
  }

  /** With its stream alive and its context too, a replica neither leaves its session nor
      settles by anything but an ack. */
  lemma CalmMove(cfg: Config, s: System, i: nat, e: Event)
    requires CanAct(cfg, s, i, e) && Calm(s) && !e.StreamEnd?
    ensures CalmReplica(s.reps[i].(local := LocalAfter(cfg, s, i, e)))
    ensures InSession(s.reps[i].local.pc) ==> !e.CloseChannel? && (e.Settle? ==> e.kind == Ack)
  {
    ActLocal(cfg, s, i, e);
    var rep := s.reps[i];
    assert !rep.local.seen && Consistent(rep.local);
    if InHand(rep.local.pc).Some? {
      CalmInHand(cfg, rep.local, e);
    } else if InConsume(rep.local.pc) {
      CalmInConsume(rep.local, e);
    } else {
      CalmInRun(cfg, rep.local, e);
    }
  }

  lemma CalmInHand(cfg: Config, s: State, e: Event)
    requires InHand(s.pc).Some? && Consistent(s) && !s.seen && NextInHand(cfg, s, e).Some?
    ensures var pc := NextInHand(cfg, s, e).value.pc; !pc.AfterConsume? && !pc.ClosingChannel?
    ensures !e.CloseChannel? && (e.Settle? ==> e.kind == Ack)
  {
  }

  lemma CalmInConsume(s: State, e: Event)
    requires Consistent(s) && !s.seen && NextInConsume(s, e).Some? && !e.StreamEnd?
    ensures var pc := NextInConsume(s, e).value.pc; !pc.AfterConsume? && !pc.ClosingChannel?
    ensures !e.CloseChannel? && !e.Settle?
  {
  }

  lemma CalmInRun(cfg: Config, s: State, e: Event)
    requires NextInRun(cfg, s, e).Some? && e != Check(true)
    requires !s.pc.AfterConsume? && !s.pc.ClosingChannel?
    ensures var pc := NextInRun(cfg, s, e).value.pc; !pc.AfterConsume? && !pc.ClosingChannel?
    ensures InSession(s.pc) ==> !e.CloseChannel?
    ensures !e.Settle?
  {
  }

  lemma CalmAct(cfg: Config, s: System, i: nat, e: Event, reaches: bool)
    requires CanAct(cfg, s, i, e) && Calm(s) && !e.StreamEnd?
    ensures Calm(Perform(cfg, s, i, e, reaches))
  {
    CalmMove(cfg, s, i, e);
    CalmMoved(s, i, e, reaches, LocalAfter(cfg, s, i, e));
  }

  lemma CalmMoved(s: System, i: nat, e: Event, reaches: bool, local: State)
    requires i < |s.reps| && Calm(s) && CalmReplica(s.reps[i].(local := local))
    requires InSession(s.reps[i].local.pc) ==> !e.CloseChannel? && (e.Settle? ==> e.kind == Ack)
    ensures Calm(Moved(s, i, e, reaches, local))
  {
    MovedReplicas(s, i, e, reaches, local);
    MovedChannels(s, i, e, reaches, local);
  }

  lemma MovedReplicas(s: System, i: nat, e: Event, reaches: bool, local: State)
    requires i < |s.reps| && CalmReplicas(s.reps) && CalmReplica(s.reps[i].(local := local))
    ensures CalmReplicas(Moved(s, i, e, reaches, local).reps)
  {
  }

  lemma MovedChannels(s: System, i: nat, e: Event, reaches: bool, local: State)
    requires i < |s.reps| && CalmChannels(s.chans)
    requires InSession(s.reps[i].local.pc) ==> !e.CloseChannel? && (e.Settle? ==> e.kind == Ack)
    ensures CalmChannels(Moved(s, i, e, reaches, local).chans)
    ensures Moved(s, i, e, reaches, local).broker == s.broker
  {
  }

  /** The broker finds every ack's delivery on record, so it never closes the channel. */
  lemma CalmProcess(s: System, c: nat)
    requires Inv(s) && Calm(s) && c < |s.chans| && s.chans[c].wire != []
    ensures Calm(ProcessFrame(s, c))
  {
    var chan := s.chans[c];
    assert IsAck(chan.wire[0]);
    assert ChannelOk(c, chan, s.broker, s.log);
    assert FrameOk(c, chan.wire[0], chan.tried, s.broker, s.log);
    assert forall x :: 0 <= x < |chan.wire[1..]| ==> chan.wire[1..][x] == chan.wire[x + 1];
  }

  lemma CalmStep(cfg: Config, s: System, step: Step)
    requires Inv(s) && Calm(s) && QuietStep(step) && Apply(cfg, s, step).Some?
    ensures Calm(Apply(cfg, s, step).value)
  {
    match step {
      case Act(i, e, reaches) => CalmAct(cfg, s, i, e, reaches);
      case Process(c) => CalmProcess(s, c);
      case _ =>
    }
  }

  lemma {:induction false} QuietIsCalm(cfg: Config, replicas: nat, steps: seq<Step>, s: System)
    requires Reachable(cfg, replicas, steps, s) && Quiet(steps)
    ensures Calm(s)
  {
    if steps != [] {
      var n := |steps| - 1;
      var before := Exec(cfg, replicas, steps[..n]).value;
      assert QuietStep(steps[n]);
      QuietIsCalm(cfg, replicas, steps[..n], before);
      ReachableInv(cfg, replicas, steps[..n], before);
      CalmStep(cfg, before, steps[n]);
    }
  }

  /** Without the loss of a session and without shutdown no message is delivered or published
      twice, however many replicas compete and whatever their pipelines meet. */
  lemma QuietRunPublishesAtMostOnce(cfg: Config, replicas: nat, steps: seq<Step>, s: System, msg: nat)
    requires Reachable(cfg, replicas, steps, s) && Quiet(steps)
    ensures s.broker.requeued == multiset{}
    ensures s.log.published[msg] <= s.broker.delivered[msg] <= 1
  {
    QuietIsCalm(cfg, replicas, steps, s);
    ReachableInv(cfg, replicas, steps, s);
    AtMostOnce(s.broker, s.log, msg);
  }

  lemma AtMostOnce(b: Broker, log: Log, msg: nat)
    requires Conserved(b) && Logged(b, log) && b.requeued == multiset{}
    ensures log.published[msg] <= b.delivered[msg] <= 1
  {
    assert b.delivered[msg] + b.ready[msg] == (b.delivered + b.ready)[msg] == b.enqueued[msg];
    BagSubset(log.posts, log.sent);
  }
}
