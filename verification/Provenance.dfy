/** Where settlements come from and how far they reach. Delivery tags restart on every
    channel, so the same tag may be held by many replicas at once; a settlement still
    reaches only the delivery its own session took. */
module Provenance {
  import opened Results
  import opened Protocol
  import opened Bags
  import opened Cluster

  ghost predicate OnWire(s: System, c: nat, f: Frame) {
    c < |s.chans| && f.Settlement? && f in s.chans[c].wire
  }

  /** The step is the settlement call of replica i, in its session on channel c, for the
      delivery it has in hand there, and the frame says what the call says. */
  ghost predicate Pushes(s: System, step: Step, i: nat, c: nat, f: Frame) {
    && f.Settlement?
    && step.Act? && step.rep == i && i < |s.reps|
    && step.event.Settle? && step.event.kind == f.kind && step.event.tag == f.tag
    && InSession(s.reps[i].local.pc) && s.reps[i].chan == c
    && InHand(s.reps[i].local.pc) == Some(Delivery(f.tag, f.meant))
  }

  /** Step n of the run, taken in the state before, pushed the frame. */
  ghost predicate Origin(cfg: Config, replicas: nat, steps: seq<Step>, n: nat, before: System,
                         i: nat, c: nat, f: Frame) {
    && n < |steps|
    && Reachable(cfg, replicas, steps[..n], before)
    && Pushes(before, steps[n], i, c, f)
  }

  lemma LastState(cfg: Config, replicas: nat, steps: seq<Step>, s: System) returns (before: System)
    requires Reachable(cfg, replicas, steps, s) && steps != []
    ensures Reachable(cfg, replicas, steps[..|steps| - 1], before) && Inv(before)
    ensures Apply(cfg, before, steps[|steps| - 1]) == Some(s)
  {
    before := Exec(cfg, replicas, steps[..|steps| - 1]).value;
    ReachableInv(cfg, replicas, steps[..|steps| - 1], before);
  }

  // --------------------------------------------------------------- one step back

  lemma EffectWire(chan: Channel, pc: Pc, e: Event, reaches: bool, f: Frame)
    requires f.Settlement? && f in ChannelEffect(chan, pc, e, reaches).wire
    ensures || f in chan.wire
            || (e.Settle? && InHand(pc).Some? && f == Settlement(e.kind, e.tag, InHand(pc).value.msg))
  {
  }

  /** A replica's act changes its own channel, or adds an empty one. */
  lemma MovedChannel(s: System, i: nat, e: Event, reaches: bool, local: State, c: nat)
    requires i < |s.reps| && c < |Moved(s, i, e, reaches, local).chans|
    ensures var rep, chan' := s.reps[i], Moved(s, i, e, reaches, local).chans[c];
            if c >= |s.chans| then chan'.wire == []
            else if e != Declare(Consume, true) && InSession(rep.local.pc) && rep.chan == c
            then chan' == ChannelEffect(s.chans[c], rep.local.pc, e, reaches)
            else chan' == s.chans[c]
  {
  }

  lemma EffectOwner(chan: Channel, pc: Pc, e: Event, reaches: bool)
    ensures ChannelEffect(chan, pc, e, reaches).owner == chan.owner
  {
  }

  lemma ActWire(cfg: Config, s: System, i: nat, e: Event, reaches: bool, c: nat, f: Frame)
    requires CanAct(cfg, s, i, e) && OnWire(Perform(cfg, s, i, e, reaches), c, f)
    ensures c < |s.chans| && Perform(cfg, s, i, e, reaches).chans[c].owner == s.chans[c].owner
    ensures OnWire(s, c, f) || Pushes(s, Act(i, e, reaches), s.chans[c].owner, c, f)
  {
    MovedChannel(s, i, e, reaches, LocalAfter(cfg, s, i, e), c);
    var rep := s.reps[i];
    if e != Declare(Consume, true) && InSession(rep.local.pc) && rep.chan == c {
      EffectWire(s.chans[c], rep.local.pc, e, reaches, f);
      EffectOwner(s.chans[c], rep.local.pc, e, reaches);
      ActLocal(cfg, s, i, e);
    }
  }

  lemma BrokerWire(cfg: Config, s: System, step: Step, c: nat, f: Frame)
    requires Apply(cfg, s, step).Some? && !step.Act? && OnWire(Apply(cfg, s, step).value, c, f)
    ensures OnWire(s, c, f) && Apply(cfg, s, step).value.chans[c].owner == s.chans[c].owner
  {
  }

  /** A settlement in flight was in flight before, or the step pushed it. */
  lemma WireStep(cfg: Config, s: System, step: Step, s': System, c: nat, f: Frame)
    requires Inv(s) && Apply(cfg, s, step) == Some(s') && OnWire(s', c, f)
    ensures c < |s.chans| && s'.chans[c].owner == s.chans[c].owner
    ensures OnWire(s, c, f) || Pushes(s, step, s.chans[c].owner, c, f)
  {
    if step.Act? {
      ActWire(cfg, s, step.rep, step.event, step.reaches, c, f);
    } else {
      BrokerWire(cfg, s, step, c, f);
    }
  }

  lemma PushedOrEarlier(cfg: Config, replicas: nat, steps: seq<Step>, s: System, c: nat, f: Frame)
      returns (before: System)
    requires Reachable(cfg, replicas, steps, s) && OnWire(s, c, f)
    ensures steps != [] && Reachable(cfg, replicas, steps[..|steps| - 1], before)
    ensures c < |before.chans| && before.chans[c].owner == s.chans[c].owner
    ensures || OnWire(before, c, f)
            || Origin(cfg, replicas, steps, |steps| - 1, before, s.chans[c].owner, c, f)
  {
    before := LastState(cfg, replicas, steps, s);
    WireStep(cfg, before, steps[|steps| - 1], s, c, f);
  }

  /** Every settlement in flight on a channel, ack or nack, was pushed by the replica that
      opened the channel, in its session there, for the delivery it then had in hand. */
  lemma {:induction false} FrameOrigin(cfg: Config, replicas: nat, steps: seq<Step>, s: System, c: nat, f: Frame)
      returns (n: nat, before: System)
    requires Reachable(cfg, replicas, steps, s) && OnWire(s, c, f)
    ensures Origin(cfg, replicas, steps, n, before, s.chans[c].owner, c, f)
  {
    n := |steps| - 1;
    before := PushedOrEarlier(cfg, replicas, steps, s, c, f);
    if OnWire(before, c, f) {
      n, before := FrameOrigin(cfg, replicas, steps[..n], before, c, f);
      assert steps[..|steps| - 1][..n] == steps[..n];
    }
  }

  // ------------------------------------------------------- what a step can settle

  /** What took the delivery under key k off the broker's record. */
  datatype Cause = ChannelGone | Settled(frame: Frame)

  lemma Requeues(s: System, c: nat, k: Key)
    requires c < |s.chans| && k in s.broker.unacked && k.chan == c
    ensures s.broker.unacked[k] in Kill(s, c).broker.ready && Kill(s, c).broker.acked == s.broker.acked
  {
    var back := Restrict(s.broker.unacked, OnChannel(s.broker.unacked, c));
    BagRemove(back, k);
  }

  lemma ProcessRemoves(s: System, c: nat, k: Key) returns (cause: Cause)
    requires Inv(s) && c < |s.chans| && s.chans[c].open && s.chans[c].wire != []
    requires k in s.broker.unacked && k !in ProcessFrame(s, c).broker.unacked
    ensures k.chan == c
    ensures cause.ChannelGone? ==> s.broker.unacked[k] in ProcessFrame(s, c).broker.ready
    ensures cause.Settled? ==>
              cause.frame == s.chans[c].wire[0] && cause.frame.Settlement? && cause.frame.tag == k.tag
              && cause.frame.meant == s.broker.unacked[k]
  {
    var f := s.chans[c].wire[0];
    assert ChannelOk(c, s.chans[c], s.broker, s.log);
    if f.Close? {
      Requeues(s, c, k);
      cause := ChannelGone;
    } else {
      assert FrameOk(c, f, s.chans[c].tried, s.broker, s.log);
      assert k == Key(c, f.tag);
      cause := Settled(f);
    }
  }

  lemma LogEffectKeeps(log: Log, key: Key, pc: Pc, e: Event)
    ensures LogEffect(log, key, pc, e).sent == log.sent && LogEffect(log, key, pc, e).acks == log.acks
  {
  }

  /** A replica's act leaves the broker alone, and adds nothing to what was sent or acked. */
  lemma MovedRecords(s: System, i: nat, e: Event, reaches: bool, local: State)
    requires i < |s.reps|
    ensures var s' := Moved(s, i, e, reaches, local);
            && s'.broker == s.broker && |s'.chans| >= |s.chans|
            && s'.log.sent == s.log.sent && s'.log.acks == s.log.acks
  {
    var rep := s.reps[i];
    LogEffectKeeps(s.log, HandKey(rep), rep.local.pc, e);
  }

  /** Only acting replicas and broker steps on other channels are left. */
  lemma OthersRemoveNothing(cfg: Config, s: System, step: Step, s': System, k: Key)
    requires Inv(s) && Apply(cfg, s, step) == Some(s') && !step.Process? && !step.Die?
    requires k in s.broker.unacked
    ensures k in s'.broker.unacked
  {
    if step.Act? {
      MovedRecords(s, step.rep, step.event, step.reaches, LocalAfter(cfg, s, step.rep, step.event));
    }
  }

  /** No settlement ever hits the wrong message. In every reachable state, a step that takes
      a delivery off the broker's record is a step of the delivery's own channel: either the
      channel goes and the message returns to the queue, or the broker reads a settlement
      of that tag, meant for that message, which the replica that opened the channel pushed
      in its session there with that very delivery in hand. */
  lemma OnlyItsOwnSessionSettles(cfg: Config, replicas: nat, steps: seq<Step>, s: System,
                                 step: Step, s': System, k: Key)
      returns (cause: Cause, n: nat, before: System)
    requires Reachable(cfg, replicas, steps, s) && Apply(cfg, s, step) == Some(s')
    requires k in s.broker.unacked && k !in s'.broker.unacked
    ensures k.chan < |s.chans| && (step == Die(k.chan) || step == Process(k.chan))
    ensures match cause
            case ChannelGone => s.broker.unacked[k] in s'.broker.ready
            case Settled(f) =>
              && f.Settlement? && f.tag == k.tag && f.meant == s.broker.unacked[k]
              && Origin(cfg, replicas, steps, n, before, s.chans[k.chan].owner, k.chan, f)
  {
    ReachableInv(cfg, replicas, steps, s);
    n, before, cause := 0, s, ChannelGone;
    match step {
      case Die(c) => Requeues(s, c, k);
      case Process(c) =>
        cause := ProcessRemoves(s, c, k);
        if cause.Settled? {
          n, before := FrameOrigin(cfg, replicas, steps, s, c, cause.frame);
        }
      case _ => OthersRemoveNothing(cfg, s, step, s', k);
    }
  }

  // --------------------------------------------------------------- dead sessions

  ghost predicate SameOn(c: nat, m: map<Key, nat>, keys: set<Key>) {
    forall t: nat :: Key(c, t) in m <==> Key(c, t) in keys
  }

  predicate Gone(chan: Channel) {
    !chan.open && chan.wire == []
  }

  /** The channel is gone: nothing travels on it, nothing is held under its tags, and what
      was delivered and acked on it stays what it was. */
  ghost predicate Dead(s: System, c: nat, sent: set<Key>, acks: set<Key>) {
    && c < |s.chans| && Gone(s.chans[c])
    && SameOn(c, s.broker.unacked, {})
    && SameOn(c, s.log.sent, sent)
    && SameOn(c, s.log.acks, acks)
  }

  lemma GoneEffect(chan: Channel, pc: Pc, e: Event, reaches: bool)
    requires Gone(chan)
    ensures Gone(ChannelEffect(chan, pc, e, reaches))
  {
  }

  lemma DeadAct(cfg: Config, s: System, i: nat, e: Event, reaches: bool, c: nat, sent: set<Key>, acks: set<Key>)
    requires i < |s.reps| && Next(cfg, s.reps[i].local, e).Some? && Dead(s, c, sent, acks)
    ensures Dead(Perform(cfg, s, i, e, reaches), c, sent, acks)
  {
    MovedRecords(s, i, e, reaches, LocalAfter(cfg, s, i, e));
    MovedChannel(s, i, e, reaches, LocalAfter(cfg, s, i, e), c);
    GoneEffect(s.chans[c], s.reps[i].local.pc, e, reaches);
  }

  lemma DeadProcess(s: System, j: nat, c: nat, sent: set<Key>, acks: set<Key>)
    requires j < |s.chans| && s.chans[j].open && s.chans[j].wire != [] && Dead(s, c, sent, acks)
    ensures Dead(ProcessFrame(s, j), c, sent, acks)
  {
  }

  lemma DeadStep(cfg: Config, s: System, step: Step, s': System, c: nat, sent: set<Key>, acks: set<Key>)
    requires Apply(cfg, s, step) == Some(s') && Dead(s, c, sent, acks)
    ensures Dead(s', c, sent, acks)
  {
    match step {
      case Act(i, e, reaches) => DeadAct(cfg, s, i, e, reaches, c, sent, acks);
      case Process(j) => DeadProcess(s, j, c, sent, acks);
      case _ =>
    }
  }

  lemma ClosedIsDead(cfg: Config, replicas: nat, steps: seq<Step>, s: System, c: nat)
    requires Reachable(cfg, replicas, steps, s) && c < |s.chans| && !s.chans[c].open
    ensures Dead(s, c, s.log.sent.Keys, s.log.acks.Keys)
  {
    ReachableInv(cfg, replicas, steps, s);
    assert ChannelOk(c, s.chans[c], s.broker, s.log);
  }

  lemma DeadNow(cfg: Config, replicas: nat, steps: seq<Step>, s: System, c: nat, sent: set<Key>, acks: set<Key>)
      returns (before: System)
    requires Reachable(cfg, replicas, steps, s) && steps != []
    ensures Reachable(cfg, replicas, steps[..|steps| - 1], before)
    ensures Dead(before, c, sent, acks) ==> Dead(s, c, sent, acks)
  {
    before := LastState(cfg, replicas, steps, s);
    if Dead(before, c, sent, acks) {
      DeadStep(cfg, before, steps[|steps| - 1], s, c, sent, acks);
    }
  }

  /** A channel that has closed stays dead, whatever happens afterwards. */
  lemma {:induction false} DeadStays(cfg: Config, replicas: nat, steps: seq<Step>, s: System,
                                     more: seq<Step>, s': System, c: nat)
    requires Reachable(cfg, replicas, steps, s) && c < |s.chans| && !s.chans[c].open
    requires Reachable(cfg, replicas, steps + more, s')
    ensures Dead(s', c, s.log.sent.Keys, s.log.acks.Keys)
  {
    var all := steps + more;
    if more == [] {
      assert all == steps;
      ClosedIsDead(cfg, replicas, steps, s, c);
    } else {
      var before := DeadNow(cfg, replicas, all, s', c, s.log.sent.Keys, s.log.acks.Keys);
      assert all[..|all| - 1] == steps + more[..|more| - 1];
      DeadStays(cfg, replicas, steps, s, more[..|more| - 1], before, c);
    }
  }

  lemma CallOnDead(s: System, i: nat, e: Event, reaches: bool, local: State)
    requires i < |s.reps| && e.Settle? && s.reps[i].chan < |s.chans| && !s.chans[s.reps[i].chan].open
    ensures var s' := Moved(s, i, e, reaches, local);
            && s'.broker == s.broker
            && |s'.chans| == |s.chans|
            && forall j :: 0 <= j < |s.chans| ==> s'.chans[j].wire == s.chans[j].wire
  {
  }

  /** Late settlements are harmless. However long after its channel c has closed a session
      still makes settlement calls, no ack ever takes effect under a tag of c again, and
      each such call leaves the broker and every channel's wire as they are, whichever
      replica meanwhile holds the same message, or another one under the same tag. */
  lemma LateSettlementIsHarmless(cfg: Config, replicas: nat, steps: seq<Step>, s: System, more: seq<Step>,
                                 s': System, c: nat, i: nat, e: Event, reaches: bool)
    requires Reachable(cfg, replicas, steps, s) && c < |s.chans| && !s.chans[c].open
    requires Reachable(cfg, replicas, steps + more, s')
    requires Apply(cfg, s', Act(i, e, reaches)).Some? && e.Settle? && s'.reps[i].chan == c
    ensures Dead(s', c, s.log.sent.Keys, s.log.acks.Keys)
    ensures var late := Apply(cfg, s', Act(i, e, reaches)).value;
            && late.broker == s'.broker
            && |late.chans| == |s'.chans|
            && forall j :: 0 <= j < |s'.chans| ==> late.chans[j].wire == s'.chans[j].wire
  {
    DeadStays(cfg, replicas, steps, s, more, s', c);
    CallOnDead(s', i, e, reaches, LocalAfter(cfg, s', i, e));
  }
}
