/** What a replica's calls bring about at the broker: a settlement call that succeeds on a
    living channel takes effect once the broker has read that far, and closing a channel
    gives back everything not settled on it. */
module Effects {
  import opened Results
  import opened Protocol
  import opened Bags
  import opened Cluster
  import opened Provenance

  /** Settlements travel before the channel's close, never behind it. */
  predicate CloseComesLast(chan: Channel) {
    forall x :: 0 <= x < |chan.wire| - 1 ==> chan.wire[x].Settlement?
  }

  predicate NoClose(chan: Channel) {
    forall x :: 0 <= x < |chan.wire| ==> chan.wire[x].Settlement?
  }

  ghost predicate WiresOrderly(chans: seq<Channel>) {
    forall c :: 0 <= c < |chans| ==> CloseComesLast(chans[c])
  }

  predicate SessionUnclosed(rep: Replica, chans: seq<Channel>) {
    InSession(rep.local.pc) && rep.chan < |chans| ==> NoClose(chans[rep.chan])
  }

  ghost predicate Orderly(s: System) {
    && WiresOrderly(s.chans)
    && forall i :: 0 <= i < |s.reps| ==> SessionUnclosed(s.reps[i], s.chans)
  }

  // -------------------------------------------------------------- order on the wire

  lemma PushOrder(chan: Channel, f: Frame)
    requires NoClose(chan)
    ensures CloseComesLast(Push(chan, f)) && (f.Settlement? ==> NoClose(Push(chan, f)))
  {
  }

  lemma EffectOrder(chan: Channel, pc: Pc, e: Event, reaches: bool)
    requires NoClose(chan)
    ensures var chan' := ChannelEffect(chan, pc, e, reaches);
            CloseComesLast(chan') && (!e.CloseChannel? ==> NoClose(chan'))
  {
    match e {
      case Settle(kind, tag, _) =>
        if InHand(pc).Some? {
          PushOrder(chan.(tried := chan.tried + 1), Settlement(kind, tag, InHand(pc).value.msg));
        }
      case CloseChannel => PushOrder(chan, Close);
      case _ =>
    }
  }

  /** No two replicas share a session. */
  lemma OwnSession(s: System, i: nat, j: nat)
    requires Inv(s) && i < |s.reps| && j < |s.reps| && i != j
    requires InSession(s.reps[i].local.pc) && InSession(s.reps[j].local.pc)
    ensures s.reps[i].chan != s.reps[j].chan
  {
    assert ReplicaOk(i, s.reps[i], s.chans, s.log) && ReplicaOk(j, s.reps[j], s.chans, s.log);
  }

  lemma ActWires(cfg: Config, s: System, i: nat, e: Event, reaches: bool)
    requires CanAct(cfg, s, i, e) && Orderly(s)
    ensures WiresOrderly(Perform(cfg, s, i, e, reaches).chans)
  {
    var local := LocalAfter(cfg, s, i, e);
    var s' := Moved(s, i, e, reaches, local);
    forall c | 0 <= c < |s'.chans|
      ensures CloseComesLast(s'.chans[c])
    {
      MovedChannel(s, i, e, reaches, local, c);
      if c < |s.chans| && InSession(s.reps[i].local.pc) && s.reps[i].chan == c {
        assert SessionUnclosed(s.reps[i], s.chans);
        EffectOrder(s.chans[c], s.reps[i].local.pc, e, reaches);
      }
    }
  }

  lemma ActSelf(cfg: Config, s: System, i: nat, e: Event, reaches: bool)
    requires CanAct(cfg, s, i, e) && Orderly(s)
    ensures var s' := Perform(cfg, s, i, e, reaches); SessionUnclosed(s'.reps[i], s'.chans)
  {
    ActLocal(cfg, s, i, e);
    var rep := s.reps[i];
    assert SessionUnclosed(rep, s.chans);
    if InSession(rep.local.pc) && rep.chan < |s.chans| {
      EffectOrder(s.chans[rep.chan], rep.local.pc, e, reaches);
    }
    SelfAfter(s, i, e, reaches, LocalAfter(cfg, s, i, e));
  }

  lemma SelfAfter(s: System, i: nat, e: Event, reaches: bool, local: State)
    requires i < |s.reps| && SessionStep(s.reps[i].local, e, local)
    requires var rep := s.reps[i];
             InSession(rep.local.pc) && rep.chan < |s.chans| && !e.CloseChannel? ==>
               NoClose(ChannelEffect(s.chans[rep.chan], rep.local.pc, e, reaches))
    ensures var s' := Moved(s, i, e, reaches, local); SessionUnclosed(s'.reps[i], s'.chans)
  {
  }

  lemma ActOther(cfg: Config, s: System, i: nat, e: Event, reaches: bool, j: nat)
    requires CanAct(cfg, s, i, e) && Orderly(s) && j < |s.reps| && j != i
    ensures var s' := Perform(cfg, s, i, e, reaches);
            s'.reps[j] == s.reps[j] && SessionUnclosed(s'.reps[j], s'.chans)
  {
    var local := LocalAfter(cfg, s, i, e);
    assert SessionUnclosed(s.reps[j], s.chans);
    if InSession(s.reps[j].local.pc) {
      assert ReplicaOk(j, s.reps[j], s.chans, s.log);
      MovedRecords(s, i, e, reaches, local);
      MovedChannel(s, i, e, reaches, local, s.reps[j].chan);
      if InSession(s.reps[i].local.pc) {
        OwnSession(s, i, j);
      }
    }
  }

  lemma ActOrderly(cfg: Config, s: System, i: nat, e: Event, reaches: bool)
    requires CanAct(cfg, s, i, e) && Orderly(s)
    ensures Orderly(Perform(cfg, s, i, e, reaches))
  {
    ActWires(cfg, s, i, e, reaches);
    var s' := Perform(cfg, s, i, e, reaches);
    forall j | 0 <= j < |s'.reps|
      ensures SessionUnclosed(s'.reps[j], s'.chans)
    {
      if j == i {
        ActSelf(cfg, s, i, e, reaches);
      } else {
        ActOther(cfg, s, i, e, reaches, j);
      }
    }
  }

  lemma ProcessOrderly(s: System, c: nat)
    requires Orderly(s) && c < |s.chans| && s.chans[c].wire != []
    ensures Orderly(ProcessFrame(s, c))
  {
    var s' := ProcessFrame(s, c);
    assert s'.chans[c].wire == [] || s'.chans[c].wire == s.chans[c].wire[1..];
    assert forall j :: 0 <= j < |s.chans| && j != c ==> s'.chans[j] == s.chans[j];
    forall i | 0 <= i < |s'.reps|
      ensures SessionUnclosed(s'.reps[i], s'.chans)
    {
      assert SessionUnclosed(s.reps[i], s.chans);
    }
  }

  lemma OrderlyStep(cfg: Config, s: System, step: Step, s': System)
    requires Inv(s) && Orderly(s) && Apply(cfg, s, step) == Some(s')
    ensures Orderly(s')
  {
    match step {
      case Act(i, e, reaches) => ActOrderly(cfg, s, i, e, reaches);
      case Process(c) => ProcessOrderly(s, c);
      case _ => QuietOrderly(cfg, s, step, s');
    }
  }

  lemma QuietOrderly(cfg: Config, s: System, step: Step, s': System)
    requires Orderly(s) && Apply(cfg, s, step) == Some(s') && !step.Act? && !step.Process?
    ensures Orderly(s')
  {
    forall i | 0 <= i < |s'.reps|
      ensures SessionUnclosed(s'.reps[i], s'.chans)
    {
      assert SessionUnclosed(s.reps[i], s.chans);
    }
  }

  lemma {:induction false} ReachableOrderly(cfg: Config, replicas: nat, steps: seq<Step>, s: System)
    requires Reachable(cfg, replicas, steps, s)
    ensures Orderly(s)
  {
    if steps != [] {
      var before := LastState(cfg, replicas, steps, s);
      ReachableOrderly(cfg, replicas, steps[..|steps| - 1], before);
      OrderlyStep(cfg, before, steps[|steps| - 1], s);
    }
  }

  // --------------------------------------------------------------- reading the wire

  lemma RunOn(cfg: Config, replicas: nat, steps: seq<Step>, s: System, step: Step, s': System)
    requires Reachable(cfg, replicas, steps, s) && Apply(cfg, s, step) == Some(s')
    ensures Reachable(cfg, replicas, steps + [step], s')
  {
    assert (steps + [step])[..|steps|] == steps;
  }

  predicate Reads(steps: seq<Step>, c: nat) {
    forall i :: 0 <= i < |steps| ==> steps[i] == Process(c)
  }

  /** The broker's verdict on one delivery: acked, or back in the queue. */
  ghost predicate TookEffect(s: System, key: Key, kind: Kind, msg: nat) {
    && key !in s.broker.unacked
    && match kind
       case Ack => key in s.log.acks && s.log.acks[key] == msg && msg in s.broker.acked
       case Nack => msg in s.broker.ready
  }

  /** Deliveries have left the record, and nothing has been added to it or to the queue's intake. */
  ghost predicate OnlyTaken(b: Broker, b': Broker) {
    Within(b'.unacked, b.unacked) && b'.enqueued == b.enqueued
  }

  /** Reading a settlement settles its delivery; nothing else leaves the record. */
  lemma ReadOne(s: System, c: nat)
    requires Inv(s) && c < |s.chans| && s.chans[c].open
    requires s.chans[c].wire != [] && s.chans[c].wire[0].Settlement?
    ensures var s', f := ProcessFrame(s, c), s.chans[c].wire[0];
            && |s'.chans| == |s.chans| && s'.chans[c] == s.chans[c].(wire := s.chans[c].wire[1..])
            && TookEffect(s', Key(c, f.tag), f.kind, f.meant)
            && OnlyTaken(s.broker, s'.broker)
  {
    assert ChannelOk(c, s.chans[c], s.broker, s.log);
    assert FrameOk(c, s.chans[c].wire[0], s.chans[c].tried, s.broker, s.log);
  }

  lemma ReadFirst(cfg: Config, replicas: nat, steps: seq<Step>, s: System, c: nat) returns (s': System)
    requires Reachable(cfg, replicas, steps, s) && c < |s.chans| && s.chans[c].open
    requires s.chans[c].wire != [] && s.chans[c].wire[0].Settlement?
    ensures Reachable(cfg, replicas, steps + [Process(c)], s')
    ensures var f := s.chans[c].wire[0]; TookEffect(s', Key(c, f.tag), f.kind, f.meant)
    ensures c < |s'.chans| && s'.chans[c] == s.chans[c].(wire := s.chans[c].wire[1..])
    ensures OnlyTaken(s.broker, s'.broker)
  {
    ReachableInv(cfg, replicas, steps, s);
    s' := ProcessFrame(s, c);
    ReadOne(s, c);
    RunOn(cfg, replicas, steps, s, Process(c), s');
  }

  /** The broker reads a settlement at position x after x + 1 steps, and it takes effect. */
  lemma {:induction false} ReadUpTo(cfg: Config, replicas: nat, steps: seq<Step>, s: System, c: nat, x: nat)
      returns (more: seq<Step>, s': System)
    requires Reachable(cfg, replicas, steps, s) && c < |s.chans| && s.chans[c].open
    requires x < |s.chans[c].wire| && s.chans[c].wire[x].Settlement? && CloseComesLast(s.chans[c])
    ensures Reads(more, c) && Reachable(cfg, replicas, steps + more, s')
    ensures var f := s.chans[c].wire[x]; TookEffect(s', Key(c, f.tag), f.kind, f.meant)
    ensures c < |s'.chans| && s'.chans[c] == s.chans[c].(wire := s.chans[c].wire[x + 1..])
    ensures OnlyTaken(s.broker, s'.broker)
    decreases x
  {
    var wire := s.chans[c].wire;
    var s1 := ReadFirst(cfg, replicas, steps, s, c);
    more, s' := [Process(c)], s1;
    if x > 0 {
      assert forall y :: 0 <= y < |wire| - 1 ==> wire[1..][y] == wire[y + 1];
      var rest;
      rest, s' := ReadUpTo(cfg, replicas, steps + more, s1, c, x - 1);
      assert wire[1..][x..] == wire[x + 1..];
      assert steps + (more + rest) == steps + more + rest;
      more := more + rest;
    }
  }

  lemma SettlePush(chan: Channel, pc: Pc, e: Event, reaches: bool)
    requires e.Settle? && InHand(pc).Some? && chan.open
    ensures var chan', f := ChannelEffect(chan, pc, e, reaches), Settlement(e.kind, e.tag, InHand(pc).value.msg);
            && chan'.open
            && chan'.wire == chan.wire + (if e.ok || reaches then [f] else [])
  {
  }

  /** A settlement call on a living channel puts exactly its frame on the wire when it
      succeeds, and does or does not when it fails. */
  lemma SettlementIsSent(cfg: Config, s: System, i: nat, e: Event, reaches: bool)
    requires CanAct(cfg, s, i, e) && e.Settle?
    requires s.reps[i].chan < |s.chans| && s.chans[s.reps[i].chan].open
    ensures InHand(s.reps[i].local.pc).Some?
    ensures var c, msg := s.reps[i].chan, InHand(s.reps[i].local.pc).value.msg;
            var chan' := Perform(cfg, s, i, e, reaches).chans[c];
            && chan'.open
            && chan'.wire == s.chans[c].wire + (if e.ok || reaches then [Settlement(e.kind, e.tag, msg)] else [])
  {
    ActLocal(cfg, s, i, e);
    var rep := s.reps[i];
    SettlePush(s.chans[rep.chan], rep.local.pc, e, reaches);
    MovedChannel(s, i, e, reaches, LocalAfter(cfg, s, i, e), rep.chan);
  }

  /** Settlements take effect. Whatever state the system is in, once a replica's ack has
      succeeded on a living channel the broker has only to read on: its message is then acked
      under that delivery's tag; after a nack it is back in the queue. */
  lemma SettlementTakesEffect(cfg: Config, replicas: nat, steps: seq<Step>, s: System,
                              i: nat, e: Event, reaches: bool)
      returns (d: Delivery, more: seq<Step>, s': System)
    requires Reachable(cfg, replicas, steps, s) && Apply(cfg, s, Act(i, e, reaches)).Some?
    requires e.Settle? && (e.ok || reaches)
    requires s.reps[i].chan < |s.chans| && s.chans[s.reps[i].chan].open
    ensures InHand(s.reps[i].local.pc) == Some(d) && e.tag == d.tag
    ensures Reads(more, s.reps[i].chan) && Reachable(cfg, replicas, steps + [Act(i, e, reaches)] + more, s')
    ensures Key(s.reps[i].chan, d.tag) !in s'.broker.unacked
    ensures e.kind == Ack ==> Key(s.reps[i].chan, d.tag) in s'.log.acks && d.msg in s'.broker.acked
    ensures e.kind == Nack ==> d.msg in s'.broker.ready
  {
    ReachableInv(cfg, replicas, steps, s);
    ActLocal(cfg, s, i, e);
    d := InHand(s.reps[i].local.pc).value;
    var c := s.reps[i].chan;
    var s1 := Perform(cfg, s, i, e, reaches);
    SettlementIsSent(cfg, s, i, e, reaches);
    RunOn(cfg, replicas, steps, s, Act(i, e, reaches), s1);
    ReachableOrderly(cfg, replicas, steps + [Act(i, e, reaches)], s1);
    MovedRecords(s, i, e, reaches, LocalAfter(cfg, s, i, e));
    more, s' := ReadUpTo(cfg, replicas, steps + [Act(i, e, reaches)], s1, c, |s.chans[c].wire|);
  }

  // --------------------------------------------------------------- closing a channel

  lemma CloseIsSent(cfg: Config, s: System, i: nat, reaches: bool)
    requires CanAct(cfg, s, i, CloseChannel) && InSession(s.reps[i].local.pc)
    requires s.reps[i].chan < |s.chans| && s.chans[s.reps[i].chan].open
    ensures var c := s.reps[i].chan;
            var s' := Perform(cfg, s, i, CloseChannel, reaches);
            && c < |s'.chans| && s'.chans[c] == s.chans[c].(wire := s.chans[c].wire + [Close])
            && s'.broker == s.broker
  {
    MovedChannel(s, i, CloseChannel, reaches, LocalAfter(cfg, s, i, CloseChannel), s.reps[i].chan);
    MovedRecords(s, i, CloseChannel, reaches, LocalAfter(cfg, s, i, CloseChannel));
  }

  lemma ReadClose(cfg: Config, replicas: nat, steps: seq<Step>, s: System, c: nat) returns (s': System)
    requires Reachable(cfg, replicas, steps, s) && c < |s.chans| && s.chans[c].open && s.chans[c].wire == [Close]
    ensures Reachable(cfg, replicas, steps + [Process(c)], s')
    ensures c < |s'.chans| && !s'.chans[c].open && OnlyTaken(s.broker, s'.broker)
  {
    s' := ProcessFrame(s, c);
    RunOn(cfg, replicas, steps, s, Process(c), s');
  }

  /** The broker reads everything up to a close, and closes. */
  lemma ReadToClose(cfg: Config, replicas: nat, steps: seq<Step>, s: System, c: nat)
      returns (more: seq<Step>, s': System)
    requires Reachable(cfg, replicas, steps, s) && c < |s.chans| && s.chans[c].open && CloseComesLast(s.chans[c])
    requires var wire := s.chans[c].wire; wire != [] && wire[|wire| - 1] == Close
    ensures Reads(more, c) && Reachable(cfg, replicas, steps + more, s')
    ensures c < |s'.chans| && !s'.chans[c].open && OnlyTaken(s.broker, s'.broker)
  {
    var wire := s.chans[c].wire;
    if |wire| == 1 {
      s' := ReadClose(cfg, replicas, steps, s, c);
      more := [Process(c)];
    } else {
      var first, s1 := ReadUpTo(cfg, replicas, steps, s, c, |wire| - 2);
      assert wire[|wire| - 1..] == [Close];
      s' := ReadClose(cfg, replicas, steps + first, s1, c);
      more := first + [Process(c)];
      assert steps + more == steps + first + [Process(c)];
    }
  }

  lemma HeldOnce(s: System, k: Key)
    requires Inv(s) && k in s.broker.unacked
    ensures s.broker.unacked[k] in s.broker.enqueued && Holders(s.broker.unacked, s.broker.unacked[k]) == {k}
  {
    var msg := s.broker.unacked[k];
    PlacesSum(s.broker, msg);
    assert k in Holders(s.broker.unacked, msg);
    assert |Holders(s.broker.unacked, msg)| <= 1;
    assert |Holders(s.broker.unacked, msg) - {k}| == |Holders(s.broker.unacked, msg)| - 1;
  }

  lemma Placed(s: System, s': System, k: Key)
    requires Inv(s) && Inv(s') && k in s.broker.unacked && k !in s'.broker.unacked
    requires OnlyTaken(s.broker, s'.broker)
    ensures (s.broker.unacked[k] in s'.broker.ready) != (s.broker.unacked[k] in s'.broker.acked)
  {
    var msg := s.broker.unacked[k];
    HeldOnce(s, k);
    assert Holders(s'.broker.unacked, msg) <= Holders(s.broker.unacked, msg);
    assert Holders(s'.broker.unacked, msg) == {};
    PlacesSum(s'.broker, msg);
  }

  /** Closing a session loses nothing. Once the broker has read as far as the close the
      channel is gone, and every delivery that was still on record there is acked, if an ack
      was on its way, or back in the queue. */
  lemma CloseReturnsTheRest(cfg: Config, replicas: nat, steps: seq<Step>, s: System, i: nat, reaches: bool)
      returns (more: seq<Step>, s': System)
    requires Reachable(cfg, replicas, steps, s) && Apply(cfg, s, Act(i, CloseChannel, reaches)).Some?
    requires InSession(s.reps[i].local.pc)
    requires s.reps[i].chan < |s.chans| && s.chans[s.reps[i].chan].open
    ensures var c := s.reps[i].chan;
            && Reads(more, c) && Reachable(cfg, replicas, steps + [Act(i, CloseChannel, reaches)] + more, s')
            && c < |s'.chans| && !s'.chans[c].open
            && forall k :: k in s.broker.unacked && k.chan == c ==>
                 k !in s'.broker.unacked
                 && (s.broker.unacked[k] in s'.broker.ready) != (s.broker.unacked[k] in s'.broker.acked)
  {
    var c := s.reps[i].chan;
    var act := Act(i, CloseChannel, reaches);
    var s1 := Perform(cfg, s, i, CloseChannel, reaches);
    ReachableInv(cfg, replicas, steps, s);
    CloseIsSent(cfg, s, i, reaches);
    RunOn(cfg, replicas, steps, s, act, s1);
    ReachableOrderly(cfg, replicas, steps + [act], s1);
    more, s' := ReadToClose(cfg, replicas, steps + [act], s1, c);
    ReachableInv(cfg, replicas, steps + [act] + more, s');
    assert ChannelOk(c, s'.chans[c], s'.broker, s'.log);
    forall k | k in s.broker.unacked && k.chan == c
      ensures k !in s'.broker.unacked
      ensures (s.broker.unacked[k] in s'.broker.ready) != (s.broker.unacked[k] in s'.broker.acked)
    {
      assert k == Key(c, k.tag);
      Placed(s, s', k);
    }
  }

  /** A channel's death does the same to everything on record there, and to nothing else;
      what was on its way is lost. */
  lemma DeathReturnsTheRest(cfg: Config, s: System, c: nat, s': System)
    requires Apply(cfg, s, Die(c)) == Some(s')
    ensures c < |s'.chans| && !s'.chans[c].open && s'.chans[c].wire == []
    ensures forall k :: k in s.broker.unacked && k.chan == c ==>
              k !in s'.broker.unacked && s.broker.unacked[k] in s'.broker.ready
    ensures forall k :: k in s.broker.unacked && k.chan != c ==>
              k in s'.broker.unacked && s'.broker.unacked[k] == s.broker.unacked[k]
    ensures s'.broker.acked == s.broker.acked && s'.reps == s.reps
  {
    forall k | k in s.broker.unacked && k.chan == c
      ensures s.broker.unacked[k] in s'.broker.ready
    {
      Requeues(s, c, k);
    }
  }
}
