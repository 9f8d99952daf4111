/** Replicas competing for one durable queue. The broker keeps the queue and, for each
    channel, the deliveries it has not seen settled (AMQP 0-9-1, section 3.1.8); a
    replica acts by the events of its protocol; everything in between, and the fate
    of frames on a dying connection, is a separate step that may fall anywhere. */
module Cluster {
  import opened Results
  import opened Protocol
  import opened Bags

  /** A delivery tag and the channel that scopes it. */
  datatype Key = Key(chan: nat, tag: nat)

  /** A frame travelling to the broker. The broker reads kind and tag only; meant is
      the message the replica is settling. */
  datatype Frame = Settlement(kind: Kind, tag: nat, meant: nat) | Close

  /** One channel: deliveries sent on it, taken from its stream by the replica, and
      settled or attempted by the replica; and the frames not yet processed. */
  datatype Channel = Channel(owner: nat, open: bool, sent: nat, got: nat, tried: nat, wire: seq<Frame>)

  datatype Replica = Replica(local: State, cancelled: bool, chan: nat)

  /** The broker's state, and what it has done so far, message by message. */
  datatype Broker = Broker(
    ready: multiset<nat>,
    unacked: map<Key, nat>,
    acked: multiset<nat>,
    enqueued: multiset<nat>,
    delivered: multiset<nat>,
    requeued: multiset<nat>)

  /** What happened to each delivery, and every successful publication. */
  datatype Log = Log(
    sent: map<Key, nat>,
    posts: map<Key, nat>,
    acks: map<Key, nat>,
    outcomes: map<Key, Outcome>,
    published: multiset<nat>)

  datatype System = System(chans: seq<Channel>, reps: seq<Replica>, broker: Broker, log: Log)

  datatype Step =
    | Enqueue(msg: nat)
    | Deliver(chan: nat, msg: nat)
    | Process(chan: nat)
    | Die(chan: nat)
    | Cancel(rep: nat)
    | Act(rep: nat, event: Event, reaches: bool)

  const EMPTY := Broker(multiset{}, map[], multiset{}, multiset{}, multiset{}, multiset{})
  const BLANK_LOG := Log(map[], map[], map[], map[], multiset{})

  function Init(replicas: nat): System {
    System([], seq(replicas, _ => Replica(START, false, 0)), EMPTY, BLANK_LOG)
  }

  // ---------------------------------------------------------------- broker steps

  function OnChannel(unacked: map<Key, nat>, c: nat): set<Key> {
    set k | k in unacked && k.chan == c
  }

  /** The broker closes a channel: everything unacked on it goes back to the queue and
      frames not yet processed are lost. */
  ghost function Kill(s: System, c: nat): System
    requires c < |s.chans|
  {
    var keys := OnChannel(s.broker.unacked, c);
    var back := Bag(Restrict(s.broker.unacked, keys));
    s.(chans := s.chans[c := s.chans[c].(open := false, wire := [])],
       broker := s.broker.(ready := s.broker.ready + back,
                           unacked := Without(s.broker.unacked, keys),
                           requeued := s.broker.requeued + back))
  }

  ghost function Send(s: System, c: nat, msg: nat): System
    requires c < |s.chans|
  {
    var key := Key(c, s.chans[c].sent + 1);
    s.(chans := s.chans[c := s.chans[c].(sent := key.tag)],
       broker := SendBroker(s.broker, key, msg),
       log := SendLog(s.log, key, msg))
  }

  function SendBroker(b: Broker, key: Key, msg: nat): Broker {
    b.(ready := b.ready - multiset{msg},
       unacked := b.unacked[key := msg],
       delivered := b.delivered + multiset{msg})
  }

  function SendLog(log: Log, key: Key, msg: nat): Log {
    log.(sent := log.sent[key := msg])
  }

  /** The broker settles the delivery its own record holds under the frame's tag. */
  ghost function SettleAt(s: System, key: Key, kind: Kind): System
    requires key in s.broker.unacked
  {
    var msg := s.broker.unacked[key];
    var rest := Drop(s.broker.unacked, key);
    match kind
    case Ack =>
      s.(broker := s.broker.(unacked := rest, acked := s.broker.acked + multiset{msg}),
         log := s.log.(acks := s.log.acks[key := msg]))
    case Nack =>
      s.(broker := s.broker.(unacked := rest,
                             ready := s.broker.ready + multiset{msg},
                             requeued := s.broker.requeued + multiset{msg}))
  }

  /** The broker reads the next frame of a channel. An unknown tag is a channel error. */
  ghost function ProcessFrame(s: System, c: nat): System
    requires c < |s.chans| && s.chans[c].wire != []
  {
    var chan := s.chans[c];
    match chan.wire[0]
    case Close => Kill(s, c)
    case Settlement(kind, tag, _) =>
      if Key(c, tag) !in s.broker.unacked then Kill(s, c)
      else
        var settled := SettleAt(s, Key(c, tag), kind);
        settled.(chans := s.chans[c := chan.(wire := chan.wire[1..])])
  }

  // --------------------------------------------------------------- replica steps

  /** What the environment allows the event to report. A stream may end whatever the
      broker holds: the client can give a connection up, or have its consumer cancelled,
      while the broker still has the channel open. */
  predicate Possible(s: System, rep: Replica, e: Event) {
    && (match e
        case Check(cancelled) => cancelled == rep.cancelled
        case _ => CausedByCancel(e) ==> rep.cancelled)
    && (e.Receive? || e.DrainOne? ==>
          && rep.chan < |s.chans|
          && s.chans[rep.chan].got < s.chans[rep.chan].sent
          && e.d.tag == s.chans[rep.chan].got + 1
          && Key(rep.chan, e.d.tag) in s.log.sent
          && e.d.msg == s.log.sent[Key(rep.chan, e.d.tag)])
  }

  function Push(chan: Channel, f: Frame): Channel {
    if chan.open then chan.(wire := chan.wire + [f]) else chan
  }

  /** A settlement call whose success was reported put a frame on an open channel; one
      that reported failure may or may not have. */
  function SettleCall(chan: Channel, f: Frame, ok: bool, reaches: bool): Channel {
    var counted := chan.(tried := chan.tried + 1);
    if ok || reaches then Push(counted, f) else counted
  }

  /** The effect of an event on the replica's channel. */
  function ChannelEffect(chan: Channel, pc: Pc, e: Event, reaches: bool): Channel {
    match e
    case Receive(_) => chan.(got := chan.got + 1)
    case DrainOne(_) => chan.(got := chan.got + 1)
    case Settle(kind, tag, ok) =>
      if InHand(pc).Some? then SettleCall(chan, Settlement(kind, tag, InHand(pc).value.msg), ok, reaches) else chan
    case CloseChannel => Push(chan, Close)
    case _ => chan
  }

  /** What an event adds to the log for the delivery in hand. */
  ghost function LogEffect(log: Log, key: Key, pc: Pc, e: Event): Log {
    if e.Publish? && e.publish.Accepted? && InHand(pc).Some? then
      log.(posts := log.posts[key := InHand(pc).value.msg],
           published := log.published + multiset{InHand(pc).value.msg})
    else if e.Settle? && e.kind == Ack && pc.Sending? then
      log.(outcomes := log.outcomes[key := pc.outcome])
    else log
  }

  function HandKey(rep: Replica): Key {
    Key(rep.chan, if InHand(rep.local.pc).Some? then InHand(rep.local.pc).value.tag else 0)
  }

  /** Replica i performs the event, which leaves it in the given protocol state. */
  ghost function Moved(s: System, i: nat, e: Event, reaches: bool, local: State): System
    requires i < |s.reps|
  {
    var rep := s.reps[i];
    if e == Declare(Consume, true) then
      s.(chans := s.chans + [Channel(i, true, 0, 0, 0, [])],
         reps := s.reps[i := rep.(local := local, chan := |s.chans|)])
    else if InSession(rep.local.pc) && rep.chan < |s.chans| then
      s.(chans := s.chans[rep.chan := ChannelEffect(s.chans[rep.chan], rep.local.pc, e, reaches)],
         reps := s.reps[i := rep.(local := local)],
         log := LogEffect(s.log, HandKey(rep), rep.local.pc, e))
    else
      s.(reps := s.reps[i := rep.(local := local)])
  }

  ghost function Perform(cfg: Config, s: System, i: nat, e: Event, reaches: bool): System
    requires i < |s.reps| && Next(cfg, s.reps[i].local, e).Some?
  {
    Moved(s, i, e, reaches, Next(cfg, s.reps[i].local, e).value)
  }

  ghost function Apply(cfg: Config, s: System, step: Step): Option<System> {
    match step
    case Enqueue(msg) =>
      if msg in s.broker.enqueued then None
      else Some(s.(broker := s.broker.(enqueued := s.broker.enqueued + multiset{msg},
                                       ready := s.broker.ready + multiset{msg})))
    case Deliver(c, msg) =>
      if c < |s.chans| && s.chans[c].open && msg in s.broker.ready then Some(Send(s, c, msg)) else None
    case Process(c) =>
      if c < |s.chans| && s.chans[c].open && s.chans[c].wire != [] then Some(ProcessFrame(s, c)) else None
    case Die(c) =>
      if c < |s.chans| && s.chans[c].open then Some(Kill(s, c)) else None
    case Cancel(i) =>
      if i < |s.reps| then Some(s.(reps := s.reps[i := s.reps[i].(cancelled := true)])) else None
    case Act(i, e, reaches) =>
      if i < |s.reps| && Next(cfg, s.reps[i].local, e).Some? && Possible(s, s.reps[i], e)
      then Some(Perform(cfg, s, i, e, reaches)) else None
  }

  ghost function Exec(cfg: Config, replicas: nat, steps: seq<Step>): Option<System> {
    if steps == [] then Some(Init(replicas))
    else
      match Exec(cfg, replicas, steps[..|steps| - 1])
      case None => None
      case Some(s) => Apply(cfg, s, steps[|steps| - 1])
  }

  // ------------------------------------------------------------------- invariant

  /** Nothing is lost or duplicated at the broker. */
  ghost predicate Conserved(b: Broker) {
    && b.ready + Bag(b.unacked) + b.acked == b.enqueued
    && b.delivered + b.ready == b.enqueued + b.requeued
    && (forall m :: m in b.enqueued ==> b.enqueued[m] == 1)
  }

  ghost predicate Within(part: map<Key, nat>, whole: map<Key, nat>) {
    forall k :: k in part ==> k in whole && whole[k] == part[k]
  }

  ghost predicate Logged(b: Broker, log: Log) {
    && b.delivered == Bag(log.sent)
    && b.acked == Bag(log.acks)
    && log.published == Bag(log.posts)
    && Within(b.unacked, log.sent)
    && Within(log.posts, log.sent)
    && Within(log.acks, log.sent)
    && (forall k :: k in log.acks ==> k !in b.unacked && k in log.outcomes)
    && (forall k :: k in log.outcomes ==> Completed(log.outcomes[k]) && k in log.sent)
  }

  ghost predicate WireOk(c: nat, chan: Channel, b: Broker, log: Log) {
    && (forall x :: 0 <= x < |chan.wire| && chan.wire[x].Settlement? ==>
          FrameOk(c, chan.wire[x], chan.tried, b, log))
    && (forall x, y :: 0 <= x < y < |chan.wire| && chan.wire[x].Settlement? && chan.wire[y].Settlement? ==>
          chan.wire[x].tag < chan.wire[y].tag)
  }

  /** A settlement on its way will settle the message it is meant for; an ack will
      settle a delivery whose pipeline completed. */
  ghost predicate FrameOk(c: nat, f: Frame, tried: nat, b: Broker, log: Log)
    requires f.Settlement?
  {
    && f.tag <= tried
    && Key(c, f.tag) in b.unacked && b.unacked[Key(c, f.tag)] == f.meant
    && (f.kind == Ack ==> Key(c, f.tag) in log.outcomes)
  }

  ghost predicate ChannelOk(c: nat, chan: Channel, b: Broker, log: Log) {
    && chan.tried <= chan.got <= chan.sent
    && chan.got <= chan.tried + 1
    && (forall t: nat :: Key(c, t) in log.sent <==> 1 <= t <= chan.sent)
    && (chan.open ==> forall t: nat :: chan.tried < t <= chan.sent ==> Key(c, t) in b.unacked)
    && (!chan.open ==> chan.wire == [] && forall t: nat :: Key(c, t) !in b.unacked)
    && (forall t: nat :: Key(c, t) in log.posts ==> t <= chan.got)
    && WireOk(c, chan, b, log)
  }

  ghost predicate ReplicaOk(i: nat, rep: Replica, chans: seq<Channel>, log: Log) {
    && Consistent(rep.local)
    && (rep.local.seen ==> rep.cancelled)
    && (InSession(rep.local.pc) ==> rep.chan < |chans| && HandOk(i, rep, chans[rep.chan], log))
  }

  ghost predicate HandOk(i: nat, rep: Replica, chan: Channel, log: Log) {
    && chan.owner == i
    && match InHand(rep.local.pc)
       case None => chan.got == chan.tried
       case Some(d) =>
         && chan.got == chan.tried + 1
         && d.tag == chan.got
         && Key(rep.chan, d.tag) in log.sent && log.sent[Key(rep.chan, d.tag)] == d.msg
         && (Key(rep.chan, d.tag) in log.posts ==> rep.local.pc.Settling? || rep.local.pc.Sending?)
  }

  ghost predicate Inv(s: System) {
    && Conserved(s.broker)
    && Logged(s.broker, s.log)
    && ChannelsOk(s.chans, s.broker, s.log)
    && KnownChannels(s.log, |s.chans|)
    && ReplicasOk(s.reps, s.chans, s.log)
  }

  ghost predicate ChannelsOk(chans: seq<Channel>, b: Broker, log: Log) {
    forall c :: 0 <= c < |chans| ==> ChannelOk(c, chans[c], b, log)
  }

  ghost predicate KnownChannels(log: Log, n: nat) {
    forall k :: k in log.sent ==> k.chan < n
  }

  ghost predicate ReplicasOk(reps: seq<Replica>, chans: seq<Channel>, log: Log) {
    forall i :: 0 <= i < |reps| ==> ReplicaOk(i, reps[i], chans, log)
  }

  lemma InitInv(replicas: nat)
    ensures Inv(Init(replicas))
  {
  }

  // ------------------------------------------------------- preservation: framing

  /** Two broker records and logs that agree about one channel. */
  ghost predicate Agree(c: nat, b: Broker, log: Log, b': Broker, log': Log) {
    forall t: nat ::
      && (Key(c, t) in b.unacked <==> Key(c, t) in b'.unacked)
      && (Key(c, t) in b.unacked ==> b.unacked[Key(c, t)] == b'.unacked[Key(c, t)])
      && (Key(c, t) in log.sent <==> Key(c, t) in log'.sent)
      && (Key(c, t) in log.posts <==> Key(c, t) in log'.posts)
      && (Key(c, t) in log.outcomes ==> Key(c, t) in log'.outcomes)
  }

  lemma ChannelFrame(c: nat, chan: Channel, b: Broker, log: Log, b': Broker, log': Log)
    requires ChannelOk(c, chan, b, log) && Agree(c, b, log, b', log')
    ensures ChannelOk(c, chan, b', log')
  {
  }

  /** A replica depends only on its own channel's counters and its own delivery's log. */
  lemma ReplicaFrame(i: nat, rep: Replica, chans: seq<Channel>, log: Log, chans': seq<Channel>, log': Log)
    requires ReplicaOk(i, rep, chans, log)
    requires |chans| <= |chans'|
    requires InSession(rep.local.pc) && rep.chan < |chans| ==>
               var old_, new_ := chans[rep.chan], chans'[rep.chan];
               old_.owner == new_.owner && old_.got == new_.got && old_.tried == new_.tried
    requires forall k :: k in log.sent ==> k in log'.sent && log'.sent[k] == log.sent[k]
    requires InSession(rep.local.pc) ==>
               forall t: nat :: Key(rep.chan, t) in log'.posts ==> Key(rep.chan, t) in log.posts
    ensures ReplicaOk(i, rep, chans', log')
  {
  }

  // -------------------------------------------------- preservation: broker steps

  lemma SumShift(a: multiset<nat>, b: multiset<nat>, c: multiset<nat>, d: multiset<nat>, x: multiset<nat>)
    requires a + b == c + d
    ensures a + (b + x) == c + (d + x)
    ensures a + (b + x) == (c + x) + d
  {
    assert a + (b + x) == (a + b) + x;
    assert (c + d) + x == c + (d + x) == (c + x) + d;
  }

  lemma EnqueueConserves(b: Broker, msg: nat)
    requires Conserved(b) && msg !in b.enqueued
    ensures Conserved(b.(enqueued := b.enqueued + multiset{msg}, ready := b.ready + multiset{msg}))
  {
    SumShift(b.delivered, b.ready, b.enqueued, b.requeued, multiset{msg});
  }

  lemma EnqueueInv(s: System, msg: nat)
    requires Inv(s) && msg !in s.broker.enqueued
    ensures Inv(s.(broker := s.broker.(enqueued := s.broker.enqueued + multiset{msg},
                                       ready := s.broker.ready + multiset{msg})))
  {
    var b' := s.broker.(enqueued := s.broker.enqueued + multiset{msg}, ready := s.broker.ready + multiset{msg});
    EnqueueConserves(s.broker, msg);
    forall c | 0 <= c < |s.chans|
      ensures ChannelOk(c, s.chans[c], b', s.log)
    {
      ChannelFrame(c, s.chans[c], s.broker, s.log, b', s.log);
    }
  }

  lemma KillConserves(b: Broker, c: nat)
    requires Conserved(b)
    ensures var keys := OnChannel(b.unacked, c);
            var back := Bag(Restrict(b.unacked, keys));
            Conserved(b.(ready := b.ready + back, unacked := Without(b.unacked, keys), requeued := b.requeued + back))
  {
    var keys := OnChannel(b.unacked, c);
    BagSplit(b.unacked, keys);
    SumShift(b.delivered, b.ready, b.enqueued, b.requeued, Bag(Restrict(b.unacked, keys)));
  }

  lemma KillInv(s: System, c: nat)
    requires Inv(s) && c < |s.chans|
    ensures Inv(Kill(s, c))
  {
    var s' := Kill(s, c);
    KillConserves(s.broker, c);
    forall j | 0 <= j < |s.chans|
      ensures ChannelOk(j, s'.chans[j], s'.broker, s'.log)
    {
      assert ChannelOk(j, s.chans[j], s.broker, s.log);
      if j != c {
        ChannelFrame(j, s.chans[j], s.broker, s.log, s'.broker, s'.log);
      }
    }
    forall i | 0 <= i < |s.reps|
      ensures ReplicaOk(i, s'.reps[i], s'.chans, s'.log)
    {
      ReplicaFrame(i, s.reps[i], s.chans, s.log, s'.chans, s'.log);
    }
  }

  lemma SendConserves(b: Broker, key: Key, msg: nat)
    requires Conserved(b) && msg in b.ready && key !in b.unacked
    ensures Conserved(SendBroker(b, key, msg))
  {
    BagAdd(b.unacked, key, msg);
    assert b.ready == b.ready - multiset{msg} + multiset{msg};
  }

  lemma SendLogged(b: Broker, log: Log, key: Key, msg: nat)
    requires Logged(b, log) && key !in log.sent
    ensures Logged(SendBroker(b, key, msg), SendLog(log, key, msg))
  {
    BagAdd(log.sent, key, msg);
    WithinGrows(b.unacked, log.sent, key, msg);
    WithinGrows(log.posts, log.sent, key, msg);
    WithinGrows(log.acks, log.sent, key, msg);
    assert key !in log.acks;
  }

  lemma WithinGrows(part: map<Key, nat>, whole: map<Key, nat>, key: Key, msg: nat)
    requires Within(part, whole) && key !in whole
    ensures Within(part[key := msg], whole[key := msg]) && Within(part, whole[key := msg])
  {
  }

  lemma SendInv(s: System, c: nat, msg: nat)
    requires Inv(s) && c < |s.chans| && s.chans[c].open && msg in s.broker.ready
    ensures Inv(Send(s, c, msg))
  {
    var s' := Send(s, c, msg);
    var key := Key(c, s.chans[c].sent + 1);
    assert ChannelOk(c, s.chans[c], s.broker, s.log);
    assert key !in s.log.sent;
    SendConserves(s.broker, key, msg);
    SendLogged(s.broker, s.log, key, msg);
    SendChannels(s, c, msg);
    SendReplicas(s, c, msg);
    SendParts(s, c, msg);
  }

  lemma SendParts(s: System, c: nat, msg: nat)
    requires c < |s.chans|
    ensures var s' := Send(s, c, msg);
            var key := Key(c, s.chans[c].sent + 1);
            s'.broker == SendBroker(s.broker, key, msg) && s'.log == SendLog(s.log, key, msg)
  {
  }

  lemma SendChannels(s: System, c: nat, msg: nat)
    requires Inv(s) && c < |s.chans| && s.chans[c].open
    ensures var s' := Send(s, c, msg);
            ChannelsOk(s'.chans, s'.broker, s'.log)
  {
    var s' := Send(s, c, msg);
    forall j | 0 <= j < |s.chans|
      ensures ChannelOk(j, s'.chans[j], s'.broker, s'.log)
    {
      if j != c {
        ChannelFrame(j, s.chans[j], s.broker, s.log, s'.broker, s'.log);
      } else {
        SendChannel(c, s.chans[c], s.broker, s.log, msg);
      }
    }
  }

  lemma SendReplicas(s: System, c: nat, msg: nat)
    requires Inv(s) && c < |s.chans|
    requires Key(c, s.chans[c].sent + 1) !in s.log.sent
    ensures var s' := Send(s, c, msg);
            ReplicasOk(s'.reps, s'.chans, s'.log)
  {
    var s' := Send(s, c, msg);
    forall i | 0 <= i < |s.reps|
      ensures ReplicaOk(i, s'.reps[i], s'.chans, s'.log)
    {
      ReplicaFrame(i, s.reps[i], s.chans, s.log, s'.chans, s'.log);
    }
  }

  lemma SendChannel(c: nat, chan: Channel, b: Broker, log: Log, msg: nat)
    requires ChannelOk(c, chan, b, log) && chan.open
    ensures var key := Key(c, chan.sent + 1);
            ChannelOk(c, chan.(sent := key.tag), SendBroker(b, key, msg), SendLog(log, key, msg))
  {
  }

  lemma SettleConserves(s: System, key: Key, kind: Kind)
    requires Conserved(s.broker) && key in s.broker.unacked
    ensures Conserved(SettleAt(s, key, kind).broker)
  {
    var b := s.broker;
    BagRemove(b.unacked, key);
    SumShift(b.delivered, b.ready, b.enqueued, b.requeued, multiset{b.unacked[key]});
  }

  lemma SettleLogged(s: System, key: Key, kind: Kind)
    requires Logged(s.broker, s.log) && key in s.broker.unacked
    requires kind == Ack ==> key in s.log.outcomes
    ensures Logged(SettleAt(s, key, kind).broker, SettleAt(s, key, kind).log)
  {
    if kind == Ack {
      BagAdd(s.log.acks, key, s.broker.unacked[key]);
      WithinAdd(s.log.acks, s.log.sent, key);
    }
  }

  /** Processing a settlement frame removes exactly its own delivery. */
  lemma SettleInv(s: System, c: nat)
    requires Inv(s) && c < |s.chans| && s.chans[c].wire != [] && s.chans[c].wire[0].Settlement?
    requires Key(c, s.chans[c].wire[0].tag) in s.broker.unacked
    ensures Inv(ProcessFrame(s, c))
  {
    var f := s.chans[c].wire[0];
    var key := Key(c, f.tag);
    var s' := ProcessFrame(s, c);
    assert ChannelOk(c, s.chans[c], s.broker, s.log);
    assert FrameOk(c, f, s.chans[c].tried, s.broker, s.log);
    SettleConserves(s, key, f.kind);
    SettleLogged(s, key, f.kind);
    forall j | 0 <= j < |s.chans|
      ensures ChannelOk(j, s'.chans[j], s'.broker, s'.log)
    {
      if j != c {
        ChannelFrame(j, s.chans[j], s.broker, s.log, s'.broker, s'.log);
      } else {
        SettleChannel(s, c);
      }
    }
    SettleReplicas(s, c);
  }

  lemma SettleReplicas(s: System, c: nat)
    requires Inv(s) && c < |s.chans| && s.chans[c].wire != [] && s.chans[c].wire[0].Settlement?
    requires Key(c, s.chans[c].wire[0].tag) in s.broker.unacked
    ensures var s' := ProcessFrame(s, c);
            ReplicasOk(s'.reps, s'.chans, s'.log)
  {
    var s' := ProcessFrame(s, c);
    forall i | 0 <= i < |s.reps|
      ensures ReplicaOk(i, s'.reps[i], s'.chans, s'.log)
    {
      ReplicaFrame(i, s.reps[i], s.chans, s.log, s'.chans, s'.log);
    }
  }

  lemma SettleChannel(s: System, c: nat)
    requires c < |s.chans| && ChannelOk(c, s.chans[c], s.broker, s.log)
    requires s.chans[c].wire != [] && s.chans[c].wire[0].Settlement?
    requires Key(c, s.chans[c].wire[0].tag) in s.broker.unacked
    ensures var s' := ProcessFrame(s, c); ChannelOk(c, s'.chans[c], s'.broker, s'.log)
  {
  }

  lemma ProcessInv(s: System, c: nat)
    requires Inv(s) && c < |s.chans| && s.chans[c].open && s.chans[c].wire != []
    ensures Inv(ProcessFrame(s, c))
  {
    match s.chans[c].wire[0] {
      case Close => KillInv(s, c);
      case Settlement(_, tag, _) =>
        if Key(c, tag) in s.broker.unacked {
          SettleInv(s, c);
        } else {
          KillInv(s, c);
        }
    }
  }

  // ------------------------------------------------- preservation: replica steps

  /** The replica's channel after the event, and the log. */
  ghost function ChannelAfter(s: System, i: nat, e: Event, reaches: bool): Channel
    requires i < |s.reps| && s.reps[i].chan < |s.chans|
  {
    ChannelEffect(s.chans[s.reps[i].chan], s.reps[i].local.pc, e, reaches)
  }

  ghost function LogAfter(s: System, i: nat, e: Event): Log
    requires i < |s.reps|
  {
    LogEffect(s.log, HandKey(s.reps[i]), s.reps[i].local.pc, e)
  }

  ghost predicate CanAct(cfg: Config, s: System, i: nat, e: Event) {
    && Inv(s)
    && i < |s.reps|
    && Next(cfg, s.reps[i].local, e).Some?
    && Possible(s, s.reps[i], e)
  }

  ghost function LocalAfter(cfg: Config, s: System, i: nat, e: Event): State
    requires i < |s.reps| && Next(cfg, s.reps[i].local, e).Some?
  {
    Next(cfg, s.reps[i].local, e).value
  }

  /** The local half of an acting replica's invariant. */
  lemma ActLocal(cfg: Config, s: System, i: nat, e: Event)
    requires CanAct(cfg, s, i, e)
    ensures var local' := LocalAfter(cfg, s, i, e);
            && ReplicaOk(i, s.reps[i], s.chans, s.log)
            && SessionStep(s.reps[i].local, e, local')
            && Consistent(local')
            && (local'.seen ==> s.reps[i].cancelled)
  {
    assert ReplicaOk(i, s.reps[i], s.chans, s.log);
    NextSessionStep(cfg, s.reps[i].local, e);
    NextConsistent(cfg, s.reps[i].local, e);
  }

  ghost predicate InSessionAct(cfg: Config, s: System, i: nat, e: Event) {
    CanAct(cfg, s, i, e) && InSession(s.reps[i].local.pc) && e != Declare(Consume, true)
  }

  lemma PushKeeps(c: nat, chan: Channel, f: Frame, b: Broker, log: Log)
    requires ChannelOk(c, chan, b, log)
    requires f.Settlement? ==> chan.open ==> FrameOk(c, f, chan.tried, b, log)
    requires f.Settlement? ==> forall x :: 0 <= x < |chan.wire| && chan.wire[x].Settlement? ==> chan.wire[x].tag < f.tag
    ensures ChannelOk(c, Push(chan, f), b, log)
  {
  }

  lemma TriedGrows(c: nat, chan: Channel, b: Broker, log: Log, log': Log)
    requires ChannelOk(c, chan, b, log) && chan.got == chan.tried + 1
    requires log'.sent == log.sent && log'.posts == log.posts
    requires forall k :: k in log.outcomes ==> k in log'.outcomes
    ensures ChannelOk(c, chan.(tried := chan.tried + 1), b, log')
  {
  }

  lemma SettleCallOk(c: nat, chan: Channel, b: Broker, log: Log, f: Frame, ok: bool, reaches: bool)
    requires ChannelOk(c, chan.(tried := chan.tried + 1), b, log)
    requires f.Settlement? && f.tag == chan.tried + 1
    requires forall x :: 0 <= x < |chan.wire| && chan.wire[x].Settlement? ==> chan.wire[x].tag <= chan.tried
    requires chan.open ==> FrameOk(c, f, chan.tried + 1, b, log)
    ensures ChannelOk(c, SettleCall(chan, f, ok, reaches), b, log)
  {
  }

  lemma WireBelow(c: nat, chan: Channel, b: Broker, log: Log)
    requires ChannelOk(c, chan, b, log)
    ensures forall x :: 0 <= x < |chan.wire| && chan.wire[x].Settlement? ==> chan.wire[x].tag <= chan.tried
  {
  }

  /** The delivery in hand is still unacked while its channel is open. */
  lemma HandIsUnacked(s: System, i: nat)
    requires Inv(s) && i < |s.reps| && InHand(s.reps[i].local.pc).Some?
    ensures var rep := s.reps[i];
            var d := InHand(rep.local.pc).value;
            && rep.chan < |s.chans| && s.chans[rep.chan].owner == i
            && s.chans[rep.chan].got == s.chans[rep.chan].tried + 1 == d.tag
            && (s.chans[rep.chan].open ==>
                  Key(rep.chan, d.tag) in s.broker.unacked && s.broker.unacked[Key(rep.chan, d.tag)] == d.msg)
  {
  }

  /** What a settlement call finds: its tag is the next untried one, still unacked for its
      message while the channel is open, and an ack's outcome is on record. */
  lemma SettleCallFinds(cfg: Config, s: System, i: nat, e: Event)
    requires InSessionAct(cfg, s, i, e) && e.Settle?
    ensures var rep, log' := s.reps[i], LogAfter(s, i, e);
            && rep.chan < |s.chans| && InHand(rep.local.pc).Some?
            && s.chans[rep.chan].got == s.chans[rep.chan].tried + 1 == e.tag
            && (s.chans[rep.chan].open ==>
                  && Key(rep.chan, e.tag) in s.broker.unacked
                  && s.broker.unacked[Key(rep.chan, e.tag)] == InHand(rep.local.pc).value.msg)
            && (e.kind == Ack ==> Key(rep.chan, e.tag) in log'.outcomes)
  {
    ActLocal(cfg, s, i, e);
    HandIsUnacked(s, i);
  }

  lemma SettleLogGrows(s: System, i: nat, e: Event)
    requires i < |s.reps| && e.Settle?
    ensures var log' := LogAfter(s, i, e);
            && log'.sent == s.log.sent && log'.posts == s.log.posts
            && forall k :: k in s.log.outcomes ==> k in log'.outcomes
  {
  }

  /** A settlement call leaves its channel in order, whether or not its frame gets out. */
  lemma SettleKeeps(c: nat, chan: Channel, b: Broker, log: Log, log': Log, pc: Pc, e: Event, reaches: bool)
    requires ChannelOk(c, chan, b, log) && e.Settle? && InHand(pc).Some?
    requires chan.got == chan.tried + 1 == e.tag
    requires log'.sent == log.sent && log'.posts == log.posts
    requires forall k :: k in log.outcomes ==> k in log'.outcomes
    requires chan.open ==> Key(c, e.tag) in b.unacked && b.unacked[Key(c, e.tag)] == InHand(pc).value.msg
    requires e.kind == Ack ==> Key(c, e.tag) in log'.outcomes
    ensures ChannelOk(c, ChannelEffect(chan, pc, e, reaches), b, log')
  {
    TriedGrows(c, chan, b, log, log');
    WireBelow(c, chan, b, log);
    SettleCallOk(c, chan, b, log', Settlement(e.kind, e.tag, InHand(pc).value.msg), e.ok, reaches);
  }

  lemma TakeKeeps(c: nat, chan: Channel, b: Broker, log: Log, pc: Pc, e: Event, reaches: bool)
    requires ChannelOk(c, chan, b, log) && (e.Receive? || e.DrainOne?)
    requires chan.got == chan.tried && chan.got < chan.sent
    ensures ChannelOk(c, ChannelEffect(chan, pc, e, reaches), b, log)
  {
  }

  lemma PostKeeps(c: nat, chan: Channel, b: Broker, log: Log, key: Key, msg: nat)
    requires ChannelOk(c, chan, b, log) && key.tag <= chan.got
    ensures ChannelOk(c, chan, b, log.(posts := log.posts[key := msg], published := log.published + multiset{msg}))
  {
  }

  lemma OwnChannel(cfg: Config, s: System, i: nat, e: Event, reaches: bool)
    requires InSessionAct(cfg, s, i, e)
    ensures s.reps[i].chan < |s.chans|
    ensures ChannelOk(s.reps[i].chan, ChannelAfter(s, i, e, reaches), s.broker, LogAfter(s, i, e))
  {
    ActLocal(cfg, s, i, e);
    var c := s.reps[i].chan;
    assert ChannelOk(c, s.chans[c], s.broker, s.log);
    if e.Settle? {
      SettleCallFinds(cfg, s, i, e);
      SettleLogGrows(s, i, e);
      SettleKeeps(c, s.chans[c], s.broker, s.log, LogAfter(s, i, e), s.reps[i].local.pc, e, reaches);
    } else if e.Receive? || e.DrainOne? {
      TakeKeeps(c, s.chans[c], s.broker, s.log, s.reps[i].local.pc, e, reaches);
    } else if e.CloseChannel? {
      PushKeeps(c, s.chans[c], Close, s.broker, s.log);
    } else if e.Publish? && e.publish.Accepted? {
      PostKeeps(c, s.chans[c], s.broker, s.log, HandKey(s.reps[i]), InHand(s.reps[i].local.pc).value.msg);
    }
  }

  lemma OtherChannel(cfg: Config, s: System, i: nat, e: Event, c: nat)
    requires InSessionAct(cfg, s, i, e) && c < |s.chans| && c != s.reps[i].chan
    ensures ChannelOk(c, s.chans[c], s.broker, LogAfter(s, i, e))
  {
  }

  lemma WithinAdd(part: map<Key, nat>, whole: map<Key, nat>, k: Key)
    requires Within(part, whole) && k in whole
    ensures Within(part[k := whole[k]], whole)
  {
  }

  lemma PostLogged(b: Broker, log: Log, key: Key, msg: nat)
    requires Logged(b, log) && key !in log.posts && key in log.sent && log.sent[key] == msg
    ensures Logged(b, log.(posts := log.posts[key := msg], published := log.published + multiset{msg}))
  {
    BagAdd(log.posts, key, msg);
    WithinAdd(log.posts, log.sent, key);
  }

  lemma OutcomeLogged(b: Broker, log: Log, key: Key, o: Outcome)
    requires Logged(b, log) && key in log.sent && Completed(o)
    ensures Logged(b, log.(outcomes := log.outcomes[key := o]))
  {
  }

  lemma ActLogged(cfg: Config, s: System, i: nat, e: Event)
    requires InSessionAct(cfg, s, i, e)
    ensures Logged(s.broker, LogAfter(s, i, e))
    ensures LogAfter(s, i, e).sent == s.log.sent
  {
    ActLocal(cfg, s, i, e);
    var rep := s.reps[i];
    if e.Publish? && e.publish.Accepted? {
      PostLogged(s.broker, s.log, HandKey(rep), InHand(rep.local.pc).value.msg);
    } else if e.Settle? && e.kind == Ack {
      OutcomeLogged(s.broker, s.log, HandKey(rep), rep.local.pc.outcome);
    }
  }

  /** How an event moves the counters of the acting replica's channel. */
  lemma ActingHand(i: nat, rep: Replica, chan: Channel, log: Log, e: Event, local': State, reaches: bool)
    requires HandOk(i, rep, chan, log) && SessionStep(rep.local, e, local')
    requires e.Receive? || e.DrainOne? ==> e.d.tag == chan.got + 1
    ensures var chan' := ChannelEffect(chan, rep.local.pc, e, reaches);
            && chan'.owner == i
            && (e.Receive? || e.DrainOne? ==>
                  chan'.got == chan.got + 1 == e.d.tag && chan'.tried == chan.tried == chan.got)
            && (e.Settle? ==> chan'.got == chan.got == chan'.tried)
            && (!e.Receive? && !e.DrainOne? && !e.Settle? ==> chan'.got == chan.got && chan'.tried == chan.tried)
  {
  }

  lemma FreshHandIsUnposted(cfg: Config, s: System, i: nat, e: Event)
    requires InSessionAct(cfg, s, i, e) && (e.Receive? || e.DrainOne?)
    ensures var key := Key(s.reps[i].chan, e.d.tag);
            key in s.log.sent && s.log.sent[key] == e.d.msg && key !in s.log.posts
  {
  }

  lemma ActingReplica(cfg: Config, s: System, i: nat, e: Event, reaches: bool)
    requires InSessionAct(cfg, s, i, e) && s.reps[i].chan < |s.chans|
    ensures var rep := s.reps[i];
            ReplicaOk(i, rep.(local := LocalAfter(cfg, s, i, e)),
                      s.chans[rep.chan := ChannelAfter(s, i, e, reaches)], LogAfter(s, i, e))
  {
    ActLocal(cfg, s, i, e);
    ActingHand(i, s.reps[i], s.chans[s.reps[i].chan], s.log, e, LocalAfter(cfg, s, i, e), reaches);
    if e.Receive? || e.DrainOne? {
      FreshHandIsUnposted(cfg, s, i, e);
    }
  }

  lemma OtherReplica(cfg: Config, s: System, i: nat, e: Event, reaches: bool, j: nat)
    requires InSessionAct(cfg, s, i, e) && s.reps[i].chan < |s.chans|
    requires j < |s.reps| && j != i
    ensures ReplicaOk(j, s.reps[j], s.chans[s.reps[i].chan := ChannelAfter(s, i, e, reaches)], LogAfter(s, i, e))
  {
  }

  lemma SessionActInv(cfg: Config, s: System, i: nat, e: Event, reaches: bool)
    requires InSessionAct(cfg, s, i, e)
    ensures Inv(Perform(cfg, s, i, e, reaches))
  {
    OwnChannel(cfg, s, i, e, reaches);
    ActLogged(cfg, s, i, e);
    var s' := Perform(cfg, s, i, e, reaches);
    var c := s.reps[i].chan;
    forall j | 0 <= j < |s'.chans|
      ensures ChannelOk(j, s'.chans[j], s'.broker, s'.log)
    {
      if j != c {
        OtherChannel(cfg, s, i, e, j);
      }
    }
    forall j | 0 <= j < |s'.reps|
      ensures ReplicaOk(j, s'.reps[j], s'.chans, s'.log)
    {
      if j == i {
        ActingReplica(cfg, s, i, e, reaches);
      } else {
        OtherReplica(cfg, s, i, e, reaches, j);
      }
    }
  }

  /** A new session starts on a channel nobody has used, with tags restarting at one. */
  lemma NewSessionInv(cfg: Config, s: System, i: nat)
    requires CanAct(cfg, s, i, Declare(Consume, true))
    ensures Inv(Perform(cfg, s, i, Declare(Consume, true), false))
  {
    var e := Declare(Consume, true);
    ActLocal(cfg, s, i, e);
    var s' := Perform(cfg, s, i, e, false);
    var n := |s.chans|;
    forall j | 0 <= j < |s'.chans|
      ensures ChannelOk(j, s'.chans[j], s'.broker, s'.log)
    {
      if j == n {
        assert forall t: nat :: Key(n, t) !in s.log.sent;
      } else {
        assert ChannelOk(j, s.chans[j], s.broker, s.log);
      }
    }
    forall j | 0 <= j < |s'.reps|
      ensures ReplicaOk(j, s'.reps[j], s'.chans, s'.log)
    {
      if j != i {
        assert ReplicaOk(j, s.reps[j], s.chans, s.log);
        ReplicaFrame(j, s.reps[j], s.chans, s.log, s'.chans, s'.log);
      }
    }
  }

  lemma OutsideActInv(cfg: Config, s: System, i: nat, e: Event, reaches: bool)
    requires CanAct(cfg, s, i, e) && !InSession(s.reps[i].local.pc) && e != Declare(Consume, true)
    ensures Inv(Perform(cfg, s, i, e, reaches))
  {
    ActLocal(cfg, s, i, e);
    var s' := Perform(cfg, s, i, e, reaches);
    forall j | 0 <= j < |s'.reps|
      ensures ReplicaOk(j, s'.reps[j], s'.chans, s'.log)
    {
      assert ReplicaOk(j, s.reps[j], s.chans, s.log);
    }
  }

  lemma CancelInv(s: System, i: nat)
    requires Inv(s) && i < |s.reps|
    ensures Inv(s.(reps := s.reps[i := s.reps[i].(cancelled := true)]))
  {
  }

  /** Every step, of whichever party, keeps the invariant. */
  lemma StepInv(cfg: Config, s: System, step: Step)
    requires Inv(s) && Apply(cfg, s, step).Some?
    ensures Inv(Apply(cfg, s, step).value)
  {
    match step {
      case Enqueue(msg) => EnqueueInv(s, msg);
      case Deliver(c, msg) => SendInv(s, c, msg);
      case Process(c) => ProcessInv(s, c);
      case Die(c) => KillInv(s, c);
      case Cancel(i) => CancelInv(s, i);
      case Act(i, e, reaches) =>
        if e == Declare(Consume, true) {
          NewSessionInv(cfg, s, i);
        } else if InSession(s.reps[i].local.pc) {
          SessionActInv(cfg, s, i, e, reaches);
        } else {
          OutsideActInv(cfg, s, i, e, reaches);
        }
    }
  }

  ghost predicate Reachable(cfg: Config, replicas: nat, steps: seq<Step>, s: System) {
    Exec(cfg, replicas, steps) == Some(s)
  }

  lemma {:induction false} ReachableInv(cfg: Config, replicas: nat, steps: seq<Step>, s: System)
    requires Reachable(cfg, replicas, steps, s)
    ensures Inv(s)
  {
    if steps == [] {
      InitInv(replicas);
    } else {
      var n := |steps| - 1;
      var before := Exec(cfg, replicas, steps[..n]).value;
      ReachableInv(cfg, replicas, steps[..n], before);
      StepInv(cfg, before, steps[n]);
    }
  }

  // ---------------------------------------------------- reading off the invariant

  lemma PlacesSum(b: Broker, msg: nat)
    requires Conserved(b)
    ensures b.ready[msg] + |Holders(b.unacked, msg)| + b.acked[msg] == b.enqueued[msg]
    ensures b.enqueued[msg] == if msg in b.enqueued then 1 else 0
  {
    BagCounts(b.unacked, msg);
    var bag := Bag(b.unacked);
    assert (b.ready + bag + b.acked)[msg] == b.ready[msg] + bag[msg] + b.acked[msg];
  }

  lemma DeliveriesSum(b: Broker, msg: nat)
    requires Conserved(b)
    ensures b.delivered[msg] + b.ready[msg] == b.enqueued[msg] + b.requeued[msg]
  {
    assert (b.delivered + b.ready)[msg] == b.delivered[msg] + b.ready[msg];
    assert (b.enqueued + b.requeued)[msg] == b.enqueued[msg] + b.requeued[msg];
  }

  /** Whatever is unacked is unacked on an open channel, under a tag sent there. */
  lemma UnackedIsLive(s: System, k: Key)
    requires Inv(s) && k in s.broker.unacked
    ensures k.chan < |s.chans| && s.chans[k.chan].open && 1 <= k.tag <= s.chans[k.chan].sent
  {
    assert k in s.log.sent;
    assert ChannelOk(k.chan, s.chans[k.chan], s.broker, s.log);
    assert Key(k.chan, k.tag) == k;
  }
}
