/** That the guarantees are not empty: the environment is free to do what it does, every
    publication is on record, and a waiting replica can take a ready message all the way to
    its ack. */
module Progress {
  import opened Results
  import opened Protocol
  import opened Bags
  import opened Discipline
  import opened Cluster
  import opened Provenance
  import opened Effects

  // --------------------------------------------------------------- what is on record

  /** The message whose publication the step completes, in the state before it. */
  function PublishedBy(s: System, step: Step): Option<nat> {
    if step.Act? && step.rep < |s.reps| && step.event.Publish? && step.event.publish == PublishResult.Accepted then
      match InHand(s.reps[step.rep].local.pc)
      case Some(d) => Some(d.msg)
      case None => None
    else None
  }

  /** How often the run has published the message with success. */
  ghost function Publications(cfg: Config, replicas: nat, steps: seq<Step>, msg: nat): nat {
    if steps == [] then 0
    else
      var n := |steps| - 1;
      Publications(cfg, replicas, steps[..n], msg)
      + match Exec(cfg, replicas, steps[..n])
        case Some(before) => if PublishedBy(before, steps[n]) == Some(msg) then 1 else 0
        case None => 0
  }

  lemma LoggedPublish(log: Log, key: Key, pc: Pc, e: Event, msg: nat)
    ensures LogEffect(log, key, pc, e).published[msg] == log.published[msg]
              + if e.Publish? && e.publish == PublishResult.Accepted && InHand(pc).Some? && InHand(pc).value.msg == msg
                then 1 else 0
  {
  }

  lemma MovedPublished(s: System, i: nat, e: Event, reaches: bool, local: State, msg: nat)
    requires i < |s.reps| && (e.Publish? ==> InSession(s.reps[i].local.pc) && s.reps[i].chan < |s.chans|)
    ensures Moved(s, i, e, reaches, local).log.published[msg]
         == s.log.published[msg] + if PublishedBy(s, Act(i, e, reaches)) == Some(msg) then 1 else 0
  {
    var rep := s.reps[i];
    LoggedPublish(s.log, HandKey(rep), rep.local.pc, e, msg);
  }

  lemma StepPublished(cfg: Config, s: System, step: Step, s': System, msg: nat)
    requires Inv(s) && Apply(cfg, s, step) == Some(s')
    ensures s'.log.published[msg] == s.log.published[msg] + if PublishedBy(s, step) == Some(msg) then 1 else 0
  {
    match step {
      case Act(i, e, reaches) =>
        ActLocal(cfg, s, i, e);
        MovedPublished(s, i, e, reaches, LocalAfter(cfg, s, i, e), msg);
      case _ => OthersPublishNothing(cfg, s, step, s');
    }
  }

  lemma OthersPublishNothing(cfg: Config, s: System, step: Step, s': System)
    requires Apply(cfg, s, step) == Some(s') && !step.Act?
    ensures s'.log.published == s.log.published
  {
  }

  /** The record of publications is the record of what replicas published: for each message,
      the number of accepted publish calls made with it in hand. */
  lemma {:induction false} PublicationsOnRecord(cfg: Config, replicas: nat, steps: seq<Step>, s: System, msg: nat)
    requires Reachable(cfg, replicas, steps, s)
    ensures s.log.published[msg] == Publications(cfg, replicas, steps, msg)
  {
    if steps != [] {
      var n := |steps| - 1;
      var before := LastState(cfg, replicas, steps, s);
      PublicationsOnRecord(cfg, replicas, steps[..n], before, msg);
      StepPublished(cfg, before, steps[n], s, msg);
    }
  }

  // ------------------------------------------------------------- a free environment

  /** Nothing in the model holds the environment back: new messages arrive, any ready message
      may go to any open channel, frames are read, channels die and shutdown comes at any
      time; a replica's stream may end whenever it waits, and an answer is possible unless it
      blames a cancellation that has not happened. */
  lemma EnvironmentIsFree(cfg: Config, s: System, c: nat, i: nat, msg: nat, e: Event, reaches: bool)
    ensures msg !in s.broker.enqueued ==> Apply(cfg, s, Enqueue(msg)).Some?
    ensures c < |s.chans| && s.chans[c].open ==> Apply(cfg, s, Die(c)).Some?
    ensures c < |s.chans| && s.chans[c].open && msg in s.broker.ready ==> Apply(cfg, s, Deliver(c, msg)).Some?
    ensures c < |s.chans| && s.chans[c].open && s.chans[c].wire != [] ==> Apply(cfg, s, Process(c)).Some?
    ensures i < |s.reps| ==> Apply(cfg, s, Cancel(i)).Some?
    ensures i < |s.reps| && s.reps[i].local.pc == Select ==> Apply(cfg, s, Act(i, StreamEnd, reaches)).Some?
    ensures && i < |s.reps| && Next(cfg, s.reps[i].local, e).Some? && !e.Check? && !e.Receive? && !e.DrainOne?
            && (CausedByCancel(e) ==> s.reps[i].cancelled)
            ==> Apply(cfg, s, Act(i, e, reaches)).Some?
    ensures i < |s.reps| && Next(cfg, s.reps[i].local, Check(s.reps[i].cancelled)).Some? ==>
              Apply(cfg, s, Act(i, Check(s.reps[i].cancelled), reaches)).Some?
  {
  }

  /** And whatever the broker has sent on a replica's channel the replica can take, in its
      order, by receiving it or by draining it. */
  lemma SentCanBeTaken(cfg: Config, replicas: nat, steps: seq<Step>, s: System, i: nat, reaches: bool)
      returns (d: Delivery)
    requires Reachable(cfg, replicas, steps, s) && i < |s.reps| && s.reps[i].chan < |s.chans|
    requires s.chans[s.reps[i].chan].got < s.chans[s.reps[i].chan].sent
    ensures d.tag == s.chans[s.reps[i].chan].got + 1
    ensures s.reps[i].local.pc == Select ==> Apply(cfg, s, Act(i, Receive(d), reaches)).Some?
    ensures s.reps[i].local.pc == Draining ==> Apply(cfg, s, Act(i, DrainOne(d), reaches)).Some?
  {
    ReachableInv(cfg, replicas, steps, s);
    var c := s.reps[i].chan;
    NextIsKnown(s, c);
    var tag := s.chans[c].got + 1;
    d := Delivery(tag, s.log.sent[Key(c, tag)]);
    NextIsPossible(cfg, s, i, d, reaches);
  }

  lemma NextIsKnown(s: System, c: nat)
    requires Inv(s) && c < |s.chans| && s.chans[c].got < s.chans[c].sent
    ensures Key(c, s.chans[c].got + 1) in s.log.sent
  {
    assert ChannelOk(c, s.chans[c], s.broker, s.log);
  }

  lemma NextIsPossible(cfg: Config, s: System, i: nat, d: Delivery, reaches: bool)
    requires i < |s.reps| && s.reps[i].chan < |s.chans|
    requires var c := s.reps[i].chan;
             s.chans[c].got < s.chans[c].sent && d.tag == s.chans[c].got + 1
             && Key(c, d.tag) in s.log.sent && d.msg == s.log.sent[Key(c, d.tag)]
    ensures s.reps[i].local.pc == Select ==> Apply(cfg, s, Act(i, Receive(d), reaches)).Some?
    ensures s.reps[i].local.pc == Draining ==> Apply(cfg, s, Act(i, DrainOne(d), reaches)).Some?
  {
  }

  // ----------------------------------------------------------------- a message's way

  /** Replica i is alive in its session on the open channel c, at this control point. */
  ghost predicate Alive(s: System, i: nat, c: nat, pc: Pc) {
    && i < |s.reps| && c < |s.chans| && s.chans[c].open
    && !s.reps[i].cancelled && s.reps[i].chan == c && s.reps[i].local.pc == pc && InSession(pc)
  }

  /** An event that changes nothing on the channel. */
  predicate Private(e: Event) {
    !e.Receive? && !e.DrainOne? && !e.Settle? && !e.CloseChannel? && !e.Declare?
  }

  /** A living replica has not noticed any cancellation. */
  lemma AliveLocal(cfg: Config, replicas: nat, steps: seq<Step>, s: System, i: nat, c: nat, pc: Pc)
    requires Reachable(cfg, replicas, steps, s) && Alive(s, i, c, pc)
    ensures s.reps[i].local == State(pc, false, s.reps[i].local.failures, s.reps[i].local.delivered)
  {
    ReachableInv(cfg, replicas, steps, s);
    assert ReplicaOk(i, s.reps[i], s.chans, s.log);
  }

  /** A step in the life of a living replica. */
  lemma Live(cfg: Config, replicas: nat, steps: seq<Step>, s: System, i: nat, c: nat, pc: Pc, e: Event, pc': Pc)
      returns (all: seq<Step>, s': System)
    requires Reachable(cfg, replicas, steps, s) && Alive(s, i, c, pc) && Private(e) && InSession(pc')
    requires !CausedByCancel(e)
    requires var after := Next(cfg, State(pc, false, s.reps[i].local.failures, s.reps[i].local.delivered), e);
             after.Some? && after.value.pc == pc'
    ensures all == steps + [Act(i, e, false)] && Reachable(cfg, replicas, all, s') && Alive(s', i, c, pc')
  {
    AliveLocal(cfg, replicas, steps, s, i, c, pc);
    s' := Perform(cfg, s, i, e, false);
    LiveMoved(s, i, c, pc, e, LocalAfter(cfg, s, i, e));
    RunOn(cfg, replicas, steps, s, Act(i, e, false), s');
    all := steps + [Act(i, e, false)];
  }

  lemma LiveMoved(s: System, i: nat, c: nat, pc: Pc, e: Event, local: State)
    requires Alive(s, i, c, pc) && Private(e) && InSession(local.pc)
    ensures Alive(Moved(s, i, e, false, local), i, c, local.pc)
  {
  }

  /** The broker sends a ready message on the replica's channel, and the replica takes it. */
  lemma Taken(cfg: Config, replicas: nat, steps: seq<Step>, s: System, i: nat, c: nat, msg: nat)
      returns (d: Delivery, all: seq<Step>, s': System)
    requires Reachable(cfg, replicas, steps, s) && Alive(s, i, c, Select)
    requires msg in s.broker.ready && s.chans[c].got == s.chans[c].sent
    ensures steps <= all && Reachable(cfg, replicas, all, s') && Alive(s', i, c, Entry(d)) && d.msg == msg
  {
    var s1 := Send(s, c, msg);
    RunOn(cfg, replicas, steps, s, Deliver(c, msg), s1);
    all := steps + [Deliver(c, msg)];
    d := Delivery(s.chans[c].sent + 1, msg);
    assert Possible(s1, s1.reps[i], Receive(d));
    s' := Perform(cfg, s1, i, Receive(d), false);
    RunOn(cfg, replicas, all, s1, Act(i, Receive(d), false), s');
    all := all + [Act(i, Receive(d), false)];
    TakenMoved(s1, i, c, d, LocalAfter(cfg, s1, i, Receive(d)));
  }

  lemma TakenMoved(s: System, i: nat, c: nat, d: Delivery, local: State)
    requires Alive(s, i, c, Select) && local.pc == Entry(d)
    ensures Alive(Moved(s, i, Receive(d), false, local), i, c, Entry(d))
  {
  }

  /** From its receipt to the point where its text is to be published; the rewrite may fail. */
  lemma Prepared(cfg: Config, replicas: nat, steps: seq<Step>, s: System, i: nat, c: nat, d: Delivery, body: string)
      returns (all: seq<Step>, s': System)
    requires Reachable(cfg, replicas, steps, s) && Alive(s, i, c, Entry(d)) && cfg.trim(body) != ""
    ensures steps <= all && Reachable(cfg, replicas, all, s') && Alive(s', i, c, Publishing(d, cfg.trim(body)))
  {
    var text := cfg.trim(body);
    all, s' := ReadFound(cfg, replicas, steps, s, i, c, d, body);
    if cfg.rewriting {
      var failed := Rewrite(text, RewriteError(false));
      all, s' := Live(cfg, replicas, all, s', i, c, Rewriting(d, text), failed, Publishing(d, text));
    }
  }

  lemma ReadFound(cfg: Config, replicas: nat, steps: seq<Step>, s: System, i: nat, c: nat, d: Delivery, body: string)
      returns (all: seq<Step>, s': System)
    requires Reachable(cfg, replicas, steps, s) && Alive(s, i, c, Entry(d)) && cfg.trim(body) != ""
    ensures steps <= all && Reachable(cfg, replicas, all, s')
    ensures var text := cfg.trim(body);
            Alive(s', i, c, if cfg.rewriting then Rewriting(d, text) else Publishing(d, text))
  {
    var text := cfg.trim(body);
    var next := if cfg.rewriting then Rewriting(d, text) else Publishing(d, text);
    all, s' := Live(cfg, replicas, steps, s, i, c, Entry(d), Check(false), Decoding(d));
    all, s' := Live(cfg, replicas, all, s', i, c, Decoding(d), Decode(true), Reading(d));
    all, s' := Live(cfg, replicas, all, s', i, c, Reading(d), Read(Found(body)), next);
  }

  /** From there to the point where its ack is to be sent. */
  lemma Finished(cfg: Config, replicas: nat, steps: seq<Step>, s: System, i: nat, c: nat, d: Delivery, text: string)
      returns (all: seq<Step>, s': System)
    requires Reachable(cfg, replicas, steps, s) && Alive(s, i, c, Publishing(d, text))
    ensures steps + [Act(i, Publish(text, PublishResult.Accepted), false)] <= all
    ensures Reachable(cfg, replicas, all, s') && Alive(s', i, c, Sending(d, Ack, Posted))
  {
    var publish := Publish(text, PublishResult.Accepted);
    all, s' := Live(cfg, replicas, steps, s, i, c, Publishing(d, text), publish, Settling(d, Posted));
    all, s' := Live(cfg, replicas, all, s', i, c, Settling(d, Posted), Check(false), Sending(d, Ack, Posted));
  }

  /** The ack goes out and is read. */
  lemma AckTakesEffect(cfg: Config, replicas: nat, steps: seq<Step>, s: System, i: nat, c: nat, d: Delivery)
      returns (all: seq<Step>, s': System)
    requires Reachable(cfg, replicas, steps, s) && Alive(s, i, c, Sending(d, Ack, Posted))
    ensures steps <= all && Reachable(cfg, replicas, all, s') && d.msg in s'.broker.acked
  {
    var ack := Settle(Ack, d.tag, true);
    AliveLocal(cfg, replicas, steps, s, i, c, Sending(d, Ack, Posted));
    var d', reading;
    d', reading, s' := SettlementTakesEffect(cfg, replicas, steps, s, i, ack, false);
    all := steps + [Act(i, ack, false)] + reading;
  }

  /** Any ready message can be published and acked by any living replica that waits with an
      empty buffer: the run so far, whatever it was, goes on, through a publication of the
      trimmed summary, to a state in which the message is acked. */
  lemma ReadyMessageCanBeAcked(cfg: Config, replicas: nat, steps: seq<Step>, s: System,
                               i: nat, c: nat, msg: nat, body: string)
      returns (all: seq<Step>, s': System, n: nat)
    requires Reachable(cfg, replicas, steps, s) && Alive(s, i, c, Select) && cfg.trim(body) != ""
    requires msg in s.broker.ready && s.chans[c].got == s.chans[c].sent
    ensures steps <= all && Reachable(cfg, replicas, all, s') && msg in s'.broker.acked
    ensures |steps| <= n < |all| && all[n] == Act(i, Publish(cfg.trim(body), PublishResult.Accepted), false)
  {
    var d;
    d, all, s' := Taken(cfg, replicas, steps, s, i, c, msg);
    all, s' := Prepared(cfg, replicas, all, s', i, c, d, body);
    n := |all|;
    all, s' := Finished(cfg, replicas, all, s', i, c, d, cfg.trim(body));
    all, s' := AckTakesEffect(cfg, replicas, all, s', i, c, d);
  }

  // ---------------------------------------------------------------------- shutdown

  /** A way on from each control point once the context is cancelled: every call that can
      fail does, and nothing more is taken. */
  function StopEvent(cfg: Config, s: State): Event {
    match s.pc
    case Dialing => Dial(false)
    case Opening => OpenChannel(false)
    case Declaring(step) => Declare(step, false)
    case FailChannel => CloseChannel
    case FailConn => CloseConn
    case Sleeping => Sleep(cfg.backoff(s.failures), true)
    case Select => Interrupted
    case Decoding(_) => Decode(false)
    case Reading(_) => Read(ReadError(true))
    case Rewriting(_, text) => Rewrite(text, RewriteError(true))
    case Publishing(_, text) => Publish(text, Rejected(true))
    case Sending(d, kind, _) => Settle(kind, d.tag, false)
    case Cancelling => CancelConsumer
    case Draining => DrainStop
    case DrainSending(d) => Settle(Nack, d.tag, false)
    case ClosingChannel(_) => CloseChannel
    case ClosingConn(_) => CloseConn
    case _ => Check(true)
  }

  lemma StopEventAccepted(cfg: Config, s: State)
    requires s.pc != Done
    ensures Next(cfg, s, StopEvent(cfg, s)).Some?
    ensures Rank(Next(cfg, s, StopEvent(cfg, s)).value.pc) < Rank(s.pc)
  {
    RankDecreases(cfg, s, StopEvent(cfg, s));
  }

  /** From position n on the run holds nothing but acts of this replica. */
  predicate ActsFrom(steps: seq<Step>, n: nat, i: nat) {
    forall k :: n <= k < |steps| ==> steps[k].Act? && steps[k].rep == i
  }

  lemma ActsFromEarlier(one: seq<Step>, all: seq<Step>, n: nat, i: nat)
    requires |one| == n + 1 && one <= all && ActsFrom(one, n, i) && ActsFrom(all, n + 1, i)
    ensures ActsFrom(all, n, i)
  {
    assert all[n] == one[n];
  }

  /** The replica's context is cancelled and it has at most n more calls to make. */
  ghost predicate StopsWithin(s: System, i: nat, n: nat) {
    i < |s.reps| && s.reps[i].cancelled && Rank(s.reps[i].local.pc) <= n
  }

  predicate Stopped(s: System, i: nat) {
    i < |s.reps| && s.reps[i].local.pc == Done
  }

  lemma StopStep(cfg: Config, replicas: nat, steps: seq<Step>, s: System, i: nat, n: nat)
      returns (all: seq<Step>, s': System)
    requires Reachable(cfg, replicas, steps, s) && StopsWithin(s, i, n) && !Stopped(s, i)
    ensures |all| == |steps| + 1 && steps <= all && ActsFrom(all, |steps|, i)
    ensures Reachable(cfg, replicas, all, s') && n >= 1 && StopsWithin(s', i, n - 1)
  {
    var e := StopEvent(cfg, s.reps[i].local);
    StopEventAccepted(cfg, s.reps[i].local);
    s' := Perform(cfg, s, i, e, false);
    RunOn(cfg, replicas, steps, s, Act(i, e, false), s');
    all := steps + [Act(i, e, false)];
  }

  lemma {:induction false} StopsByItself(cfg: Config, replicas: nat, steps: seq<Step>, s: System, i: nat, n: nat)
      returns (all: seq<Step>, s': System)
    requires Reachable(cfg, replicas, steps, s) && StopsWithin(s, i, n)
    ensures steps <= all && ActsFrom(all, |steps|, i) && |all| <= |steps| + n
    ensures Reachable(cfg, replicas, all, s') && Stopped(s', i)
    decreases n
  {
    all, s' := steps, s;
    if !Stopped(s, i) {
      var one, s1 := StopStep(cfg, replicas, steps, s, i, n);
      all, s' := StopsByItself(cfg, replicas, one, s1, i, n - 1);
      ActsFromEarlier(one, all, |steps|, i);
    }
  }

  lemma Shutdown(cfg: Config, replicas: nat, steps: seq<Step>, s: System, i: nat) returns (s': System)
    requires Reachable(cfg, replicas, steps, s) && i < |s.reps|
    ensures Reachable(cfg, replicas, steps + [Cancel(i)], s')
    ensures i < |s'.reps| && s'.reps[i] == s.reps[i].(cancelled := true)
  {
    s' := s.(reps := s.reps[i := s.reps[i].(cancelled := true)]);
    RunOn(cfg, replicas, steps, s, Cancel(i), s');
  }

  lemma RankBound(pc: Pc)
    ensures Rank(pc) <= 12
  {
  }

  /** Any replica can be shut down at any time: once its context is cancelled it can return
      by twelve acts of its own at most, with nobody else moving. */
  lemma ReplicaCanStop(cfg: Config, replicas: nat, steps: seq<Step>, s: System, i: nat)
      returns (all: seq<Step>, s': System)
    requires Reachable(cfg, replicas, steps, s) && i < |s.reps|
    ensures steps + [Cancel(i)] <= all && ActsFrom(all, |steps| + 1, i) && |all| <= |steps| + 13
    ensures Reachable(cfg, replicas, all, s') && i < |s'.reps| && s'.reps[i].local.pc == Done
  {
    var s1 := Shutdown(cfg, replicas, steps, s, i);
    RankBound(s1.reps[i].local.pc);
    all, s' := StopsByItself(cfg, replicas, steps + [Cancel(i)], s1, i, 12);
  }
}
