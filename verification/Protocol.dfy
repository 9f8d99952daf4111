/** What one replica does at its boundary, internal/rabbitmq/consumer.go. An event
    is one call to the outside or one observation of the run context; the
    automaton says which event may follow which. Cancellation is monotone: once
    it has been observed it can never be observed absent. */
module Protocol {
  import opened Results

  /** A delivery: its tag, scoped to one channel, and the message it carries. */
  datatype Delivery = Delivery(tag: nat, msg: nat)

  datatype Setup = Exchange | Queue | Bind | Qos | Consume

  datatype Kind = Ack | Nack

  /** Answers of the pipeline's collaborators; an error says whether cancellation caused it. */
  datatype ReadResult = Found(body: string) | NotFound | ReadError(cancelled: bool)
  datatype RewriteResult = Report(text: string) | RewriteError(cancelled: bool)
  datatype PublishResult = Accepted | Rejected(cancelled: bool)

  datatype Event =
    | Check(cancelled: bool)
    | Dial(ok: bool)
    | OpenChannel(ok: bool)
    | Declare(step: Setup, ok: bool)
    | CloseChannel
    | CloseConn
    | Sleep(delay: int, interrupted: bool)
    | Receive(d: Delivery)
    | StreamEnd
    | Interrupted
    | CancelConsumer
    | DrainOne(d: Delivery)
    | DrainStop
    | Decode(ok: bool)
    | Read(read: ReadResult)
    | Rewrite(summary: string, rewrite: RewriteResult)
    | Publish(text: string, publish: PublishResult)
    | Settle(kind: Kind, tag: nat, ok: bool)

  /** How the pipeline ended for one delivery. */
  datatype Outcome =
    | Untouched
    | Undecodable
    | Missing
    | Unreadable(cancelled: bool)
    | Empty
    | Dropped(cancelled: bool)
    | Posted

  /** Every way to finish that cancellation did not bring about. */
  predicate Completed(o: Outcome) {
    match o
    case Untouched => false
    case Unreadable(cancelled) => !cancelled
    case Dropped(cancelled) => !cancelled
    case _ => true
  }

  /** Control points; each names the call the replica makes next. */
  datatype Pc =
    | Head
    | Dialing
    | Opening
    | Declaring(step: Setup)
    | FailChannel
    | FailConn
    | FailCheck
    | Sleeping
    | Connected
    | Loop
    | Select
    | Entry(d: Delivery)
    | Decoding(d: Delivery)
    | Reading(d: Delivery)
    | Rewriting(d: Delivery, text: string)
    | Publishing(d: Delivery, text: string)
    | Settling(d: Delivery, outcome: Outcome)
    | Sending(d: Delivery, kind: Kind, outcome: Outcome)
    | Cancelling
    | Draining
    | DrainSending(d: Delivery)
    | AfterConsume
    | ClosingChannel(last: bool)
    | ClosingConn(last: bool)
    | Done

  /** seen: cancellation was observed, or is implied by a collaborator's answer. */
  datatype State = State(pc: Pc, seen: bool, failures: nat, delivered: bool)

  /** Whether a rewriter is configured, and the two pure functions the protocol uses
      without depending on what they compute: the trimming applied to texts and the
      backoff delay for a failure count. */
  datatype Config = Config(rewriting: bool, trim: string -> string, backoff: nat -> int)

  const START := State(Head, false, 0, false)

  function NextSetup(step: Setup): Setup {
    match step
    case Exchange => Queue
    case Queue => Bind
    case Bind => Qos
    case Qos => Consume
    case Consume => Consume
  }

  /** The text to publish once the rewriter has answered. */
  function Chosen(cfg: Config, text: string, r: RewriteResult): string {
    match r
    case RewriteError(_) => text
    case Report(report) => if cfg.trim(report) == "" then text else cfg.trim(report)
  }

  function Goto(s: State, pc: Pc): Option<State> {
    Some(s.(pc := pc))
  }

  /** An observation of the context: it may say "not cancelled" only if nothing seen so far says otherwise. */
  function Observe(s: State, cancelled: bool, yes: Pc, no: Pc): Option<State> {
    if cancelled then Some(s.(pc := yes, seen := true))
    else if s.seen then None
    else Some(s.(pc := no))
  }

  function Implies(s: State, cancelled: bool, pc: Pc): Option<State> {
    Some(s.(pc := pc, seen := s.seen || cancelled))
  }

  function AfterRead(cfg: Config, d: Delivery, r: ReadResult): Pc {
    match r
    case NotFound => Settling(d, Missing)
    case ReadError(cancelled) => Settling(d, Unreadable(cancelled))
    case Found(body) =>
      var text := cfg.trim(body);
      if text == "" then Settling(d, Empty)
      else if cfg.rewriting then Rewriting(d, text)
      else Publishing(d, text)
  }

  predicate CausedByCancel(e: Event) {
    match e
    case Read(ReadError(cancelled)) => cancelled
    case Rewrite(_, RewriteError(cancelled)) => cancelled
    case Publish(_, Rejected(cancelled)) => cancelled
    case Sleep(_, interrupted) => interrupted
    case Interrupted => true
    case Check(cancelled) => cancelled
    case _ => false
  }

  /** The delivery a control point has taken from the stream and not yet settled. */
  function InHand(pc: Pc): Option<Delivery> {
    match pc
    case Entry(d) => Some(d)
    case Decoding(d) => Some(d)
    case Reading(d) => Some(d)
    case Rewriting(d, _) => Some(d)
    case Publishing(d, _) => Some(d)
    case Settling(d, _) => Some(d)
    case Sending(d, _, _) => Some(d)
    case DrainSending(d) => Some(d)
    case _ => None
  }

  /** Run and connect. */
  function NextInRun(cfg: Config, s: State, e: Event): Option<State> {
    match s.pc
    case Head => if e.Check? then Observe(s, e.cancelled, Done, Dialing) else None
    case Dialing => if e.Dial? then Goto(s, if e.ok then Opening else FailCheck) else None
    case Opening => if e.OpenChannel? then Goto(s, if e.ok then Declaring(Exchange) else FailConn) else None
    case Declaring(step) =>
      if !e.Declare? || e.step != step then None
      else if !e.ok then Goto(s, FailChannel)
      else Goto(s, if step == Consume then Connected else Declaring(NextSetup(step)))
    case FailChannel => if e.CloseChannel? then Goto(s, FailConn) else None
    case FailConn => if e.CloseConn? then Goto(s, FailCheck) else None
    case FailCheck =>
      if !e.Check? then None
      else if e.cancelled then Observe(s, true, Done, Done)
      else Observe(s.(failures := s.failures + 1), false, Done, Sleeping)
    case Sleeping =>
      if !e.Sleep? || e.delay != cfg.backoff(s.failures) then None
      else Implies(s, e.interrupted, if e.interrupted then Done else Head)
    case Connected =>
      if e.Check? then Observe(s.(delivered := false), e.cancelled, ClosingChannel(true), Loop) else None
    case AfterConsume =>
      if e.Check? then Observe(s, e.cancelled, ClosingChannel(true), ClosingChannel(false)) else None
    case ClosingChannel(last) => if e.CloseChannel? then Goto(s, ClosingConn(last)) else None
    case ClosingConn(last) =>
      if !e.CloseConn? then None
      else if last then Goto(s, Done)
      else Goto(s.(failures := (if s.delivered then 0 else s.failures) + 1), Sleeping)
    case _ => None
  }

  /** consume and drainDeliveries, while no delivery is in hand. */
  function NextInConsume(s: State, e: Event): Option<State> {
    match s.pc
    case Loop => if e.Check? then Observe(s, e.cancelled, Cancelling, Select) else None
    case Select =>
      if e.Receive? then Goto(s.(delivered := true), Entry(e.d))
      else if e.StreamEnd? then Goto(s, AfterConsume)
      else if e.Interrupted? then Implies(s, true, Cancelling)
      else None
    case Cancelling => if e.CancelConsumer? then Goto(s, Draining) else None
    case Draining =>
      if e.DrainOne? then Goto(s, DrainSending(e.d))
      else if e.DrainStop? then Goto(s, AfterConsume)
      else None
    case _ => None
  }

  /** handleDelivery, settle and the nack of a drained delivery. */
  function NextInHand(cfg: Config, s: State, e: Event): Option<State> {
    match s.pc
    case Entry(d) => if e.Check? then Observe(s, e.cancelled, Settling(d, Untouched), Decoding(d)) else None
    case Decoding(d) => if e.Decode? then Goto(s, if e.ok then Reading(d) else Settling(d, Undecodable)) else None
    case Reading(d) => if e.Read? then Implies(s, CausedByCancel(e), AfterRead(cfg, d, e.read)) else None
    case Rewriting(d, text) =>
      if !e.Rewrite? || e.summary != text then None
      else Implies(s, CausedByCancel(e), Publishing(d, Chosen(cfg, text, e.rewrite)))
    case Publishing(d, text) =>
      if !e.Publish? || e.text != text then None
      else Implies(s, CausedByCancel(e),
                   Settling(d, if e.publish.Accepted? then Posted else Dropped(e.publish.cancelled)))
    case Settling(d, outcome) =>
      if e.Check? then Observe(s, e.cancelled, Sending(d, Nack, outcome), Sending(d, Ack, outcome)) else None
    case Sending(d, kind, _) =>
      if e.Settle? && e.kind == kind && e.tag == d.tag then Goto(s, Loop) else None
    case DrainSending(d) =>
      if e.Settle? && e.kind == Nack && e.tag == d.tag then Goto(s, Draining) else None
    case _ => None
  }

  predicate InConsume(pc: Pc) {
    pc.Loop? || pc.Select? || pc.Cancelling? || pc.Draining?
  }

  /** The automaton. */
  function Next(cfg: Config, s: State, e: Event): Option<State> {
    if InHand(s.pc).Some? then NextInHand(cfg, s, e)
    else if InConsume(s.pc) then NextInConsume(s, e)
    else NextInRun(cfg, s, e)
  }

  type Trace = seq<Event>

  /** The state a trace leads to, if the automaton accepts it. */
  function Run(cfg: Config, tr: Trace): Option<State> {
    if tr == [] then Some(START)
    else Then(cfg, Run(cfg, tr[..|tr| - 1]), tr[|tr| - 1])
  }

  function Then(cfg: Config, s: Option<State>, e: Event): Option<State> {
    match s
    case None => None
    case Some(state) => Next(cfg, state, e)
  }

  predicate Accepts(cfg: Config, tr: Trace) {
    Run(cfg, tr).Some?
  }

  lemma RunExtend(cfg: Config, tr: Trace, e: Event)
    ensures Run(cfg, tr + [e]) == Then(cfg, Run(cfg, tr), e)
  {
  }

  /** Every prefix of an accepted trace is accepted. */
  lemma {:induction false} PrefixAccepted(cfg: Config, tr: Trace, k: nat)
    requires Accepts(cfg, tr) && k <= |tr|
    ensures Accepts(cfg, tr[..k])
  {
    if k == |tr| {
      assert tr[..k] == tr;
    } else {
      PrefixAccepted(cfg, tr[..|tr| - 1], k);
      assert tr[..|tr| - 1][..k] == tr[..k];
    }
  }

  /** The control points at which a session exists. */
  predicate InSession(pc: Pc) {
    || pc.Connected? || pc.Loop? || pc.Select? || InHand(pc).Some?
    || pc.Cancelling? || pc.Draining? || pc.AfterConsume? || pc.ClosingChannel?
  }

  /** What the control point alone implies about cancellation and the outcome in hand. */
  predicate Consistent(s: State) {
    match s.pc
    case Settling(_, outcome) => Completed(outcome) || s.seen
    case Sending(_, kind, outcome) => if kind == Ack then Completed(outcome) && !s.seen else s.seen
    case Cancelling => s.seen
    case Draining => s.seen
    case DrainSending(_) => s.seen
    case ClosingChannel(last) => last == s.seen
    case ClosingConn(last) => last == s.seen
    case Dialing => !s.seen
    case Sleeping => !s.seen && s.failures >= 1
    case Done => s.seen
    case _ => true
  }

  lemma RunStepConsistent(cfg: Config, s: State, e: Event)
    requires Consistent(s) && NextInRun(cfg, s, e).Some?
    ensures Consistent(NextInRun(cfg, s, e).value)
    ensures s.seen ==> NextInRun(cfg, s, e).value.seen
  {
  }

  lemma ConsumeStepConsistent(s: State, e: Event)
    requires Consistent(s) && NextInConsume(s, e).Some?
    ensures Consistent(NextInConsume(s, e).value)
    ensures s.seen ==> NextInConsume(s, e).value.seen
  {
  }

  lemma HandStepConsistent(cfg: Config, s: State, e: Event)
    requires Consistent(s) && NextInHand(cfg, s, e).Some?
    ensures Consistent(NextInHand(cfg, s, e).value)
    ensures s.seen ==> NextInHand(cfg, s, e).value.seen
  {
  }

  lemma NextConsistent(cfg: Config, s: State, e: Event)
    requires Consistent(s) && Next(cfg, s, e).Some?
    ensures Consistent(Next(cfg, s, e).value)
    ensures s.seen ==> Next(cfg, s, e).value.seen
  {
    if InHand(s.pc).Some? {
      HandStepConsistent(cfg, s, e);
    } else if InConsume(s.pc) {
      ConsumeStepConsistent(s, e);
    } else {
      RunStepConsistent(cfg, s, e);
    }
  }

  lemma {:induction false} RunConsistent(cfg: Config, tr: Trace)
    requires Accepts(cfg, tr)
    ensures Consistent(Run(cfg, tr).value)
  {
    if tr != [] {
      var n := |tr| - 1;
      RunConsistent(cfg, tr[..n]);
      NextConsistent(cfg, Run(cfg, tr[..n]).value, tr[n]);
    }
  }

  /** No reachable control point is stuck: until Run has returned some event is accepted. */
  lemma NeverStuck(cfg: Config, tr: Trace) returns (e: Event)
    requires Accepts(cfg, tr) && Run(cfg, tr).value.pc != Done
    ensures Accepts(cfg, tr + [e])
  {
    var s := Run(cfg, tr).value;
    e := match s.pc
      case Dialing => Dial(true)
      case Opening => OpenChannel(true)
      case Declaring(step) => Declare(step, true)
      case FailChannel => CloseChannel
      case FailConn => CloseConn
      case Sleeping => Sleep(cfg.backoff(s.failures), false)
      case Select => StreamEnd
      case Cancelling => CancelConsumer
      case Draining => DrainStop
      case DrainSending(d) => Settle(Nack, d.tag, true)
      case Decoding(_) => Decode(true)
      case Reading(_) => Read(NotFound)
      case Rewriting(_, text) => Rewrite(text, Report(text))
      case Publishing(_, text) => Publish(text, Accepted)
      case Sending(d, kind, _) => Settle(kind, d.tag, true)
      case ClosingChannel(_) => CloseChannel
      case ClosingConn(_) => CloseConn
      case _ => Check(true);
    RunExtend(cfg, tr, e);
  }

  // --------------------------------------------------- one session's bookkeeping

  /** How one event moves a replica with respect to its session and its hand. */
  predicate SessionStep(s: State, e: Event, s': State) {
    && (e == Declare(Consume, true) ==> !InSession(s.pc) && s'.pc.Connected?)
    && (e != Declare(Consume, true) && InSession(s'.pc) ==> InSession(s.pc))
    && (e.Receive? || e.DrainOne? ==>
          && InSession(s.pc) && InHand(s.pc).None? && InHand(s'.pc) == Some(e.d)
          && (s'.pc.Entry? || s'.pc.DrainSending?))
    && (e.Settle? ==>
          && InHand(s.pc).Some? && InHand(s.pc).value.tag == e.tag && InHand(s'.pc).None?
          && (e.kind == Ack ==> s.pc.Sending? && s.pc.kind == Ack))
    && (e.Publish? ==> s.pc.Publishing? && s'.pc.Settling?)
    && (!e.Receive? && !e.DrainOne? && !e.Settle? ==> InHand(s'.pc) == InHand(s.pc))
    && (s.pc.Settling? || s.pc.Sending? ==> s'.pc.Sending? || InHand(s'.pc).None?)
    && (e.CloseChannel? ==> !InSession(s'.pc) && InHand(s.pc).None?)
    && (s'.seen ==> s.seen || CausedByCancel(e))
  }

  predicate Ending(pc: Pc) {
    pc.Connected? || pc.AfterConsume? || pc.ClosingChannel? || pc.ClosingConn?
  }

  lemma EndingSessionStep(cfg: Config, s: State, e: Event)
    requires NextInRun(cfg, s, e).Some? && Ending(s.pc)
    ensures SessionStep(s, e, NextInRun(cfg, s, e).value)
  {
  }

  lemma RunSessionStep(cfg: Config, s: State, e: Event)
    requires NextInRun(cfg, s, e).Some?
    ensures SessionStep(s, e, NextInRun(cfg, s, e).value)
  {
    if Ending(s.pc) {
      EndingSessionStep(cfg, s, e);
    }
  }

  lemma ConsumeSessionStep(s: State, e: Event)
    requires NextInConsume(s, e).Some?
    ensures SessionStep(s, e, NextInConsume(s, e).value)
  {
  }

  lemma HandSessionStep(cfg: Config, s: State, e: Event)
    requires NextInHand(cfg, s, e).Some?
    ensures SessionStep(s, e, NextInHand(cfg, s, e).value)
  {
  }

  lemma NextSessionStep(cfg: Config, s: State, e: Event)
    requires Next(cfg, s, e).Some?
    ensures SessionStep(s, e, Next(cfg, s, e).value)
  {
    if InHand(s.pc).Some? {
      HandSessionStep(cfg, s, e);
    } else if InConsume(s.pc) {
      ConsumeSessionStep(s, e);
    } else {
      RunSessionStep(cfg, s, e);
    }
  }
}
