/** What every run of one replica keeps, whatever the broker and the pipeline
    answer and whenever cancellation strikes. Each property is stated over the
    trace by a monitor of its own, independent of the automaton. */
module Discipline {
  import opened Results
  import opened Backoff
  import opened Protocol

  // ------------------------------------------------------- states along a trace

  function StateAt(cfg: Config, tr: Trace, k: nat): State
    requires Accepts(cfg, tr) && k <= |tr|
  {
    PrefixAccepted(cfg, tr, k);
    Run(cfg, tr[..k]).value
  }

  lemma StepAt(cfg: Config, tr: Trace, k: nat)
    requires Accepts(cfg, tr) && k < |tr|
    ensures Next(cfg, StateAt(cfg, tr, k), tr[k]) == Some(StateAt(cfg, tr, k + 1))
    ensures Consistent(StateAt(cfg, tr, k)) && Consistent(StateAt(cfg, tr, k + 1))
    ensures StateAt(cfg, tr, k).seen ==> StateAt(cfg, tr, k + 1).seen
  {
    PrefixAccepted(cfg, tr, k);
    PrefixAccepted(cfg, tr, k + 1);
    RunExtend(cfg, tr[..k], tr[k]);
    assert tr[..k + 1] == tr[..k] + [tr[k]];
    RunConsistent(cfg, tr[..k]);
    RunConsistent(cfg, tr[..k + 1]);
    NextConsistent(cfg, StateAt(cfg, tr, k), tr[k]);
  }

  // ---------------------------------------------------------------- settlements

  /** A delivery tag together with the session, counted from one, that scopes it. */
  datatype Handle = Handle(session: nat, tag: nat)

  datatype Attempt = Attempt(handle: Handle, kind: Kind)

  /** Sessions begun so far. */
  function Sessions(tr: Trace): nat {
    if tr == [] then 0 else SessionAfter(Sessions(tr[..|tr| - 1]), tr[|tr| - 1])
  }

  function SessionAfter(session: nat, e: Event): nat {
    if e == Declare(Consume, true) then session + 1 else session
  }

  function Taken(session: nat, e: Event): seq<Handle> {
    match e
    case Receive(d) => [Handle(session, d.tag)]
    case DrainOne(d) => [Handle(session, d.tag)]
    case _ => []
  }

  function Tried(session: nat, e: Event): seq<Attempt> {
    match e
    case Settle(kind, tag, _) => [Attempt(Handle(session, tag), kind)]
    case _ => []
  }

  /** Every delivery taken off a stream, handled or drained, in order. */
  function Dequeued(tr: Trace): seq<Handle> {
    if tr == [] then []
    else
      var before := tr[..|tr| - 1];
      Dequeued(before) + Taken(Sessions(before), tr[|tr| - 1])
  }

  /** Every settlement attempted, in order. */
  function Attempts(tr: Trace): seq<Attempt> {
    if tr == [] then []
    else
      var before := tr[..|tr| - 1];
      Attempts(before) + Tried(Sessions(before), tr[|tr| - 1])
  }

  function Handles(attempts: seq<Attempt>): seq<Handle> {
    seq(|attempts|, i requires 0 <= i < |attempts| => attempts[i].handle)
  }

  function Pending(session: nat, pc: Pc): seq<Handle> {
    match InHand(pc)
    case Some(d) => [Handle(session, d.tag)]
    case None => []
  }

  /** Acks first, then only nacks. */
  predicate AcksThenNacks(attempts: seq<Attempt>) {
    forall i, j :: 0 <= i < j < |attempts| && attempts[i].kind == Nack ==> attempts[j].kind == Nack
  }

  predicate NackTried(attempts: seq<Attempt>) {
    exists i :: 0 <= i < |attempts| && attempts[i].kind == Nack
  }

  lemma PendingStepInRun(cfg: Config, session: nat, s: State, e: Event)
    requires NextInRun(cfg, s, e).Some?
    ensures !e.Settle? && Taken(session, e) == [] && InHand(NextInRun(cfg, s, e).value.pc).None?
  {
  }

  lemma PendingStepInConsume(session: nat, s: State, e: Event)
    requires NextInConsume(s, e).Some?
    ensures !e.Settle? && SessionAfter(session, e) == session
    ensures Taken(session, e) == Pending(session, NextInConsume(s, e).value.pc)
  {
  }

  lemma PendingStepInHand(cfg: Config, session: nat, s: State, e: Event)
    requires InHand(s.pc).Some? && NextInHand(cfg, s, e).Some?
    ensures !e.Receive? && !e.DrainOne? && SessionAfter(session, e) == session
    ensures var pc := NextInHand(cfg, s, e).value.pc;
            if e.Settle? then InHand(pc).None? && e.tag == InHand(s.pc).value.tag else InHand(pc) == InHand(s.pc)
  {
  }

  /** One event moves a handle into the hand, out of it, or neither. */
  lemma PendingStep(cfg: Config, session: nat, s: State, e: Event)
    requires Next(cfg, s, e).Some?
    ensures Pending(session, s.pc) + Taken(session, e)
         == Handles(Tried(session, e)) + Pending(SessionAfter(session, e), Next(cfg, s, e).value.pc)
  {
    var tried := Handles(Tried(session, e));
    if InHand(s.pc).Some? {
      PendingStepInHand(cfg, session, s, e);
      assert tried == if e.Settle? then [Handle(session, e.tag)] else [];
    } else if InConsume(s.pc) {
      PendingStepInConsume(session, s, e);
      assert tried == [];
    } else {
      PendingStepInRun(cfg, session, s, e);
      assert tried == [];
    }
  }

  lemma KindStep(cfg: Config, session: nat, attempts: seq<Attempt>, s: State, e: Event)
    requires Next(cfg, s, e).Some? && Consistent(s)
    requires AcksThenNacks(attempts) && (NackTried(attempts) ==> s.seen)
    ensures var after := attempts + Tried(session, e);
            AcksThenNacks(after) && (NackTried(after) ==> Next(cfg, s, e).value.seen)
  {
    NextConsistent(cfg, s, e);
    var after := attempts + Tried(session, e);
    if e.Settle? && e.kind == Ack {
      assert !NackTried(attempts);
    }
    if i :| 0 <= i < |after| && after[i].kind == Nack {
      if i < |attempts| {
        assert NackTried(attempts);
      }
    }
  }

  lemma Shift<T>(taken: seq<T>, tried: seq<T>, hand: seq<T>, more: seq<T>, settled: seq<T>, hand': seq<T>)
    requires taken == tried + hand && hand + more == settled + hand'
    ensures taken + more == (tried + settled) + hand'
  {
    assert taken + more == tried + (hand + more);
  }

  function Hand(cfg: Config, tr: Trace): seq<Handle>
    requires Accepts(cfg, tr)
  {
    Pending(Sessions(tr), Run(cfg, tr).value.pc)
  }

  lemma HandStep(cfg: Config, tr: Trace)
    requires Accepts(cfg, tr) && tr != []
    ensures var before, e := tr[..|tr| - 1], tr[|tr| - 1];
            && Accepts(cfg, before)
            && Hand(cfg, before) + Taken(Sessions(before), e)
            == Handles(Tried(Sessions(before), e)) + Hand(cfg, tr)
  {
    var before, e := tr[..|tr| - 1], tr[|tr| - 1];
    PendingStep(cfg, Sessions(before), Run(cfg, before).value, e);
  }

  lemma {:induction false} DequeuedInvariant(cfg: Config, tr: Trace)
    requires Accepts(cfg, tr)
    ensures Dequeued(tr) == Handles(Attempts(tr)) + Hand(cfg, tr)
  {
    if tr != [] {
      var before, e := tr[..|tr| - 1], tr[|tr| - 1];
      HandStep(cfg, tr);
      DequeuedInvariant(cfg, before);
      var tried := Tried(Sessions(before), e);
      HandlesConcat(Attempts(before), tried);
      Shift(Dequeued(before), Handles(Attempts(before)), Hand(cfg, before),
            Taken(Sessions(before), e), Handles(tried), Hand(cfg, tr));
    }
  }

  lemma {:induction false} KindInvariant(cfg: Config, tr: Trace)
    requires Accepts(cfg, tr)
    ensures AcksThenNacks(Attempts(tr))
    ensures NackTried(Attempts(tr)) ==> Run(cfg, tr).value.seen
  {
    if tr != [] {
      var before, e := tr[..|tr| - 1], tr[|tr| - 1];
      KindInvariant(cfg, before);
      RunConsistent(cfg, before);
      KindStep(cfg, Sessions(before), Attempts(before), Run(cfg, before).value, e);
    }
  }

  lemma HandlesConcat(a: seq<Attempt>, b: seq<Attempt>)
    ensures Handles(a + b) == Handles(a) + Handles(b)
  {
  }

  /** Settlement attempts are exactly the dequeued deliveries, once each, in order and
      on the session that dequeued them, up to the one in hand; and over the whole run
      they are acks followed by nacks. */
  lemma SettlementDiscipline(cfg: Config, tr: Trace)
    requires Accepts(cfg, tr)
    ensures var pc := Run(cfg, tr).value.pc;
            && Handles(Attempts(tr)) <= Dequeued(tr)
            && |Dequeued(tr)| - |Attempts(tr)| == (if InHand(pc).Some? then 1 else 0)
            && (!InSession(pc) ==> Handles(Attempts(tr)) == Dequeued(tr))
            && AcksThenNacks(Attempts(tr))
  {
    DequeuedInvariant(cfg, tr);
    KindInvariant(cfg, tr);
  }

  // ------------------------------------------------------------ what an ack means

  /** The events since the last delivery was dequeued, that one included. */
  function Work(tr: Trace): Trace {
    if tr == [] then []
    else
      var n := |tr| - 1;
      WorkAfter(Work(tr[..n]), tr[n])
  }

  /** The work began with this delivery, a living context and a readable body. */
  predicate Decoded(w: Trace, d: Delivery) {
    |w| >= 3 && w[0] == Receive(d) && w[1] == Check(false) && w[2] == Decode(true)
  }

  /** ... and read a summary that trims to this text. */
  predicate HasRead(cfg: Config, w: Trace, d: Delivery, text: string) {
    && |w| >= 4 && Decoded(w, d)
    && w[3].Read? && w[3].read.Found? && text == cfg.trim(w[3].read.body) && text != ""
  }

  /** The first n events of the work have fixed which text to publish. */
  predicate HasText(cfg: Config, w: Trace, n: nat, d: Delivery, text: string)
    requires n <= |w|
  {
    if cfg.rewriting then
      && n == 5 && w[4].Rewrite?
      && HasRead(cfg, w, d, w[4].summary)
      && text == Chosen(cfg, w[4].summary, w[4].rewrite)
    else
      n == 4 && HasRead(cfg, w, d, text)
  }

  /** The first n events of the work are the whole pipeline for the delivery, from its
      receipt to the outcome. */
  predicate Pipeline(cfg: Config, w: Trace, n: nat, d: Delivery, o: Outcome)
    requires n <= |w|
  {
    match o
    case Untouched => n == 2 && w[0] == Receive(d) && w[1] == Check(true)
    case Undecodable => n == 3 && w[0] == Receive(d) && w[1] == Check(false) && w[2] == Decode(false)
    case Missing => n == 4 && Decoded(w, d) && w[3] == Read(NotFound)
    case Unreadable(c) => n == 4 && Decoded(w, d) && w[3] == Read(ReadError(c))
    case Empty =>
      n == 4 && Decoded(w, d) && w[3].Read? && w[3].read.Found? && cfg.trim(w[3].read.body) == ""
    case Dropped(c) => Published(cfg, w, n, d, Rejected(c))
    case Posted => Published(cfg, w, n, d, Accepted)
  }

  predicate Published(cfg: Config, w: Trace, n: nat, d: Delivery, r: PublishResult)
    requires n <= |w|
  {
    n >= 1 && w[n - 1].Publish? && w[n - 1].publish == r && HasText(cfg, w, n - 1, d, w[n - 1].text)
  }

  /** The work done so far, read off the control point. */
  predicate WorkMatches(cfg: Config, w: Trace, pc: Pc) {
    match pc
    case Entry(d) => w == [Receive(d)]
    case Decoding(d) => |w| == 2 && w[0] == Receive(d) && w[1] == Check(false)
    case Reading(d) => |w| == 3 && Decoded(w, d)
    case Rewriting(d, text) => cfg.rewriting && |w| == 4 && HasRead(cfg, w, d, text)
    case Publishing(d, text) => HasText(cfg, w, |w|, d, text)
    case Settling(d, o) => Pipeline(cfg, w, |w|, d, o)
    case Sending(d, kind, o) =>
      |w| >= 1 && Pipeline(cfg, w, |w| - 1, d, o) && w[|w| - 1] == Check(kind == Nack)
    case DrainSending(d) => w == [DrainOne(d)]
    case _ => true
  }

  function WorkAfter(w: Trace, e: Event): Trace {
    if e.Receive? || e.DrainOne? then [e] else w + [e]
  }

  lemma PublishStep(cfg: Config, w: Trace, d: Delivery, text: string, r: PublishResult)
    requires WorkMatches(cfg, w, Publishing(d, text))
    ensures var o := if r.Accepted? then Posted else Dropped(r.cancelled);
            WorkMatches(cfg, w + [Publish(text, r)], Settling(d, o))
  {
  }

  lemma SettlingStep(cfg: Config, w: Trace, d: Delivery, o: Outcome, c: bool)
    requires WorkMatches(cfg, w, Settling(d, o))
    ensures WorkMatches(cfg, w + [Check(c)], Sending(d, if c then Nack else Ack, o))
  {
  }

  lemma RewriteStep(cfg: Config, w: Trace, d: Delivery, text: string, r: RewriteResult)
    requires WorkMatches(cfg, w, Rewriting(d, text))
    ensures WorkMatches(cfg, w + [Rewrite(text, r)], Publishing(d, Chosen(cfg, text, r)))
  {
  }

  lemma FirstSteps(cfg: Config, w: Trace, s: State, e: Event)
    requires WorkMatches(cfg, w, s.pc) && NextInHand(cfg, s, e).Some?
    requires s.pc.Entry? || s.pc.Decoding?
    ensures WorkMatches(cfg, w + [e], NextInHand(cfg, s, e).value.pc)
  {
  }

  lemma ReadStep(cfg: Config, w: Trace, d: Delivery, r: ReadResult)
    requires WorkMatches(cfg, w, Reading(d))
    ensures WorkMatches(cfg, w + [Read(r)], AfterRead(cfg, d, r))
  {
  }

  lemma WorkStepInHand(cfg: Config, w: Trace, s: State, e: Event)
    requires WorkMatches(cfg, w, s.pc) && NextInHand(cfg, s, e).Some?
    ensures WorkMatches(cfg, w + [e], NextInHand(cfg, s, e).value.pc)
  {
    match s.pc {
      case Entry(_) => FirstSteps(cfg, w, s, e);
      case Decoding(_) => FirstSteps(cfg, w, s, e);
      case Reading(d) => ReadStep(cfg, w, d, e.read);
      case Rewriting(d, text) => RewriteStep(cfg, w, d, text, e.rewrite);
      case Publishing(d, text) => PublishStep(cfg, w, d, text, e.publish);
      case Settling(d, o) => SettlingStep(cfg, w, d, o, e.cancelled);
      case _ =>
    }
  }

  lemma WorkStepInConsume(cfg: Config, w: Trace, s: State, e: Event)
    requires NextInConsume(s, e).Some?
    ensures WorkMatches(cfg, WorkAfter(w, e), NextInConsume(s, e).value.pc)
  {
  }

  lemma WorkStepInRun(cfg: Config, w: Trace, s: State, e: Event)
    requires NextInRun(cfg, s, e).Some?
    ensures WorkMatches(cfg, WorkAfter(w, e), NextInRun(cfg, s, e).value.pc)
  {
    PendingStepInRun(cfg, 0, s, e);
  }

  lemma WorkStep(cfg: Config, w: Trace, s: State, e: Event)
    requires WorkMatches(cfg, w, s.pc) && Next(cfg, s, e).Some?
    ensures WorkMatches(cfg, WorkAfter(w, e), Next(cfg, s, e).value.pc)
  {
    if InHand(s.pc).Some? {
      PendingStepInHand(cfg, 0, s, e);
      WorkStepInHand(cfg, w, s, e);
    } else if InConsume(s.pc) {
      WorkStepInConsume(cfg, w, s, e);
    } else {
      WorkStepInRun(cfg, w, s, e);
    }
  }

  lemma {:induction false} WorkInvariant(cfg: Config, tr: Trace)
    requires Accepts(cfg, tr)
    ensures WorkMatches(cfg, Work(tr), Run(cfg, tr).value.pc)
  {
    if tr != [] {
      var n := |tr| - 1;
      WorkInvariant(cfg, tr[..n]);
      WorkStep(cfg, Work(tr[..n]), Run(cfg, tr[..n]).value, tr[n]);
    }
  }

  /** An ack is attempted only after the whole pipeline ran for that delivery since its
      receipt and ended in an outcome that cancellation did not cause, the context being
      observed alive immediately before the ack. */
  lemma AckMeansCompleted(cfg: Config, tr: Trace, tag: nat, ok: bool)
      returns (d: Delivery, o: Outcome)
    requires Accepts(cfg, tr + [Settle(Ack, tag, ok)])
    ensures d.tag == tag && Completed(o) && o != Untouched && o != Unreadable(true) && o != Dropped(true)
    ensures var w := Work(tr);
            |w| >= 1 && w[|w| - 1] == Check(false) && Pipeline(cfg, w, |w| - 1, d, o)
  {
    RunExtend(cfg, tr, Settle(Ack, tag, ok));
    WorkInvariant(cfg, tr);
    RunConsistent(cfg, tr);
    var s := Run(cfg, tr).value;
    d, o := s.pc.d, s.pc.outcome;
  }

  /** What is published for a delivery is the summary read for it, trimmed, if no rewriter is
      configured, the rewriter failed or its report is blank; otherwise it is the report made
      from that trimmed summary, itself trimmed. It is never empty. */
  lemma PublishedText(cfg: Config, tr: Trace, text: string, r: PublishResult) returns (d: Delivery, body: string)
    requires Accepts(cfg, tr + [Publish(text, r)])
    ensures text != "" && HasText(cfg, Work(tr), |Work(tr)|, d, text)
    ensures var w := Work(tr);
            && |w| == (if cfg.rewriting then 5 else 4)
            && w[0] == Receive(d) && w[3] == Read(Found(body))
            && (!cfg.rewriting ==> text == cfg.trim(body))
    ensures cfg.rewriting ==>
              match Work(tr)[4]
              case Rewrite(summary, RewriteError(_)) => summary == cfg.trim(body) && text == summary
              case Rewrite(summary, Report(report)) =>
                && summary == cfg.trim(body)
                && (cfg.trim(report) == "" ==> text == summary)
                && (cfg.trim(report) != "" ==> text == cfg.trim(report))
              case _ => false
  {
    RunExtend(cfg, tr, Publish(text, r));
    WorkInvariant(cfg, tr);
    d := Run(cfg, tr).value.pc.d;
    body := Work(tr)[3].read.body;
  }

  /** The window in which duplicates arise: after any successful publication the context
      may be found cancelled, and then the published delivery is requeued, never acked. */
  lemma PublishedMayBeRequeued(cfg: Config, tr: Trace, text: string, kind: Kind, ok: bool) returns (d: Delivery)
    requires Accepts(cfg, tr + [Publish(text, Accepted)])
    ensures HasText(cfg, Work(tr), |Work(tr)|, d, text)
    ensures Accepts(cfg, tr + [Publish(text, Accepted)] + [Check(true)] + [Settle(kind, d.tag, ok)]) <==> kind == Nack
  {
    RunExtend(cfg, tr, Publish(text, Accepted));
    WorkInvariant(cfg, tr);
    var s := Run(cfg, tr).value;
    d := s.pc.d;
    SettledAfterPublication(cfg, s, d, kind, ok);
    var published := tr + [Publish(text, Accepted)];
    RunExtend(cfg, published, Check(true));
    RunExtend(cfg, published + [Check(true)], Settle(kind, d.tag, ok));
  }

  function Requeueing(cfg: Config, s: State, text: string, kind: Kind, tag: nat, ok: bool): Option<State> {
    Then(cfg, Then(cfg, Next(cfg, s, Publish(text, Accepted)), Check(true)), Settle(kind, tag, ok))
  }

  lemma SettledAfterPublication(cfg: Config, s: State, d: Delivery, kind: Kind, ok: bool)
    requires s.pc.Publishing? && s.pc.d == d
    ensures Requeueing(cfg, s, s.pc.text, kind, d.tag, ok).Some? <==> kind == Nack
  {
    var settling := Next(cfg, s, Publish(s.pc.text, Accepted)).value;
    assert settling.pc == Settling(d, Posted);
    var sending := Next(cfg, settling, Check(true)).value;
    assert sending.pc == Sending(d, Nack, Posted);
  }

  /** A delivery received after cancellation starts no work: the only continuation is
      the two context checks and a requeueing nack of its own tag. */
  lemma CancelledDeliveryIsRequeued(cfg: Config, tr: Trace, i: nat, d: Delivery)
    requires Accepts(cfg, tr) && i + 1 < |tr|
    requires tr[i] == Receive(d) && tr[i + 1] == Check(true)
    ensures i + 2 < |tr| ==> tr[i + 2] == Check(true)
    ensures i + 3 < |tr| ==> tr[i + 3].Settle? && tr[i + 3].kind == Nack && tr[i + 3].tag == d.tag
  {
    StepAt(cfg, tr, i);
    assert StateAt(cfg, tr, i + 1).pc == Entry(d);
    StepAt(cfg, tr, i + 1);
    var settling := StateAt(cfg, tr, i + 2);
    assert settling.pc == Settling(d, Untouched) && settling.seen;
    if i + 2 < |tr| {
      StepAt(cfg, tr, i + 2);
      assert StateAt(cfg, tr, i + 3).pc == Sending(d, Nack, Untouched);
    }
    if i + 3 < |tr| {
      StepAt(cfg, tr, i + 3);
    }
  }

  // ------------------------------------------------------------------- resources

  /** Connections and channels opened and closed so far. */
  datatype Ledger = Ledger(dialled: nat, channels: nat, channelsClosed: nat, connsClosed: nat) {
    predicate ConnOpen() { dialled == connsClosed + 1 }
    predicate ChannelOpen() { channels == channelsClosed + 1 }
    predicate AllClosed() { dialled == connsClosed && channels == channelsClosed }
  }

  /** Books one event, refusing any use of a resource that is not open, a second open
      one, a double close, and a connection closed before its channel. */
  function Book(l: Ledger, e: Event): Option<Ledger> {
    match e
    case Dial(ok) => if !l.AllClosed() then None else Some(if ok then l.(dialled := l.dialled + 1) else l)
    case OpenChannel(ok) =>
      if !l.ConnOpen() || l.ChannelOpen() then None else Some(if ok then l.(channels := l.channels + 1) else l)
    case CloseChannel => if !l.ChannelOpen() then None else Some(l.(channelsClosed := l.channelsClosed + 1))
    case CloseConn =>
      if !l.ConnOpen() || l.ChannelOpen() then None else Some(l.(connsClosed := l.connsClosed + 1))
    case Sleep(_, _) => if l.AllClosed() then Some(l) else None
    case Check(_) => Some(l)
    case _ => if l.ChannelOpen() then Some(l) else None
  }

  function Books(tr: Trace): Option<Ledger> {
    if tr == [] then Some(Ledger(0, 0, 0, 0))
    else
      var n := |tr| - 1;
      match Books(tr[..n])
      case None => None
      case Some(l) => Book(l, tr[n])
  }

  predicate HoldsConn(pc: Pc) {
    HoldsChannel(pc) || pc.Opening? || pc.FailConn? || pc.ClosingConn?
  }

  predicate HoldsChannel(pc: Pc) {
    InSession(pc) || pc.Declaring? || pc.FailChannel?
  }

  predicate Balanced(l: Ledger, pc: Pc) {
    && l.dialled == l.connsClosed + (if HoldsConn(pc) then 1 else 0)
    && l.channels == l.channelsClosed + (if HoldsChannel(pc) then 1 else 0)
  }

  lemma BookStep(cfg: Config, l: Ledger, s: State, e: Event)
    requires Balanced(l, s.pc) && Next(cfg, s, e).Some?
    ensures Book(l, e).Some? && Balanced(Book(l, e).value, Next(cfg, s, e).value.pc)
  {
    if InHand(s.pc).None? && !InConsume(s.pc) {
      BookStepInRun(cfg, l, s, e);
    }
  }

  lemma BookStepInRun(cfg: Config, l: Ledger, s: State, e: Event)
    requires Balanced(l, s.pc) && NextInRun(cfg, s, e).Some?
    ensures Book(l, e).Some? && Balanced(Book(l, e).value, NextInRun(cfg, s, e).value.pc)
  {
  }

  lemma {:induction false} BooksBalance(cfg: Config, tr: Trace)
    requires Accepts(cfg, tr)
    ensures Books(tr).Some? && Balanced(Books(tr).value, Run(cfg, tr).value.pc)
  {
    if tr != [] {
      var n := |tr| - 1;
      BooksBalance(cfg, tr[..n]);
      BookStep(cfg, Books(tr[..n]).value, Run(cfg, tr[..n]).value, tr[n]);
    }
  }

  /** No resource leaks: at every dial, during every backoff sleep and once Run has
      returned, everything opened has been closed once, channel before connection. */
  lemma ResourceConservation(cfg: Config, tr: Trace)
    requires Accepts(cfg, tr)
    ensures Books(tr).Some?
    ensures var pc := Run(cfg, tr).value.pc;
            pc.Dialing? || pc.Sleeping? || pc.Done? ==> Books(tr).value.AllClosed()
  {
    BooksBalance(cfg, tr);
  }

  // --------------------------------------------------------------------- backoff

  /** Connect failures and session losses since the last productive loss, inclusive;
      and whether the current session has delivered anything. */
  datatype Streak = Streak(count: nat, productive: bool)

  function Tally(t: Streak, e: Event): Streak {
    match e
    case Dial(ok) => if ok then t else t.(count := t.count + 1)
    case OpenChannel(ok) => if ok then t else t.(count := t.count + 1)
    case Declare(step, ok) =>
      if !ok then t.(count := t.count + 1)
      else if step == Consume then t.(productive := false)
      else t
    case Receive(_) => t.(productive := true)
    case StreamEnd => t.(count := if t.productive then 1 else t.count + 1)
    case _ => t
  }

  function StreakOf(tr: Trace): Streak {
    if tr == [] then Streak(0, false)
    else Tally(StreakOf(tr[..|tr| - 1]), tr[|tr| - 1])
  }

  predicate StreakMatches(t: Streak, s: State) {
    match s.pc
    case FailChannel => t.count == s.failures + 1
    case FailConn => t.count == s.failures + 1
    case FailCheck => t.count == s.failures + 1
    case Connected => t.count == s.failures && !t.productive
    case AfterConsume => s.seen || t.count == (if s.delivered then 0 else s.failures) + 1
    case ClosingChannel(last) => last || t.count == (if s.delivered then 0 else s.failures) + 1
    case ClosingConn(last) => last || t.count == (if s.delivered then 0 else s.failures) + 1
    case Head => t.count == s.failures
    case Dialing => t.count == s.failures
    case Opening => t.count == s.failures
    case Declaring(_) => t.count == s.failures
    case Sleeping => t.count == s.failures
    case Done => true
    case _ => t.count == s.failures && t.productive == s.delivered
  }

  lemma StreakStep(cfg: Config, t: Streak, s: State, e: Event)
    requires StreakMatches(t, s) && Consistent(s) && Next(cfg, s, e).Some?
    ensures StreakMatches(Tally(t, e), Next(cfg, s, e).value)
  {
    if InHand(s.pc).Some? {
      StreakStepInHand(cfg, t, s, e);
    } else if InConsume(s.pc) {
      StreakStepInConsume(t, s, e);
    } else if Connecting(s.pc) {
      StreakStepConnecting(cfg, t, s, e);
    } else {
      StreakStepInRun(cfg, t, s, e);
    }
  }

  predicate Connecting(pc: Pc) {
    || pc.Head? || pc.Dialing? || pc.Opening? || pc.Declaring?
    || pc.FailChannel? || pc.FailConn? || pc.FailCheck? || pc.Sleeping?
  }

  lemma StreakStepConnecting(cfg: Config, t: Streak, s: State, e: Event)
    requires StreakMatches(t, s) && NextInRun(cfg, s, e).Some? && Connecting(s.pc)
    ensures StreakMatches(Tally(t, e), NextInRun(cfg, s, e).value)
  {
  }

  lemma StreakStepInRun(cfg: Config, t: Streak, s: State, e: Event)
    requires StreakMatches(t, s) && Consistent(s) && NextInRun(cfg, s, e).Some? && !Connecting(s.pc)
    ensures StreakMatches(Tally(t, e), NextInRun(cfg, s, e).value)
  {
  }

  lemma StreakStepInConsume(t: Streak, s: State, e: Event)
    requires StreakMatches(t, s) && Consistent(s) && NextInConsume(s, e).Some?
    ensures StreakMatches(Tally(t, e), NextInConsume(s, e).value)
  {
  }

  lemma StreakStepInHand(cfg: Config, t: Streak, s: State, e: Event)
    requires StreakMatches(t, s) && NextInHand(cfg, s, e).Some?
    ensures StreakMatches(Tally(t, e), NextInHand(cfg, s, e).value)
  {
  }

  lemma {:induction false} StreakInvariant(cfg: Config, tr: Trace)
    requires Accepts(cfg, tr)
    ensures StreakMatches(StreakOf(tr), Run(cfg, tr).value)
  {
    if tr != [] {
      var n := |tr| - 1;
      StreakInvariant(cfg, tr[..n]);
      RunConsistent(cfg, tr[..n]);
      StreakStep(cfg, StreakOf(tr[..n]), Run(cfg, tr[..n]).value, tr[n]);
    }
  }

  lemma SleepUsesStreak(cfg: Config, tr: Trace, i: nat)
    requires Accepts(cfg, tr) && i < |tr| && tr[i].Sleep?
    ensures StreakOf(tr[..i]).count >= 1 && tr[i].delay == cfg.backoff(StreakOf(tr[..i]).count)
  {
    StepAt(cfg, tr, i);
    PrefixAccepted(cfg, tr, i);
    StreakInvariant(cfg, tr[..i]);
  }

  /** The program's own backoff function. */
  ghost predicate UsesBackoffDelay(cfg: Config) {
    forall failures: nat :: cfg.backoff(failures) == BackoffDelay(failures)
  }

  /** Every backoff sleep lasts min(30s, 2^(k-1) s), where k is the streak. */
  lemma SleepSchedule(cfg: Config, tr: Trace, i: nat)
    requires UsesBackoffDelay(cfg)
    requires Accepts(cfg, tr) && i < |tr| && tr[i].Sleep?
    ensures var k := StreakOf(tr[..i]).count;
            k >= 1 && tr[i].delay == Capped(INITIAL, CAP, k - 1)
  {
    SleepUsesStreak(cfg, tr, i);
    BackoffDelayIsCapped(StreakOf(tr[..i]).count);
  }

  predicate ProductiveLoss(tr: Trace, i: nat)
    requires i < |tr|
  {
    tr[i] == StreamEnd && StreakOf(tr[..i]).productive
  }

  lemma {:induction false} StreakGrows(tr: Trace, i: nat, j: nat)
    requires i <= j <= |tr|
    requires forall m :: i <= m < j ==> !ProductiveLoss(tr, m)
    ensures StreakOf(tr[..i]).count <= StreakOf(tr[..j]).count
  {
    if i < j {
      StreakGrows(tr, i, j - 1);
      assert tr[..j][..j - 1] == tr[..j - 1];
      assert !ProductiveLoss(tr, j - 1);
    }
  }

  /** Between productive losses the delays never shrink. */
  lemma SleepsNeverShrink(cfg: Config, tr: Trace, i: nat, j: nat)
    requires UsesBackoffDelay(cfg)
    requires Accepts(cfg, tr) && i <= j < |tr| && tr[i].Sleep? && tr[j].Sleep?
    requires forall m :: i <= m < j ==> !ProductiveLoss(tr, m)
    ensures tr[i].delay <= tr[j].delay
  {
    SleepUsesStreak(cfg, tr, i);
    SleepUsesStreak(cfg, tr, j);
    StreakGrows(tr, i, j);
    BackoffDelayMonotone(StreakOf(tr[..i]).count, StreakOf(tr[..j]).count);
  }

  /** How far the end of a stream has been dealt with. */
  function Stage(pc: Pc): nat {
    match pc
    case AfterConsume => 1
    case ClosingChannel(_) => 2
    case ClosingConn(_) => 3
    case Sleeping => 4
    case Done => 4
    case _ => 0
  }

  predicate Quiet(e: Event) {
    e.Check? || e.CloseChannel? || e.CloseConn?
  }

  lemma StageOfNext(cfg: Config, s: State, e: Event)
    requires Next(cfg, s, e).Some?
    ensures 1 <= Stage(s.pc) <= 3 ==> Quiet(e) && Stage(Next(cfg, s, e).value.pc) == Stage(s.pc) + 1
    ensures e == StreamEnd ==> Stage(Next(cfg, s, e).value.pc) == 1
    ensures Stage(s.pc) == 4 ==> e.Sleep?
  {
  }

  lemma StageStep(cfg: Config, tr: Trace, k: nat)
    requires Accepts(cfg, tr) && k < |tr|
    ensures var stage := Stage(StateAt(cfg, tr, k).pc);
            1 <= stage <= 3 ==> Quiet(tr[k]) && Stage(StateAt(cfg, tr, k + 1).pc) == stage + 1
    ensures tr[k] == StreamEnd ==> Stage(StateAt(cfg, tr, k + 1).pc) == 1
    ensures Stage(StateAt(cfg, tr, k).pc) == 4 ==> tr[k].Sleep?
  {
    StepAt(cfg, tr, k);
    StageOfNext(cfg, StateAt(cfg, tr, k), tr[k]);
  }

  /** After the end of a stream the session is closed, and then comes the sleep or the end. */
  lemma {:induction false} StageAfter(cfg: Config, tr: Trace, i: nat, m: nat)
    requires Accepts(cfg, tr) && 1 <= m <= 4 && i + m <= |tr| && tr[i] == StreamEnd
    ensures Stage(StateAt(cfg, tr, i + m).pc) == m
    ensures forall k :: i < k < i + m ==> Quiet(tr[k])
  {
    if m > 1 {
      StageAfter(cfg, tr, i, m - 1);
    }
    StageStep(cfg, tr, i + m - 1);
  }

  /** A productive loss restarts the schedule: the next sleep after it lasts one second. */
  lemma ProductiveLossSleepsOneSecond(cfg: Config, tr: Trace, i: nat, j: nat)
    requires UsesBackoffDelay(cfg)
    requires Accepts(cfg, tr) && i < j < |tr| && tr[j].Sleep?
    requires ProductiveLoss(tr, i)
    requires forall m :: i < m < j ==> !tr[m].Sleep?
    ensures j == i + 4 && tr[j].delay == SECOND
  {
    NextSleep(cfg, tr, i, j);
    SleepUsesStreak(cfg, tr, j);
    assert tr[..i + 1] == tr[..i] + [tr[i]];
    StreakHolds(tr, i + 1, j);
  }

  lemma NextSleep(cfg: Config, tr: Trace, i: nat, j: nat)
    requires Accepts(cfg, tr) && i < j < |tr| && tr[i] == StreamEnd && tr[j].Sleep?
    requires forall m :: i < m < j ==> !tr[m].Sleep?
    ensures j == i + 4
    ensures forall m :: i < m < j ==> Quiet(tr[m])
  {
    if j < i + 4 {
      StageAfter(cfg, tr, i, j - i);
      StageStep(cfg, tr, j);
    } else {
      StageAfter(cfg, tr, i, 4);
      StageStep(cfg, tr, i + 4);
    }
  }

  lemma {:induction false} StreakHolds(tr: Trace, i: nat, j: nat)
    requires i <= j <= |tr|
    requires forall m :: i <= m < j ==> Quiet(tr[m])
    ensures StreakOf(tr[..j]) == StreakOf(tr[..i])
  {
    if i < j {
      StreakHolds(tr, i, j - 1);
      assert tr[..j][..j - 1] == tr[..j - 1];
    }
  }

  // -------------------------------------------------------------------- shutdown

  /** Calls left before Run returns once every context check says "cancelled". */
  function Rank(pc: Pc): nat {
    match pc
    case Done => 0
    case Head => 1
    case FailCheck => 1
    case Sleeping => 2
    case FailConn => 2
    case FailChannel => 3
    case ClosingConn(last) => if last then 1 else 3
    case ClosingChannel(last) => if last then 2 else 4
    case AfterConsume => 3
    case Connected => 3
    case Draining => 4
    case DrainSending(_) => 5
    case Cancelling => 5
    case Loop => 6
    case Sending(_, _, _) => 7
    case Settling(_, _) => 8
    case Publishing(_, _) => 9
    case Rewriting(_, _) => 10
    case Reading(_) => 11
    case Decoding(_) => 12
    case Entry(_) => 9
    case Select => 10
    case Declaring(step) =>
      (match step case Consume => 4 case Qos => 5 case Bind => 6 case Queue => 7 case Exchange => 8)
    case Opening => 9
    case Dialing => 10
  }

  lemma RankDecreases(cfg: Config, s: State, e: Event)
    requires Next(cfg, s, e).Some? && e != Check(false)
    ensures Rank(Next(cfg, s, e).value.pc) < Rank(s.pc) + (if e.DrainOne? then 2 else 0)
  {
    if InHand(s.pc).None? && !InConsume(s.pc) {
      RankDecreasesInRun(cfg, s, e);
    }
  }

  lemma RankDecreasesInRun(cfg: Config, s: State, e: Event)
    requires NextInRun(cfg, s, e).Some? && e != Check(false)
    ensures Rank(NextInRun(cfg, s, e).value.pc) < Rank(s.pc)
  {
  }

  /** Deliveries drained from the local buffer between two positions. */
  function Drained(tr: Trace, i: nat, j: nat): nat
    requires i <= j <= |tr|
  {
    if i == j then 0 else Drained(tr, i, j - 1) + if tr[j - 1].DrainOne? then 1 else 0
  }

  lemma RankStepAt(cfg: Config, tr: Trace, k: nat)
    requires Accepts(cfg, tr) && k < |tr| && tr[k] != Check(false)
    ensures RankAt(cfg, tr, k + 1) < RankAt(cfg, tr, k) + (if tr[k].DrainOne? then 2 else 0)
  {
    StepAt(cfg, tr, k);
    RankDecreases(cfg, StateAt(cfg, tr, k), tr[k]);
  }

  function RankAt(cfg: Config, tr: Trace, k: nat): (r: nat)
    requires Accepts(cfg, tr) && k <= |tr|
    ensures r <= 12
  {
    Rank(StateAt(cfg, tr, k).pc)
  }

  lemma {:induction false} Descent(ranks: seq<nat>, tr: Trace, k: nat, j: nat)
    requires |ranks| == |tr| + 1 && k <= j <= |tr|
    requires forall i :: k <= i < j ==> ranks[i + 1] < ranks[i] + (if tr[i].DrainOne? then 2 else 0)
    ensures j - k + ranks[j] <= ranks[k] + 2 * Drained(tr, k, j)
  {
    if k < j {
      Descent(ranks, tr, k, j - 1);
      assert ranks[j - 1 + 1] < ranks[j - 1] + (if tr[j - 1].DrainOne? then 2 else 0);
    }
  }

  /** Shutdown terminates: once the context is cancelled, whatever Run is doing, it makes
      at most twelve more calls, plus two for each delivery left in the local buffer. */
  lemma ShutdownIsBounded(cfg: Config, tr: Trace, k: nat)
    requires Accepts(cfg, tr) && k <= |tr|
    requires forall i :: k <= i < |tr| ==> tr[i] != Check(false)
    ensures |tr| - k <= 12 + 2 * Drained(tr, k, |tr|)
  {
    var ranks := seq(|tr| + 1, i requires 0 <= i <= |tr| => RankAt(cfg, tr, i));
    forall i | k <= i < |tr|
      ensures ranks[i + 1] < ranks[i] + (if tr[i].DrainOne? then 2 else 0)
    {
      RankStepAt(cfg, tr, i);
    }
    Descent(ranks, tr, k, |tr|);
  }

  /** The control points left once a context check has said "cancelled". */
  predicate Stopping(s: State) {
    && s.seen
    && (|| s.pc.Settling? || (s.pc.Sending? && s.pc.kind == Nack) || s.pc.Loop?
        || s.pc.Cancelling? || s.pc.Draining? || s.pc.DrainSending? || s.pc.AfterConsume?
        || s.pc == ClosingChannel(true) || s.pc == ClosingConn(true) || s.pc.Done?)
  }

  lemma StoppingInHand(cfg: Config, s: State, e: Event)
    requires InHand(s.pc).Some? && NextInHand(cfg, s, e).Some?
    requires Stopping(s) || e == Check(true)
    ensures Stopping(NextInHand(cfg, s, e).value)
  {
  }

  lemma StoppingInConsume(s: State, e: Event)
    requires NextInConsume(s, e).Some? && (Stopping(s) || e == Check(true))
    ensures Stopping(NextInConsume(s, e).value)
  {
  }

  lemma StoppingInRun(cfg: Config, s: State, e: Event)
    requires NextInRun(cfg, s, e).Some? && (Stopping(s) || e == Check(true))
    ensures Stopping(NextInRun(cfg, s, e).value)
  {
  }

  lemma StoppingStep(cfg: Config, s: State, e: Event)
    requires Next(cfg, s, e).Some? && (Stopping(s) || e == Check(true))
    ensures Stopping(Next(cfg, s, e).value)
  {
    if InHand(s.pc).Some? {
      StoppingInHand(cfg, s, e);
    } else if InConsume(s.pc) {
      StoppingInConsume(s, e);
    } else {
      StoppingInRun(cfg, s, e);
    }
  }

  lemma StoppingNext(cfg: Config, tr: Trace, k: nat)
    requires Accepts(cfg, tr) && k < |tr|
    ensures Stopping(StateAt(cfg, tr, k)) || tr[k] == Check(true) ==> Stopping(StateAt(cfg, tr, k + 1))
  {
    StepAt(cfg, tr, k);
    if Stopping(StateAt(cfg, tr, k)) || tr[k] == Check(true) {
      StoppingStep(cfg, StateAt(cfg, tr, k), tr[k]);
    }
  }

  lemma {:induction false} StoppingStays(cfg: Config, tr: Trace, i: nat, j: nat)
    requires Accepts(cfg, tr) && i < j <= |tr| && tr[i] == Check(true)
    ensures Stopping(StateAt(cfg, tr, j))
  {
    if i + 1 < j {
      StoppingStays(cfg, tr, i, j - 1);
    }
    StoppingNext(cfg, tr, j - 1);
  }

  /** Once a context check has said "cancelled" nothing is dialled, received, decoded,
      read, rewritten, published or acked again. */
  lemma NothingStartsAfterCancellation(cfg: Config, tr: Trace, i: nat, j: nat)
    requires Accepts(cfg, tr) && i < j < |tr| && tr[i] == Check(true)
    ensures match tr[j]
            case Check(cancelled) => cancelled
            case Settle(kind, _, _) => kind == Nack
            case CancelConsumer => true
            case DrainOne(_) => true
            case DrainStop => true
            case CloseChannel => true
            case CloseConn => true
            case _ => false
  {
    StoppingStays(cfg, tr, i, j);
    StepAt(cfg, tr, j);
  }

  /** Run returns only once cancellation has been observed. */
  lemma ReturnsOnlyWhenCancelled(cfg: Config, tr: Trace)
    requires Accepts(cfg, tr) && Run(cfg, tr).value.pc == Done
    ensures exists i :: 0 <= i < |tr| && CausedByCancel(tr[i])
  {
    RunConsistent(cfg, tr);
    SeenHasCause(cfg, tr);
  }

  lemma {:induction false} SeenHasCause(cfg: Config, tr: Trace)
    requires Accepts(cfg, tr) && Run(cfg, tr).value.seen
    ensures exists i :: 0 <= i < |tr| && CausedByCancel(tr[i])
  {
    var n := |tr| - 1;
    if CausedByCancel(tr[n]) {
    } else {
      SeenHasCause(cfg, tr[..n]);
      var i :| 0 <= i < n && CausedByCancel(tr[..n][i]);
      assert CausedByCancel(tr[i]);
    }
  }

  // ---------------------------------------------------------------- a whole run

  /** Everything a complete run leaves behind: each dequeued delivery has had exactly one
      settlement attempt, on its own session and in order, acks before nacks; every
      connection and channel is closed; and cancellation is why it returned. */
  lemma CompleteRun(cfg: Config, tr: Trace)
    requires Accepts(cfg, tr) && Run(cfg, tr).value.pc == Done
    ensures Handles(Attempts(tr)) == Dequeued(tr) && AcksThenNacks(Attempts(tr))
    ensures Books(tr).Some? && Books(tr).value.AllClosed()
    ensures exists i :: 0 <= i < |tr| && CausedByCancel(tr[i])
  {
    SettlementDiscipline(cfg, tr);
    ResourceConservation(cfg, tr);
    ReturnsOnlyWhenCancelled(cfg, tr);
  }
}
