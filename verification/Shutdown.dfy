/** How a session is shut down: a monitor over traces for the consumer's subscription, and
    the exact moment at which it is cancelled. */
module ShutdownOrder {
  import opened Results
  import opened Protocol
  import opened Discipline

  /** The subscription of the current session. */
  datatype Subscription = Off | On | Cancelled | Drained

  /** Watches one event, refusing any receipt without a live subscription, any drain before
      the subscription is cancelled, anything but draining after that, and any close of a
      session that was cancelled and not drained to the end. */
  function Watch(sub: Subscription, e: Event): Option<Subscription> {
    if sub == Cancelled then
      match e
      case DrainOne(_) => Some(Cancelled)
      case Settle(Nack, _, _) => Some(Cancelled)
      case DrainStop => Some(Drained)
      case _ => None
    else
      match e
      case Declare(step, ok) => if step == Consume && ok then (if sub == Off then Some(On) else None) else Some(sub)
      case CancelConsumer => if sub == On then Some(Cancelled) else None
      case CloseChannel => Some(Off)
      case DrainOne(_) => None
      case DrainStop => None
      case _ => if NeedsSubscription(e) && sub != On then None else Some(sub)
  }

  predicate NeedsSubscription(e: Event) {
    e.Receive? || e.StreamEnd? || e.Interrupted? || e.Decode? || e.Read? || e.Rewrite? || e.Publish? || e.Settle?
  }

  function Watches(tr: Trace): Option<Subscription> {
    if tr == [] then Some(Off)
    else
      match Watches(tr[..|tr| - 1])
      case None => None
      case Some(sub) => Watch(sub, tr[|tr| - 1])
  }

  predicate WatchMatches(sub: Subscription, pc: Pc) {
    match pc
    case Draining => sub == Cancelled
    case DrainSending(_) => sub == Cancelled
    case AfterConsume => sub == On || sub == Drained
    case ClosingChannel(_) => sub == On || sub == Drained
    case _ => sub == if InSession(pc) then On else Off
  }

  lemma WatchInHand(cfg: Config, sub: Subscription, s: State, e: Event)
    requires WatchMatches(sub, s.pc) && InHand(s.pc).Some? && NextInHand(cfg, s, e).Some?
    ensures Watch(sub, e).Some? && WatchMatches(Watch(sub, e).value, NextInHand(cfg, s, e).value.pc)
  {
  }

  lemma WatchInConsume(sub: Subscription, s: State, e: Event)
    requires WatchMatches(sub, s.pc) && NextInConsume(s, e).Some?
    ensures Watch(sub, e).Some? && WatchMatches(Watch(sub, e).value, NextInConsume(s, e).value.pc)
  {
  }

  lemma WatchEnding(cfg: Config, sub: Subscription, s: State, e: Event)
    requires WatchMatches(sub, s.pc) && NextInRun(cfg, s, e).Some? && Ending(s.pc)
    ensures Watch(sub, e).Some? && WatchMatches(Watch(sub, e).value, NextInRun(cfg, s, e).value.pc)
  {
  }

  lemma WatchDeclaring(cfg: Config, sub: Subscription, s: State, e: Event)
    requires WatchMatches(sub, s.pc) && NextInRun(cfg, s, e).Some? && s.pc.Declaring?
    ensures Watch(sub, e).Some? && WatchMatches(Watch(sub, e).value, NextInRun(cfg, s, e).value.pc)
  {
  }

  lemma WatchInRun(cfg: Config, sub: Subscription, s: State, e: Event)
    requires WatchMatches(sub, s.pc) && NextInRun(cfg, s, e).Some?
    ensures Watch(sub, e).Some? && WatchMatches(Watch(sub, e).value, NextInRun(cfg, s, e).value.pc)
  {
    if Ending(s.pc) {
      WatchEnding(cfg, sub, s, e);
    } else if s.pc.Declaring? {
      WatchDeclaring(cfg, sub, s, e);
    }
  }

  /** Every run keeps to the order: nothing is drained before the session's own cancel, and
      after the cancel the buffer is drained to its end before anything is closed. */
  lemma {:induction false} CancelBeforeDrain(cfg: Config, tr: Trace)
    requires Accepts(cfg, tr)
    ensures Watches(tr).Some? && WatchMatches(Watches(tr).value, Run(cfg, tr).value.pc)
  {
    if tr != [] {
      var n := |tr| - 1;
      CancelBeforeDrain(cfg, tr[..n]);
      WatchStep(cfg, Watches(tr[..n]).value, Run(cfg, tr[..n]).value, tr[n]);
    }
  }

  lemma WatchStep(cfg: Config, sub: Subscription, s: State, e: Event)
    requires WatchMatches(sub, s.pc) && Next(cfg, s, e).Some?
    ensures Watch(sub, e).Some? && WatchMatches(Watch(sub, e).value, Next(cfg, s, e).value.pc)
  {
    if InHand(s.pc).Some? {
      WatchInHand(cfg, sub, s, e);
    } else if InConsume(s.pc) {
      WatchInConsume(sub, s, e);
    } else {
      WatchInRun(cfg, sub, s, e);
    }
  }

  // ------------------------------------------------------- the moment of the cancel

  /** What happened last, as far as consume's loop goes: it is at its head after the check
      that follows the subscription, and after each settlement outside a drain. */
  datatype Mark = Subscribed | AtHead | Elsewhere

  function MarkAfter(mark: Mark, sub: Subscription, e: Event): Mark {
    if e == Declare(Consume, true) then Subscribed
    else if mark == Subscribed && e == Check(false) then AtHead
    else if e.Settle? && sub == On then AtHead
    else Elsewhere
  }

  function MarkOf(tr: Trace): Mark
    requires Watches(tr).Some?
  {
    if tr == [] then Elsewhere
    else MarkAfter(MarkOf(tr[..|tr| - 1]), Watches(tr[..|tr| - 1]).value, tr[|tr| - 1])
  }

  predicate MarkMatches(mark: Mark, pc: Pc) {
    (mark == Subscribed <==> pc == Connected) && (mark == AtHead <==> pc == Loop)
  }

  lemma MarkInHand(cfg: Config, mark: Mark, sub: Subscription, s: State, e: Event)
    requires MarkMatches(mark, s.pc) && WatchMatches(sub, s.pc) && InHand(s.pc).Some? && NextInHand(cfg, s, e).Some?
    ensures MarkMatches(MarkAfter(mark, sub, e), NextInHand(cfg, s, e).value.pc)
  {
  }

  lemma MarkInConsume(mark: Mark, sub: Subscription, s: State, e: Event)
    requires MarkMatches(mark, s.pc) && NextInConsume(s, e).Some?
    ensures MarkMatches(MarkAfter(mark, sub, e), NextInConsume(s, e).value.pc)
  {
  }

  lemma MarkInRun(cfg: Config, mark: Mark, sub: Subscription, s: State, e: Event)
    requires MarkMatches(mark, s.pc) && NextInRun(cfg, s, e).Some?
    ensures MarkMatches(MarkAfter(mark, sub, e), NextInRun(cfg, s, e).value.pc)
  {
  }

  lemma MarkStep(cfg: Config, mark: Mark, sub: Subscription, s: State, e: Event)
    requires MarkMatches(mark, s.pc) && WatchMatches(sub, s.pc) && Next(cfg, s, e).Some?
    ensures MarkMatches(MarkAfter(mark, sub, e), Next(cfg, s, e).value.pc)
  {
    if InHand(s.pc).Some? {
      MarkInHand(cfg, mark, sub, s, e);
    } else if InConsume(s.pc) {
      MarkInConsume(mark, sub, s, e);
    } else {
      MarkInRun(cfg, mark, sub, s, e);
    }
  }

  lemma {:induction false} MarkInvariant(cfg: Config, tr: Trace)
    requires Accepts(cfg, tr)
    ensures Watches(tr).Some? && MarkMatches(MarkOf(tr), Run(cfg, tr).value.pc)
  {
    CancelBeforeDrain(cfg, tr);
    if tr != [] {
      var n := |tr| - 1;
      MarkInvariant(cfg, tr[..n]);
      CancelBeforeDrain(cfg, tr[..n]);
      MarkStep(cfg, MarkOf(tr[..n]), Watches(tr[..n]).value, Run(cfg, tr[..n]).value, tr[n]);
    }
  }

  /** Consume was stopped by the event at position k. */
  predicate Stops(tr: Trace, k: nat)
    requires k < |tr| && Watches(tr[..k]).Some?
  {
    tr[k] == Interrupted || (tr[k] == Check(true) && MarkOf(tr[..k]) == AtHead)
  }

  lemma StopStep(cfg: Config, tr: Trace, k: nat)
    requires Accepts(cfg, tr) && k < |tr|
    ensures Watches(tr[..k]).Some?
    ensures Stops(tr, k) <==> StateAt(cfg, tr, k + 1).pc == Cancelling
  {
    PrefixAccepted(cfg, tr, k);
    MarkInvariant(cfg, tr[..k]);
    StepAt(cfg, tr, k);
  }

  lemma OnlyCancel(cfg: Config, tr: Trace, k: nat)
    requires Accepts(cfg, tr) && k < |tr|
    ensures tr[k] == CancelConsumer <==> StateAt(cfg, tr, k).pc == Cancelling
  {
    StepAt(cfg, tr, k);
  }

  /** The subscription is cancelled exactly by the call that follows the check or the
      interruption which stopped consume. */
  lemma CancelExactlyWhen(cfg: Config, tr: Trace, k: nat)
    requires Accepts(cfg, tr) && k + 1 < |tr|
    ensures Watches(tr[..k]).Some?
    ensures tr[k + 1] == CancelConsumer <==> Stops(tr, k)
  {
    StopStep(cfg, tr, k);
    OnlyCancel(cfg, tr, k + 1);
  }
}
