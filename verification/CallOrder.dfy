/** What comes right before what in every run: the check behind each settlement, the sleep
    behind each new dial, the setup behind each subscription, and how each sleep follows
    from the sleep before it. */
module CallOrder {
  import opened Results
  import opened Backoff
  import opened Protocol
  import opened Discipline

  // ------------------------------------------------------------------ one step back

  /** The event that leads to a control point, and the control point it leaves. */
  predicate LedTo(from: Pc, e: Event, to: Pc) {
    match to
    case Sending(_, kind, _) => from.Settling? && e == Check(kind == Nack)
    case DrainSending(d) => e == DrainOne(d)
    case Dialing => from.Head? && e == Check(false)
    case Head => from.Sleeping? && e.Sleep? && !e.interrupted
    case Opening => from.Dialing? && e == Dial(true)
    case Declaring(Exchange) => from.Opening? && e == OpenChannel(true)
    case Declaring(Queue) => from == Declaring(Exchange) && e == Declare(Exchange, true)
    case Declaring(Bind) => from == Declaring(Queue) && e == Declare(Queue, true)
    case Declaring(Qos) => from == Declaring(Bind) && e == Declare(Bind, true)
    case Declaring(Consume) => from == Declaring(Qos) && e == Declare(Qos, true)
    case Select => from.Loop? && e == Check(false)
    case Sleeping => (from.FailCheck? && e == Check(false)) || (from == ClosingConn(false) && e.CloseConn?)
    case ClosingConn(last) => from == ClosingChannel(last) && e.CloseChannel?
    case ClosingChannel(last) => (from.AfterConsume? || (from.Connected? && last)) && e == Check(last)
    case AfterConsume => (from.Select? && e.StreamEnd?) || (from.Draining? && e.DrainStop?)
    case Done => EndsWith(from, e)
    case _ => true
  }

  /** The ways in which Run returns. */
  predicate EndsWith(from: Pc, e: Event) {
    || ((from.Head? || from.FailCheck?) && e == Check(true))
    || (from.Sleeping? && e.Sleep? && e.interrupted)
    || (from == ClosingConn(true) && e.CloseConn?)
  }

  lemma LedToInHand(cfg: Config, s: State, e: Event)
    requires InHand(s.pc).Some? && NextInHand(cfg, s, e).Some?
    ensures LedTo(s.pc, e, NextInHand(cfg, s, e).value.pc)
  {
  }

  lemma LedToInConsume(s: State, e: Event)
    requires NextInConsume(s, e).Some?
    ensures LedTo(s.pc, e, NextInConsume(s, e).value.pc)
  {
  }

  lemma LedToInRun(cfg: Config, s: State, e: Event)
    requires NextInRun(cfg, s, e).Some?
    ensures LedTo(s.pc, e, NextInRun(cfg, s, e).value.pc)
  {
  }

  lemma LedToNext(cfg: Config, s: State, e: Event)
    requires Next(cfg, s, e).Some?
    ensures LedTo(s.pc, e, Next(cfg, s, e).value.pc)
  {
    if InHand(s.pc).Some? {
      LedToInHand(cfg, s, e);
    } else if InConsume(s.pc) {
      LedToInConsume(s, e);
    } else {
      LedToInRun(cfg, s, e);
    }
  }

  function PcAt(cfg: Config, tr: Trace, k: nat): Pc
    requires Accepts(cfg, tr) && k <= |tr|
  {
    StateAt(cfg, tr, k).pc
  }

  lemma StepBack(cfg: Config, tr: Trace, k: nat)
    requires Accepts(cfg, tr) && k <= |tr|
    ensures k == 0 ==> PcAt(cfg, tr, k) == Head
    ensures k >= 1 ==> LedTo(PcAt(cfg, tr, k - 1), tr[k - 1], PcAt(cfg, tr, k))
  {
    if k >= 1 {
      StepAt(cfg, tr, k - 1);
      LedToNext(cfg, StateAt(cfg, tr, k - 1), tr[k - 1]);
    }
  }

  /** The control point at which each of these calls is made. */
  predicate MadeAt(e: Event, pc: Pc) {
    match e
    case Settle(kind, tag, _) =>
      || (pc.Sending? && pc.kind == kind && pc.d.tag == tag)
      || (pc.DrainSending? && kind == Nack && pc.d.tag == tag)
    case Dial(_) => pc.Dialing?
    case Declare(step, _) => pc == Declaring(step)
    case Receive(_) => pc.Select?
    case Sleep(_, _) => pc.Sleeping?
    case _ => true
  }

  lemma MadeAtItsPoint(cfg: Config, tr: Trace, k: nat)
    requires Accepts(cfg, tr) && k < |tr|
    ensures MadeAt(tr[k], PcAt(cfg, tr, k))
  {
    StepAt(cfg, tr, k);
    MadeAtNext(cfg, StateAt(cfg, tr, k), tr[k]);
  }

  lemma MadeAtNext(cfg: Config, s: State, e: Event)
    requires Next(cfg, s, e).Some?
    ensures MadeAt(e, s.pc)
  {
  }

  // ------------------------------------------------------------------- in every run

  /** Every settlement follows its own check: an ack comes right after a check that found the
      context alive, a nack right after one that found it cancelled, or right after its
      delivery was drained. */
  lemma SettlementFollowsItsCheck(cfg: Config, tr: Trace, i: nat)
    requires Accepts(cfg, tr) && i < |tr| && tr[i].Settle?
    ensures i >= 1
    ensures tr[i].kind == Ack <==> tr[i - 1] == Check(false)
    ensures tr[i].kind == Nack <==>
              tr[i - 1] == Check(true) || (tr[i - 1].DrainOne? && tr[i - 1].d.tag == tr[i].tag)
  {
    MadeAtItsPoint(cfg, tr, i);
    StepBack(cfg, tr, i);
  }

  /** No two dials without a backoff sleep between them: every dial but the first comes right
      after a sleep that ran its time and a check that found the context alive. */
  lemma DialFollowsSleep(cfg: Config, tr: Trace, i: nat)
    requires Accepts(cfg, tr) && i < |tr| && tr[i].Dial?
    ensures i >= 1 && tr[i - 1] == Check(false)
    ensures i > 1 ==> tr[i - 2].Sleep? && !tr[i - 2].interrupted
  {
    MadeAtItsPoint(cfg, tr, i);
    StepBack(cfg, tr, i);
    StepBack(cfg, tr, i - 1);
  }

  /** What stands before a declaration. */
  lemma BackToDeclaring(cfg: Config, tr: Trace, k: nat, step: Setup)
    requires Accepts(cfg, tr) && k <= |tr| && PcAt(cfg, tr, k) == Declaring(step)
    ensures k >= 1
    ensures step == Exchange ==> PcAt(cfg, tr, k - 1) == Opening && tr[k - 1] == OpenChannel(true)
    ensures step == Queue ==> PcAt(cfg, tr, k - 1) == Declaring(Exchange) && tr[k - 1] == Declare(Exchange, true)
    ensures step == Bind ==> PcAt(cfg, tr, k - 1) == Declaring(Queue) && tr[k - 1] == Declare(Queue, true)
    ensures step == Qos ==> PcAt(cfg, tr, k - 1) == Declaring(Bind) && tr[k - 1] == Declare(Bind, true)
    ensures step == Consume ==> PcAt(cfg, tr, k - 1) == Declaring(Qos) && tr[k - 1] == Declare(Qos, true)
  {
    StepBack(cfg, tr, k);
  }

  lemma BackToOpening(cfg: Config, tr: Trace, k: nat)
    requires Accepts(cfg, tr) && k <= |tr| && PcAt(cfg, tr, k) == Opening
    ensures k >= 2 && tr[k - 1] == Dial(true)
  {
    StepBack(cfg, tr, k);
    StepBack(cfg, tr, k - 1);
  }

  lemma SetupToQueue(cfg: Config, tr: Trace, k: nat)
    requires Accepts(cfg, tr) && k <= |tr| && PcAt(cfg, tr, k) == Declaring(Queue)
    ensures k >= 4 && tr[k - 3] == Dial(true) && tr[k - 2] == OpenChannel(true) && tr[k - 1] == Declare(Exchange, true)
  {
    BackToDeclaring(cfg, tr, k, Queue);
    BackToDeclaring(cfg, tr, k - 1, Exchange);
    BackToOpening(cfg, tr, k - 2);
  }

  lemma SetupToConsume(cfg: Config, tr: Trace, k: nat)
    requires Accepts(cfg, tr) && k <= |tr| && PcAt(cfg, tr, k) == Declaring(Consume)
    ensures k >= 3 && PcAt(cfg, tr, k - 3) == Declaring(Queue)
    ensures tr[k - 3] == Declare(Queue, true) && tr[k - 2] == Declare(Bind, true) && tr[k - 1] == Declare(Qos, true)
  {
    BackToDeclaring(cfg, tr, k, Consume);
    BackToDeclaring(cfg, tr, k - 1, Qos);
    BackToDeclaring(cfg, tr, k - 2, Bind);
  }

  /** Every subscription comes right after a dial, a channel, and the declarations of
      exchange, queue and binding and the prefetch limit, each successful and in this order. */
  lemma SubscriptionFollowsSetup(cfg: Config, tr: Trace, i: nat)
    requires Accepts(cfg, tr) && i < |tr| && tr[i].Declare? && tr[i].step == Consume
    ensures i >= 7
    ensures tr[i - 6..i] == [Dial(true), OpenChannel(true), Declare(Exchange, true), Declare(Queue, true),
                             Declare(Bind, true), Declare(Qos, true)]
  {
    MadeAtItsPoint(cfg, tr, i);
    SetupToConsume(cfg, tr, i);
    SetupToQueue(cfg, tr, i - 3);
  }

  /** Every delivery is taken right after a check that found the context alive. */
  lemma ReceiptFollowsCheck(cfg: Config, tr: Trace, i: nat)
    requires Accepts(cfg, tr) && i < |tr| && tr[i].Receive?
    ensures i >= 1 && tr[i - 1] == Check(false)
  {
    MadeAtItsPoint(cfg, tr, i);
    StepBack(cfg, tr, i);
  }

  /** A check that found the context so, the channel's close and the connection's. */
  predicate ClosedAfterCheck(tr: Trace, i: nat, cancelled: bool)
    requires i <= |tr|
  {
    i >= 3 && tr[i - 3..i] == [Check(cancelled), CloseChannel, CloseConn]
  }

  lemma BackToClosingConn(cfg: Config, tr: Trace, k: nat, last: bool)
    requires Accepts(cfg, tr) && k <= |tr| && PcAt(cfg, tr, k) == ClosingConn(last)
    ensures k >= 1 && PcAt(cfg, tr, k - 1) == ClosingChannel(last) && tr[k - 1] == CloseChannel
  {
    StepBack(cfg, tr, k);
  }

  lemma BackToClosingChannel(cfg: Config, tr: Trace, k: nat, last: bool)
    requires Accepts(cfg, tr) && k <= |tr| && PcAt(cfg, tr, k) == ClosingChannel(last)
    ensures k >= 1 && tr[k - 1] == Check(last)
  {
    StepBack(cfg, tr, k);
  }

  lemma ClosesFollowCheck(cfg: Config, tr: Trace, i: nat, last: bool)
    requires Accepts(cfg, tr) && 1 <= i <= |tr| && PcAt(cfg, tr, i - 1) == ClosingConn(last) && tr[i - 1].CloseConn?
    ensures ClosedAfterCheck(tr, i, last)
  {
    BackToClosingConn(cfg, tr, i - 1, last);
    BackToClosingChannel(cfg, tr, i - 2, last);
  }

  /** Every sleep comes right after a check that found the context alive, after a failed
      connect; or after that check and the two closes of a session that was lost. */
  lemma SleepFollowsLoss(cfg: Config, tr: Trace, i: nat)
    requires Accepts(cfg, tr) && i < |tr| && tr[i].Sleep?
    ensures i >= 1 && (tr[i - 1] == Check(false) || ClosedAfterCheck(tr, i, false))
  {
    MadeAtItsPoint(cfg, tr, i);
    StepBack(cfg, tr, i);
    if tr[i - 1].CloseConn? {
      ClosesFollowCheck(cfg, tr, i, false);
    }
  }

  /** Run returns at once when a check finds the context cancelled outside a session, when a
      sleep is interrupted, or when a session has been closed after such a check. */
  lemma ReturnsAt(cfg: Config, tr: Trace)
    requires Accepts(cfg, tr) && Run(cfg, tr).value.pc == Done
    ensures tr != []
    ensures var last := tr[|tr| - 1];
            last == Check(true) || (last.Sleep? && last.interrupted) || ClosedAfterCheck(tr, |tr|, true)
  {
    assert tr[..|tr|] == tr;
    StepBack(cfg, tr, |tr|);
    if tr[|tr| - 1].CloseConn? {
      ClosesFollowCheck(cfg, tr, |tr|, true);
    }
  }

  // ---------------------------------------------------------------- from sleep to sleep

  /** Since the last sleep, with f failures counted then: one more has been counted exactly
      once the session or the attempt at one has failed. */
  predicate Since(t: Streak, s: State, f: nat) {
    && s.failures == f
    && match s.pc
       case FailChannel => t.count == f + 1
       case FailConn => t.count == f + 1
       case FailCheck => t.count == f + 1
       case AfterConsume => s.seen || t.count == f + 1
       case ClosingChannel(last) => last || t.count == f + 1
       case ClosingConn(last) => last || t.count == f + 1
       case Sleeping => false
       case Done => true
       case _ => t.count == f
  }

  predicate Reached(t: Streak, s: State, f: nat) {
    Since(t, s, f) || (s.pc.Sleeping? && t.count == f + 1)
  }

  /** A loss that starts the schedule again, unless it is at its start anyway. */
  predicate Restarts(t: Streak, e: Event, f: nat) {
    e.StreamEnd? && t.productive && f > 0
  }

  lemma SinceInHand(cfg: Config, t: Streak, s: State, e: Event, f: nat)
    requires Since(t, s, f) && InHand(s.pc).Some? && NextInHand(cfg, s, e).Some?
    ensures Since(Tally(t, e), NextInHand(cfg, s, e).value, f)
  {
  }

  lemma SinceInConsume(t: Streak, s: State, e: Event, f: nat)
    requires Since(t, s, f) && Consistent(s) && NextInConsume(s, e).Some? && InConsume(s.pc) && !Restarts(t, e, f)
    ensures Since(Tally(t, e), NextInConsume(s, e).value, f)
  {
  }

  lemma SinceEnding(cfg: Config, t: Streak, s: State, e: Event, f: nat)
    requires Since(t, s, f) && Consistent(s) && NextInRun(cfg, s, e).Some? && Ending(s.pc)
    ensures Reached(Tally(t, e), NextInRun(cfg, s, e).value, f)
  {
  }

  lemma SinceConnecting(cfg: Config, t: Streak, s: State, e: Event, f: nat)
    requires Since(t, s, f) && NextInRun(cfg, s, e).Some? && Connecting(s.pc)
    ensures Reached(Tally(t, e), NextInRun(cfg, s, e).value, f)
  {
  }

  lemma SinceStep(cfg: Config, t: Streak, s: State, e: Event, f: nat)
    requires Since(t, s, f) && Consistent(s) && Next(cfg, s, e).Some? && !Restarts(t, e, f)
    ensures Reached(Tally(t, e), Next(cfg, s, e).value, f)
  {
    if InHand(s.pc).Some? {
      SinceInHand(cfg, t, s, e, f);
    } else if InConsume(s.pc) {
      SinceInConsume(t, s, e, f);
    } else if Ending(s.pc) {
      SinceEnding(cfg, t, s, e, f);
    } else {
      SinceConnecting(cfg, t, s, e, f);
    }
  }

  lemma SinceNext(cfg: Config, tr: Trace, k: nat, f: nat)
    requires Accepts(cfg, tr) && k < |tr| && !tr[k].Sleep? && !Restarts(StreakOf(tr[..k]), tr[k], f)
    requires Reached(StreakOf(tr[..k]), StateAt(cfg, tr, k), f)
    ensures Reached(StreakOf(tr[..k + 1]), StateAt(cfg, tr, k + 1), f)
  {
    StepAt(cfg, tr, k);
    SleepingSleeps(cfg, StateAt(cfg, tr, k), tr[k]);
    SinceStep(cfg, StreakOf(tr[..k]), StateAt(cfg, tr, k), tr[k], f);
    assert tr[..k + 1] == tr[..k] + [tr[k]];
  }

  lemma SleepingSleeps(cfg: Config, s: State, e: Event)
    requires Next(cfg, s, e).Some?
    ensures s.pc.Sleeping? <==> e.Sleep?
  {
  }

  /** From position i, with f failures counted, to the next sleep at j. */
  lemma {:induction false} SinceRun(cfg: Config, tr: Trace, i: nat, j: nat, f: nat)
    requires Accepts(cfg, tr) && i <= j <= |tr| && Since(StreakOf(tr[..i]), StateAt(cfg, tr, i), f)
    requires forall m :: i <= m < j ==> !tr[m].Sleep? && !Restarts(StreakOf(tr[..m]), tr[m], f)
    ensures Reached(StreakOf(tr[..j]), StateAt(cfg, tr, j), f)
  {
    if i < j {
      SinceRun(cfg, tr, i, j - 1, f);
      SinceNext(cfg, tr, j - 1, f);
    }
  }

  lemma CountAtSleep(cfg: Config, tr: Trace, i: nat, j: nat, f: nat)
    requires Accepts(cfg, tr) && i <= j < |tr| && tr[j].Sleep?
    requires Since(StreakOf(tr[..i]), StateAt(cfg, tr, i), f)
    requires forall m :: i <= m < j ==> !tr[m].Sleep? && !Restarts(StreakOf(tr[..m]), tr[m], f)
    ensures StreakOf(tr[..j]).count == f + 1
  {
    SinceRun(cfg, tr, i, j, f);
    StepAt(cfg, tr, j);
    SleepingSleeps(cfg, StateAt(cfg, tr, j), tr[j]);
  }

  /** The first sleep of a run lasts one second. */
  lemma FirstSleepLastsOneSecond(cfg: Config, tr: Trace, j: nat)
    requires UsesBackoffDelay(cfg)
    requires Accepts(cfg, tr) && j < |tr| && tr[j].Sleep?
    requires forall m :: 0 <= m < j ==> !tr[m].Sleep?
    ensures tr[j].delay == SECOND
  {
    CountAtSleep(cfg, tr, 0, j, 0);
    SleepUsesStreak(cfg, tr, j);
  }

  lemma SinceSleep(cfg: Config, tr: Trace, i: nat)
    requires Accepts(cfg, tr) && i < |tr| && tr[i].Sleep? && !tr[i].interrupted
    ensures Since(StreakOf(tr[..i + 1]), StateAt(cfg, tr, i + 1), StreakOf(tr[..i]).count)
  {
    PrefixAccepted(cfg, tr, i);
    StreakInvariant(cfg, tr[..i]);
    StepAt(cfg, tr, i);
    SleepingSleeps(cfg, StateAt(cfg, tr, i), tr[i]);
    assert tr[..i + 1] == tr[..i] + [tr[i]];
  }

  lemma InterruptedIsLast(cfg: Config, tr: Trace, i: nat, j: nat)
    requires Accepts(cfg, tr) && i < j < |tr| && tr[i].Sleep?
    ensures !tr[i].interrupted
  {
    StepAt(cfg, tr, i);
    StepAt(cfg, tr, i + 1);
    NothingFollowsDone(cfg, StateAt(cfg, tr, i), tr[i], tr[i + 1]);
  }

  lemma NothingFollowsDone(cfg: Config, s: State, e: Event, e': Event)
    requires Next(cfg, s, e).Some? && e.Sleep? && Next(cfg, Next(cfg, s, e).value, e').Some?
    ensures !e.interrupted
  {
  }

  /** Each sleep is twice the one before it, up to thirty seconds, unless a productive
      session was lost in between. */
  lemma SleepsDouble(cfg: Config, tr: Trace, i: nat, j: nat)
    requires UsesBackoffDelay(cfg)
    requires Accepts(cfg, tr) && i < j < |tr| && tr[i].Sleep? && tr[j].Sleep?
    requires forall m :: i < m < j ==> !tr[m].Sleep? && !ProductiveLoss(tr, m)
    ensures tr[j].delay == Min(2 * tr[i].delay, 30 * SECOND)
  {
    InterruptedIsLast(cfg, tr, i, j);
    SinceSleep(cfg, tr, i);
    CountAtSleep(cfg, tr, i + 1, j, StreakOf(tr[..i]).count);
    SleepUsesStreak(cfg, tr, i);
    SleepUsesStreak(cfg, tr, j);
    DelayDoubles(StreakOf(tr[..i]).count);
  }
}
