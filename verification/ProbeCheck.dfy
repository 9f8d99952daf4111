/** Probe.Check, internal/rabbitmq/probe.go: the caller and the attempt goroutine, two
    channels of capacity one, a deadline that may expire between any two steps, selects
    that pick either ready branch, and a broker that may stop answering at any moment. */
module ProbeCheck {
  import opened Results

  datatype Failure = NoChannel | NoExchange | NoQueue

  /** What Check returns. */
  datatype Verdict = Verified | DialFailed | Unavailable(why: Failure) | Aborted | TimedOut

  /** What the attempt sends on the done channel. */
  datatype Report = Passed | DialError | Failed(why: Failure)

  /** The attempt's control points, each naming the operation it performs next. */
  datatype Attempt =
    | Dialing
    | SendDialed(ok: bool)
    | OpenChannel
    | DeclareExchange
    | DeclareQueue
    | CloseChannel(result: Report)
    | CloseConn(result: Report)
    | SendDone(result: Report)
    | Exited(result: Report)

  datatype Caller = AwaitDial | AwaitDone | CloseOnTimeout | Returned(verdict: Verdict)

  /** The attempt's operations on the connection and its channel, in order. */
  datatype Op =
    | Dialled(ok: bool)
    | ChannelOpened(ok: bool)
    | ExchangeChecked(ok: bool)
    | QueueChecked(ok: bool)
    | ChannelClosed
    | ConnClosed

  datatype State = State(
    caller: Caller, attempt: Attempt, expired: bool, silent: bool,
    dialed: Option<bool>, done: Option<Report>, ops: seq<Op>, callerCloses: nat)

  /** Expire: the deadline passes, or the parent context ends. Silence: the broker stops
      answering, for good. Work(ok): the attempt's next operation, with its answer. The
      others are the caller's possible moves. */
  datatype Step = Expire | Silence | Work(ok: bool) | TakeDialed | TakeDone | GiveUp | CloseNow

  const INIT := State(AwaitDial, Dialing, false, false, None, None, [], 0)

  /** The operations that wait for the broker's answer and know no deadline of their own. */
  predicate AtRpc(attempt: Attempt) {
    attempt.OpenChannel? || attempt.DeclareExchange? || attempt.DeclareQueue? || attempt.CloseChannel?
  }

  /** Such an operation waits while the broker is silent and nobody has closed the
      connection under it. */
  predicate Waits(s: State) {
    AtRpc(s.attempt) && s.silent && s.callerCloses == 0
  }

  /** A silent broker grants nothing: once the connection is closed the operation fails. */
  predicate CanAnswer(s: State, ok: bool) {
    !Waits(s) && (AtRpc(s.attempt) && s.silent ==> !ok)
  }

  function Then(s: State, attempt: Attempt, op: Op): Option<State> {
    Some(s.(attempt := attempt, ops := s.ops + [op]))
  }

  /** The attempt goroutine; a send needs room in the channel's buffer. */
  function WorkStep(s: State, ok: bool): Option<State> {
    match s.attempt
    case Dialing => Then(s, SendDialed(ok), Dialled(ok))
    case SendDialed(dialOk) =>
      if s.dialed.Some? then None
      else Some(s.(dialed := Some(dialOk), attempt := if dialOk then OpenChannel else SendDone(DialError)))
    case OpenChannel => Then(s, if ok then DeclareExchange else CloseConn(Failed(NoChannel)), ChannelOpened(ok))
    case DeclareExchange => Then(s, if ok then DeclareQueue else CloseChannel(Failed(NoExchange)), ExchangeChecked(ok))
    case DeclareQueue => Then(s, CloseChannel(if ok then Passed else Failed(NoQueue)), QueueChecked(ok))
    case CloseChannel(result) => Then(s, CloseConn(result), ChannelClosed)
    case CloseConn(result) => Then(s, SendDone(result), ConnClosed)
    case SendDone(result) =>
      if s.done.Some? then None else Some(s.(done := Some(result), attempt := Exited(result)))
    case Exited(_) => None
  }

  function VerdictOf(r: Report): Verdict {
    match r
    case Passed => Verified
    case DialError => DialFailed
    case Failed(why) => Unavailable(why)
  }

  function Next(s: State, step: Step): Option<State> {
    match step
    case Expire => if s.expired then None else Some(s.(expired := true))
    case Silence => if s.silent then None else Some(s.(silent := true))
    case Work(ok) => if CanAnswer(s, ok) then WorkStep(s, ok) else None
    case TakeDialed =>
      if s.caller == AwaitDial && s.dialed.Some? then
        Some(s.(caller := if s.dialed.value then AwaitDone else Returned(DialFailed), dialed := None))
      else None
    case TakeDone =>
      if s.caller == AwaitDone && s.done.Some? then
        Some(s.(caller := Returned(VerdictOf(s.done.value)), done := None))
      else None
    case GiveUp =>
      if !s.expired then None
      else if s.caller == AwaitDial then Some(s.(caller := Returned(Aborted)))
      else if s.caller == AwaitDone then Some(s.(caller := CloseOnTimeout))
      else None
    case CloseNow =>
      if s.caller == CloseOnTimeout then
        Some(s.(caller := Returned(TimedOut), callerCloses := s.callerCloses + 1))
      else None
  }

  function Exec(steps: seq<Step>): Option<State> {
    if steps == [] then Some(INIT)
    else
      match Exec(steps[..|steps| - 1])
      case None => None
      case Some(s) => Next(s, steps[|steps| - 1])
  }

  // ------------------------------------------------------------------- invariant

  /** The attempt's operations up to the close of the channel, for each way it can end. */
  function Story(result: Report): seq<Op> {
    match result
    case DialError => [Dialled(false)]
    case Failed(NoChannel) => [Dialled(true), ChannelOpened(false)]
    case Failed(NoExchange) => [Dialled(true), ChannelOpened(true), ExchangeChecked(false)]
    case Failed(NoQueue) => [Dialled(true), ChannelOpened(true), ExchangeChecked(true), QueueChecked(false)]
    case Passed => [Dialled(true), ChannelOpened(true), ExchangeChecked(true), QueueChecked(true)]
  }

  /** The whole attempt: what was opened is closed once, channel before connection. */
  function FullStory(result: Report): seq<Op> {
    match result
    case DialError => Story(result)
    case Failed(NoChannel) => Story(result) + [ConnClosed]
    case _ => Story(result) + [ChannelClosed, ConnClosed]
  }

  /** What the attempt has done when it reaches a control point. */
  function Progress(attempt: Attempt): seq<Op> {
    match attempt
    case Dialing => []
    case SendDialed(ok) => [Dialled(ok)]
    case OpenChannel => [Dialled(true)]
    case DeclareExchange => [Dialled(true), ChannelOpened(true)]
    case DeclareQueue => [Dialled(true), ChannelOpened(true), ExchangeChecked(true)]
    case CloseChannel(r) => Story(r)
    case CloseConn(r) => Story(r) + (if r == Failed(NoChannel) then [] else [ChannelClosed])
    case SendDone(r) => FullStory(r)
    case Exited(r) => FullStory(r)
  }

  predicate AttemptOk(s: State) {
    && s.ops == Progress(s.attempt)
    && (s.attempt.CloseChannel? ==> s.attempt.result != Failed(NoChannel))
    && (s.attempt.CloseChannel? || s.attempt.CloseConn? ==> !s.attempt.result.DialError?)
  }

  /** The dial's result, once it is known. */
  function DialOk(attempt: Attempt): bool {
    match attempt
    case Dialing => false
    case SendDialed(ok) => ok
    case SendDone(r) => !r.DialError?
    case Exited(r) => !r.DialError?
    case _ => true
  }

  predicate AfterSend(attempt: Attempt) {
    !attempt.Dialing? && !attempt.SendDialed?
  }

  /** Neither channel is ever full when the attempt comes to send on it, and what travels
      on a channel is what the attempt did. */
  predicate ChannelsOk(s: State) {
    && (s.dialed.Some? ==> AfterSend(s.attempt) && s.dialed.value == DialOk(s.attempt))
    && (s.done.Some? ==> s.attempt == Exited(s.done.value))
  }

  predicate CallerOk(s: State) {
    && s.callerCloses == (if s.caller == Returned(TimedOut) then 1 else 0)
    && match s.caller
       case AwaitDial => (AfterSend(s.attempt) ==> s.dialed.Some?) && (s.attempt.Exited? ==> s.done.Some?)
       case AwaitDone => AfterSend(s.attempt) && DialOk(s.attempt) && (s.attempt.Exited? ==> s.done.Some?)
       case CloseOnTimeout => AfterSend(s.attempt) && DialOk(s.attempt) && s.expired
       case Returned(Verified) => s.attempt == Exited(Passed)
       case Returned(DialFailed) => AfterSend(s.attempt) && !DialOk(s.attempt)
       case Returned(Unavailable(why)) => s.attempt == Exited(Failed(why))
       case Returned(Aborted) => s.expired
       case Returned(TimedOut) => AfterSend(s.attempt) && DialOk(s.attempt) && s.expired
  }

  predicate Inv(s: State) {
    AttemptOk(s) && ChannelsOk(s) && CallerOk(s)
  }

  lemma ClosingProgress(s: State, ok: bool)
    requires AttemptOk(s) && (s.attempt.CloseChannel? || s.attempt.CloseConn?)
    ensures WorkStep(s, ok).Some? && AttemptOk(WorkStep(s, ok).value)
  {
  }

  lemma WorkProgress(s: State, ok: bool)
    requires AttemptOk(s) && WorkStep(s, ok).Some?
    ensures AttemptOk(WorkStep(s, ok).value)
  {
    if s.attempt.CloseChannel? || s.attempt.CloseConn? {
      ClosingProgress(s, ok);
    }
  }

  /** A move of the attempt leaves the caller alone and never unsettles the dial's result. */
  lemma WorkFacts(s: State, ok: bool)
    requires Inv(s) && WorkStep(s, ok).Some?
    ensures var s' := WorkStep(s, ok).value;
            && !s.attempt.Exited? && s.done.None?
            && s'.caller == s.caller && s'.callerCloses == s.callerCloses && s'.expired == s.expired
            && (AfterSend(s.attempt) ==>
                  AfterSend(s'.attempt) && DialOk(s'.attempt) == DialOk(s.attempt) && s'.dialed == s.dialed)
  {
  }

  lemma WorkChannels(s: State, ok: bool)
    requires Inv(s) && WorkStep(s, ok).Some?
    ensures ChannelsOk(WorkStep(s, ok).value)
    ensures var s' := WorkStep(s, ok).value;
            && (s'.attempt.Exited? ==> s'.done.Some?)
            && (AfterSend(s'.attempt) && !AfterSend(s.attempt) ==> s'.dialed.Some?)
  {
    WorkFacts(s, ok);
  }

  lemma WorkInv(s: State, ok: bool)
    requires Inv(s) && WorkStep(s, ok).Some?
    ensures ChannelsOk(WorkStep(s, ok).value) && CallerOk(WorkStep(s, ok).value)
  {
    WorkFacts(s, ok);
    WorkChannels(s, ok);
  }

  lemma CallerInv(s: State, step: Step)
    requires Inv(s) && Next(s, step).Some? && !step.Work?
    ensures Inv(Next(s, step).value)
  {
  }

  lemma StepInv(s: State, step: Step)
    requires Inv(s) && Next(s, step).Some?
    ensures Inv(Next(s, step).value)
  {
    if step.Work? {
      WorkProgress(s, step.ok);
      WorkInv(s, step.ok);
    } else {
      CallerInv(s, step);
    }
  }

  lemma {:induction false} ExecInv(steps: seq<Step>)
    requires Exec(steps).Some?
    ensures Inv(Exec(steps).value)
  {
    if steps != [] {
      var n := |steps| - 1;
      ExecInv(steps[..n]);
      StepInv(Exec(steps[..n]).value, steps[n]);
    }
  }

  // ------------------------------------------------------------------ guarantees

  /** Check returns nil only if this attempt's connection passed both passive declares,
      the exchange before the queue, and was then closed, its channel first. */
  lemma NilMeansVerified(steps: seq<Step>)
    requires Exec(steps).Some? && Exec(steps).value.caller == Returned(Verified)
    ensures Exec(steps).value.ops
         == [Dialled(true), ChannelOpened(true), ExchangeChecked(true), QueueChecked(true), ChannelClosed, ConnClosed]
  {
    ExecInv(steps);
  }

  /** A refusal names what the attempt really met; giving up means the deadline passed. */
  lemma VerdictIsTrue(steps: seq<Step>)
    requires Exec(steps).Some? && Exec(steps).value.caller.Returned?
    ensures var s := Exec(steps).value;
            match s.caller.verdict
            case Verified => s.ops == FullStory(Passed)
            case DialFailed => s.ops == [Dialled(false)]
            case Unavailable(why) => s.ops == FullStory(Failed(why))
            case Aborted => s.expired
            case TimedOut => s.expired && |s.ops| >= 1 && s.ops[0] == Dialled(true)
  {
    ExecInv(steps);
  }

  /** The attempt never blocks on a channel: until it has exited only a silent broker on a
      connection nobody has closed can hold it up, the caller having left early or not. */
  lemma AttemptNeverBlocks(steps: seq<Step>)
    requires Exec(steps).Some? && !Exec(steps).value.attempt.Exited?
    ensures Exec(steps + [Work(false)]).Some? <==> !Waits(Exec(steps).value)
    ensures forall ok :: Exec(steps + [Work(ok)]).Some? ==> !Waits(Exec(steps).value)
  {
    ExecInv(steps);
    assert forall ok :: (steps + [Work(ok)])[..|steps|] == steps;
  }

  /** The caller never outlives the deadline or the attempt: once either is over, it has a
      move until it has returned. */
  lemma CallerNeverStuck(steps: seq<Step>) returns (step: Step)
    requires Exec(steps).Some? && !Exec(steps).value.caller.Returned?
    requires Exec(steps).value.expired || Exec(steps).value.attempt.Exited?
    ensures step in {TakeDialed, TakeDone, GiveUp, CloseNow} && Exec(steps + [step]).Some?
  {
    ExecInv(steps);
    var s := Exec(steps).value;
    step := if s.caller == CloseOnTimeout then CloseNow
            else if s.expired then GiveUp
            else if s.caller == AwaitDial then TakeDialed
            else TakeDone;
    assert (steps + [step])[..|steps|] == steps;
  }

  function Count(ops: seq<Op>, op: Op): nat {
    multiset(ops)[op]
  }

  lemma CountAppend(ops: seq<Op>, tail: seq<Op>, op: Op)
    ensures Count(ops + tail, op) == Count(ops, op) + Count(tail, op)
  {
  }

  lemma StoryFacts(r: Report)
    ensures Story(r)[0] == Dialled(r != DialError)
    ensures ConnClosed !in Story(r) && ChannelClosed !in Story(r)
  {
  }

  lemma CountOpened(r: Report)
    ensures Count(Story(r), ChannelOpened(true)) == if r == DialError || r == Failed(NoChannel) then 0 else 1
  {
  }

  function Tail(r: Report): seq<Op> {
    if r == DialError then [] else if r == Failed(NoChannel) then [ConnClosed] else [ChannelClosed, ConnClosed]
  }

  lemma TailFacts(r: Report)
    ensures FullStory(r) == Story(r) + Tail(r)
    ensures Count(Tail(r), ConnClosed) == if r == DialError then 0 else 1
    ensures Count(Tail(r), ChannelClosed) == if r == DialError || r == Failed(NoChannel) then 0 else 1
    ensures Count(Tail(r), ChannelOpened(true)) == 0 && Dialled(true) !in Tail(r)
  {
  }

  lemma StoryCounts(r: Report)
    ensures Dialled(true) in FullStory(r) <==> r != DialError
    ensures Count(FullStory(r), ConnClosed) == if r == DialError then 0 else 1
    ensures Count(FullStory(r), ChannelClosed) == Count(FullStory(r), ChannelOpened(true))
  {
    StoryFacts(r);
    CountOpened(r);
    TailFacts(r);
    CountAppend(Story(r), Tail(r), ConnClosed);
    CountAppend(Story(r), Tail(r), ChannelClosed);
    CountAppend(Story(r), Tail(r), ChannelOpened(true));
    assert r == DialError ==> FullStory(r) == [Dialled(false)];
    assert FullStory(r)[0] == Story(r)[0];
  }

  // ---------------------------------------------------------- what the caller took

  /** What the caller's control point says about the receives it has made. */
  predicate TookMatches(steps: seq<Step>, s: State) {
    match s.caller
    case AwaitDial => TakeDialed !in steps && TakeDone !in steps
    case AwaitDone => TakeDialed in steps && TakeDone !in steps
    case CloseOnTimeout => TakeDialed in steps && TakeDone !in steps
    case Returned(Aborted) => TakeDialed !in steps && TakeDone !in steps
    case Returned(DialFailed) => TakeDialed in steps && TakeDone !in steps
    case Returned(TimedOut) => TakeDialed in steps && TakeDone !in steps
    case Returned(_) => TakeDialed in steps && TakeDone in steps
  }

  lemma TookStep(steps: seq<Step>, s: State, step: Step)
    requires Inv(s) && TookMatches(steps, s) && Next(s, step).Some?
    ensures TookMatches(steps + [step], Next(s, step).value)
  {
    assert forall x :: x in steps + [step] <==> x in steps || x == step;
  }

  lemma {:induction false} Took(steps: seq<Step>)
    requires Exec(steps).Some?
    ensures TookMatches(steps, Exec(steps).value)
  {
    if steps != [] {
      var n := |steps| - 1;
      Took(steps[..n]);
      ExecInv(steps[..n]);
      TookStep(steps[..n], Exec(steps[..n]).value, steps[n]);
      assert steps == steps[..n] + [steps[n]];
    }
  }

  /** The caller that has taken a dialled connection and not the attempt's report. */
  predicate GaveUpAfterDial(steps: seq<Step>) {
    Exec(steps).Some? && TakeDialed in steps && TakeDone !in steps && DialOk(Exec(steps).value.attempt)
  }

  /** What the caller returns follows from what it received: it was aborted exactly if it had
      not taken the dial's result, and timed out exactly if it had, the dial having
      succeeded, without taking the attempt's report; only then has it closed the
      connection, and exactly once. */
  lemma CallerDecides(steps: seq<Step>)
    requires Exec(steps).Some? && Exec(steps).value.caller.Returned?
    ensures var s := Exec(steps).value;
            && (s.caller == Returned(Aborted) <==> TakeDialed !in steps)
            && (s.caller == Returned(TimedOut) <==> GaveUpAfterDial(steps))
            && s.callerCloses == (if GaveUpAfterDial(steps) then 1 else 0)
            && (s.caller == Returned(Aborted) || s.caller == Returned(TimedOut) ==> Expire in steps)
  {
    ExecInv(steps);
    Took(steps);
    Expired(steps);
  }

  lemma {:induction false} Expired(steps: seq<Step>)
    requires Exec(steps).Some?
    ensures Exec(steps).value.expired <==> Expire in steps
    ensures Exec(steps).value.silent <==> Silence in steps
  {
    if steps != [] {
      var n := |steps| - 1;
      Expired(steps[..n]);
      assert steps == steps[..n] + [steps[n]];
      FlagStep(Exec(steps[..n]).value, steps[n]);
    }
  }

  lemma FlagStep(s: State, step: Step)
    requires Next(s, step).Some?
    ensures Next(s, step).value.expired == (s.expired || step == Expire)
    ensures Next(s, step).value.silent == (s.silent || step == Silence)
  {
  }

  lemma ClosedByBoth(s: State)
    requires Inv(s) && s.attempt.Exited? && s.caller.Returned?
    ensures s.ops == FullStory(s.attempt.result)
    ensures DialOk(s.attempt) <==> s.attempt.result != DialError
  {
  }

  /** When both sides are done a dialled connection has been closed once, or twice exactly
      when the caller had taken it and then given up; an opened channel exactly once; a
      failed dial leaves nothing to close, also when the deadline won the first select. */
  lemma EverythingClosed(steps: seq<Step>)
    requires Exec(steps).Some?
    requires Exec(steps).value.attempt.Exited? && Exec(steps).value.caller.Returned?
    ensures var s := Exec(steps).value;
            var closes := Count(s.ops, ConnClosed) + s.callerCloses;
            && (Dialled(true) in s.ops ==>
                  closes == if TakeDialed in steps && TakeDone !in steps then 2 else 1)
            && (Dialled(true) !in s.ops ==> closes == 0)
            && Count(s.ops, ChannelClosed) == Count(s.ops, ChannelOpened(true))
  {
    ExecInv(steps);
    CallerDecides(steps);
    var s := Exec(steps).value;
    ClosedByBoth(s);
    StoryCounts(s.attempt.result);
  }

  /** Moves left to each party. */
  function Rank(s: State): nat {
    (if s.expired then 0 else 1) + (if s.silent then 0 else 1)
    + (match s.attempt
       case Dialing => 8 case SendDialed(_) => 7 case OpenChannel => 6 case DeclareExchange => 5
       case DeclareQueue => 4 case CloseChannel(_) => 3 case CloseConn(_) => 2 case SendDone(_) => 1
       case Exited(_) => 0)
    + (match s.caller
       case AwaitDial => 3 case AwaitDone => 2 case CloseOnTimeout => 1 case Returned(_) => 0)
  }

  lemma RankStep(s: State, step: Step)
    requires Next(s, step).Some?
    ensures Rank(Next(s, step).value) < Rank(s)
  {
  }

  /** Every interleaving ends: no run of Check has more than thirteen steps. */
  lemma {:induction false} CheckTerminates(steps: seq<Step>)
    requires Exec(steps).Some?
    ensures |steps| + Rank(Exec(steps).value) <= 13
  {
    if steps != [] {
      var n := |steps| - 1;
      CheckTerminates(steps[..n]);
      RankStep(Exec(steps[..n]).value, steps[n]);
    }
  }

  // --------------------------------------------------------- why Check closes early

  /** The attempt can be left waiting by a caller that has returned exactly when that caller
      never took the dial's result, so that nobody but the attempt holds the connection, and
      the broker has gone silent at one of the attempt's operations. */
  lemma LeftWaitingExactlyWhen(steps: seq<Step>)
    requires Exec(steps).Some? && Exec(steps).value.caller.Returned?
    ensures var s := Exec(steps).value;
            Waits(s) <==>
              && TakeDialed !in steps && Silence in steps
              && (|| s.attempt.OpenChannel? || s.attempt.DeclareExchange? || s.attempt.DeclareQueue?
                  || s.attempt.CloseChannel?)
    ensures Waits(Exec(steps).value) ==> Dialled(true) in Exec(steps).value.ops
  {
    ExecInv(steps);
    CallerDecides(steps);
    Expired(steps);
  }

  lemma Extend(steps: seq<Step>, step: Step) returns (longer: seq<Step>)
    requires Exec(steps).Some? && Next(Exec(steps).value, step).Some?
    ensures longer == steps + [step] && Exec(longer) == Next(Exec(steps).value, step)
  {
    longer := steps + [step];
    assert longer[..|steps|] == steps;
  }

  /** It does happen: the dial has succeeded, but the select picks the deadline. */
  lemma AttemptLeftWaiting() returns (steps: seq<Step>)
    ensures Exec(steps).Some? && Exec(steps).value.caller == Returned(Aborted) && Waits(Exec(steps).value)
  {
    steps := [];
    steps := Extend(steps, Work(true));
    steps := Extend(steps, Work(true));
    steps := Extend(steps, Expire);
    steps := Extend(steps, GiveUp);
    steps := Extend(steps, Silence);
  }

  /** And so does the timeout after the dial, with the one close that frees the attempt. */
  lemma AttemptFreed() returns (steps: seq<Step>)
    ensures Exec(steps).Some? && Exec(steps).value.caller == Returned(TimedOut)
    ensures Silence in steps && Exec(steps).value.callerCloses == 1 && AtRpc(Exec(steps).value.attempt)
  {
    steps := [];
    steps := Extend(steps, Work(true));
    steps := Extend(steps, Work(true));
    steps := Extend(steps, TakeDialed);
    steps := Extend(steps, Silence);
    steps := Extend(steps, Expire);
    steps := Extend(steps, GiveUp);
    steps := Extend(steps, CloseNow);
    Expired(steps);
  }

  /** The caller waits for the attempt's report; nothing has gone wrong outside. */
  predicate Undisturbed(s: State, attempt: Attempt) {
    s.caller == AwaitDone && s.attempt == attempt && !s.silent && s.callerCloses == 0 && s.done == None
  }

  lemma Opened() returns (steps: seq<Step>)
    ensures Exec(steps).Some? && Undisturbed(Exec(steps).value, OpenChannel)
  {
    steps := [];
    steps := Extend(steps, Work(true));
    steps := Extend(steps, Work(true));
    steps := Extend(steps, TakeDialed);
  }

  lemma Works(steps: seq<Step>, from: Attempt, ok: bool, to: Attempt) returns (longer: seq<Step>)
    requires Exec(steps).Some? && Undisturbed(Exec(steps).value, from) && (AtRpc(from) || from.CloseConn?)
    requires WorkStep(Exec(steps).value, ok).Some? && WorkStep(Exec(steps).value, ok).value.attempt == to
    ensures Exec(longer).Some? && Undisturbed(Exec(longer).value, to)
  {
    longer := Extend(steps, Work(ok));
  }

  lemma Reported(steps: seq<Step>, result: Report) returns (longer: seq<Step>)
    requires Exec(steps).Some? && Undisturbed(Exec(steps).value, CloseConn(result))
    ensures Exec(longer).Some? && Exec(longer).value.caller == Returned(VerdictOf(result))
  {
    longer := Works(steps, CloseConn(result), true, SendDone(result));
    longer := Extend(longer, Work(true));
    longer := Extend(longer, TakeDone);
  }

  lemma ExchangeFound() returns (steps: seq<Step>)
    ensures Exec(steps).Some? && Undisturbed(Exec(steps).value, DeclareQueue)
  {
    steps := Opened();
    steps := Works(steps, OpenChannel, true, DeclareExchange);
    steps := Works(steps, DeclareExchange, true, DeclareQueue);
  }

  /** What goes wrong, if anything, decides what the attempt will report. */
  lemma Closing(result: Report) returns (steps: seq<Step>)
    requires result != DialError
    ensures Exec(steps).Some? && Undisturbed(Exec(steps).value, CloseConn(result))
  {
    match result {
      case Failed(NoChannel) =>
        steps := Opened();
        steps := Works(steps, OpenChannel, false, CloseConn(result));
        return;
      case Failed(NoExchange) =>
        steps := Opened();
        steps := Works(steps, OpenChannel, true, DeclareExchange);
        steps := Works(steps, DeclareExchange, false, CloseChannel(result));
      case Failed(NoQueue) =>
        steps := ExchangeFound();
        steps := Works(steps, DeclareQueue, false, CloseChannel(result));
      case Passed =>
        steps := ExchangeFound();
        steps := Works(steps, DeclareQueue, true, CloseChannel(result));
    }
    steps := Works(steps, CloseChannel(result), true, CloseConn(result));
  }

  lemma DialRefused() returns (steps: seq<Step>)
    ensures Exec(steps).Some? && Exec(steps).value.caller == Returned(DialFailed)
  {
    steps := [];
    steps := Extend(steps, Work(false));
    steps := Extend(steps, Work(true));
    steps := Extend(steps, TakeDialed);
  }

  /** Check can return every one of its verdicts, so none of the results is empty. */
  lemma EveryVerdictOccurs(verdict: Verdict) returns (steps: seq<Step>)
    ensures Exec(steps).Some? && Exec(steps).value.caller == Returned(verdict)
  {
    match verdict {
      case Verified =>
        steps := Closing(Passed);
        steps := Reported(steps, Passed);
      case Unavailable(why) =>
        steps := Closing(Failed(why));
        steps := Reported(steps, Failed(why));
      case DialFailed => steps := DialRefused();
      case Aborted => steps := AttemptLeftWaiting();
      case TimedOut => steps := AttemptFreed();
    }
  }

  predicate OnlyWork(steps: seq<Step>) {
    forall i :: 0 <= i < |steps| ==> steps[i].Work?
  }

  lemma FreeStep(s: State)
    requires Inv(s) && s.caller == Returned(TimedOut) && !s.attempt.Exited?
    ensures Next(s, Work(false)).Some? && Next(s, Work(false)).value.caller == s.caller
    ensures Rank(Next(s, Work(false)).value) < Rank(s)
  {
    RankStep(s, Work(false));
  }

  lemma {:induction false} FreedAttemptFinishes(steps: seq<Step>) returns (more: seq<Step>)
    requires Exec(steps).Some? && Exec(steps).value.caller == Returned(TimedOut)
    ensures OnlyWork(more) && Exec(steps + more).Some? && Exec(steps + more).value.attempt.Exited?
    decreases Rank(Exec(steps).value)
  {
    var s := Exec(steps).value;
    ExecInv(steps);
    more := [];
    if s.attempt.Exited? {
      assert steps + more == steps;
    } else {
      FreeStep(s);
      var longer := Extend(steps, Work(false));
      var rest := FreedAttemptFinishes(longer);
      more := [Work(false)] + rest;
      assert steps + more == longer + rest;
    }
  }

  /** Closing the connection is what frees the attempt: whatever the broker does, when the
      caller has returned after taking the dialled connection but not the attempt's report, the
      attempt runs to its end by itself. */
  lemma TimedOutAttemptFinishes(steps: seq<Step>) returns (more: seq<Step>)
    requires Exec(steps).Some? && Exec(steps).value.caller.Returned? && GaveUpAfterDial(steps)
    ensures OnlyWork(more) && Exec(steps + more).Some? && Exec(steps + more).value.attempt.Exited?
  {
    CallerDecides(steps);
    more := FreedAttemptFinishes(steps);
  }
}
