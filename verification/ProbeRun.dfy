/** Probe.Run, internal/rabbitmq/probe.go. Everything the loop does is a function of the
    results of its checks so far. */
module ProbeRun {
  import opened Results
  import opened Backoff
  import opened Readiness

  /** The results of the checks, oldest first. */
  type History = seq<bool>

  datatype Line =
    | NotYet(attempt: nat, retryIn: int, loud: bool)
    | Verified
    | Lost
    | StillLost
    | Restored

  // -------------------------------------------------------- functions of history

  predicate EverReady(h: History) {
    true in h
  }

  /** Ready once, and the latest check failed. */
  predicate IsLost(h: History) {
    EverReady(h) && !h[|h| - 1]
  }

  /** Failures before the first success. */
  function EarlyFailures(h: History): nat {
    if h == [] || h[0] then 0 else 1 + EarlyFailures(h[1..])
  }

  /** Failures since the last success, or since the start. */
  function Streak(h: History): nat {
    if h == [] || h[|h| - 1] then 0 else 1 + Streak(h[..|h| - 1])
  }

  /** What one more check result logs. */
  function LinesFor(h: History, ok: bool, retryIn: int): seq<Line> {
    if ok then
      if !EverReady(h) then [Verified] else if IsLost(h) then [Restored] else []
    else if !EverReady(h) then
      var attempt := |h| + 1;
      [NotYet(attempt, retryIn, attempt == 1 || attempt % 10 == 0)]
    else if !IsLost(h) then [Lost]
    else [StillLost]
  }

  datatype Delays = Delays(initial: nat, max: nat, healthyEvery: nat)

  /** The sleep after the checks in h: doubled once for each failure of the streak after
      the first, or the long pause after a success. */
  function Pause(delays: Delays, h: History): int
    requires h != []
  {
    if h[|h| - 1] then delays.healthyEvery else Iterated(delays.initial, delays.max, Streak(h) - 1)
  }

  function Lines(delays: Delays, h: History): seq<Line> {
    if h == [] then []
    else
      var n := |h| - 1;
      Lines(delays, h[..n]) + LinesFor(h[..n], h[n], Pause(delays, h))
  }

  function Pauses(delays: Delays, h: History): seq<int> {
    if h == [] then [] else Pauses(delays, h[..|h| - 1]) + [Pause(delays, h)]
  }

  // ------------------------------------------------------------------- the world

  /** The run context, the checks, the logger, the timer and the callback. Each check is an
      arbitrary finished run of Check, and health requests may arrive at any time. */
  class ProbeWorld {
    const flag: Flag
    const checks: nat -> Check
    ghost var history: History
    ghost var lines: seq<Line>
    ghost var pauses: seq<int>
    /** The number of checks done at each call of the callback. */
    ghost var notified: seq<nat>
    var done: nat
    /** Calls left until the context is cancelled. */
    var left: nat

    constructor (flag: Flag, checks: nat -> Check, left: nat)
      requires flag.Valid() && flag.happenings == [] && forall n :: Finished(checks(n))
      ensures this.flag == flag && this.checks == checks && this.left == left
      ensures Fresh() && Valid()
    {
      this.flag, this.checks, this.left := flag, checks, left;
      history, lines, pauses, notified := [], [], [], [];
      done := 0;
    }

    ghost predicate Fresh()
      reads this, flag
    {
      history == [] && lines == [] && pauses == [] && notified == [] && flag.happenings == []
    }

    ghost predicate Valid()
      reads this, flag
    {
      flag.Valid() && done == |history| && forall n :: Finished(checks(n))
    }

    /** Probe, callback and requests have kept to their order, with the results on record. */
    ghost predicate Reached(stored: bool)
      reads this, flag
    {
      Follow(flag.happenings) == Some(Progress(history, stored))
    }

    method Cancelled() returns (c: bool)
      requires Valid()
      modifies this`left, flag
      ensures Valid()
      ensures Follow(flag.happenings) == old(Follow(flag.happenings))
      ensures c == (old(left) == 0)
      ensures left == if old(left) == 0 then 0 else old(left) - 1
    {
      flag.Serve();
      c := left == 0;
      left := if left == 0 then 0 else left - 1;
    }

    method Check() returns (ok: bool)
      requires Valid()
      modifies this`history, this`done, flag
      ensures Valid()
      ensures history == old(history) + [ok]
      ensures old(Reached(true in history)) ==> Reached(true in old(history))
    {
      flag.Serve();
      var check := checks(done);
      FollowExtend(flag.happenings, Probed(check));
      flag.Note(check);
      ok := ReturnsNil(check);
      history, done := history + [ok], done + 1;
    }

    method Log(line: Line)
      modifies this`lines
      ensures lines == old(lines) + [line]
    {
      lines := lines + [line];
    }

    method Sleep(delay: int) returns (interrupted: bool)
      modifies this`pauses
      ensures pauses == old(pauses) + [delay]
      ensures interrupted ==> left == 0
    {
      interrupted := *;
      if left > 0 {
        interrupted := false;
      }
      pauses := pauses + [delay];
    }

    /** The callback that Run was given. */
    method Notify()
      requires Valid()
      modifies this`notified, flag
      ensures Valid()
      ensures notified == old(notified) + [|history|]
      ensures old(Reached(false)) && true in history ==> Reached(true)
    {
      flag.Serve();
      FollowExtend(flag.happenings, Stored);
      flag.StoreTrue();
      notified := notified + [|history|];
    }
  }

  function NotifiedFor(h: History, callback: bool): seq<nat> {
    if callback && EverReady(h) then [EarlyFailures(h) + 1] else []
  }

  class Probe {
    const delays: Delays

    constructor (delays: Delays)
      ensures this.delays == delays
    {
      this.delays := delays;
    }

    /** The loop's variables are functions of the history. */
    ghost predicate Tracks(h: History, ready: bool, lost: bool, attempts: nat, retryDelay: int) {
      && ready == EverReady(h)
      && lost == IsLost(h)
      && attempts == EarlyFailures(h)
      && retryDelay == Iterated(delays.initial, delays.max, Streak(h))
    }

    /** So is everything observable. */
    ghost predicate Reported(env: ProbeWorld, h: History, callback: bool)
      reads env
    {
      && env.lines == Lines(delays, h)
      && env.pauses == Pauses(delays, h)
      && env.notified == NotifiedFor(h, callback)
    }

    /** Run, with or without a callback. Every line logged, every sleep and the callback
        are determined by the check results, and callback and checks keep their order among
        the health requests; it returns only once cancelled. */
    method Run(env: ProbeWorld, callback: bool)
      requires env.Valid() && env.Fresh()
      modifies env, env.flag
      ensures env.Valid() && Reported(env, env.history, callback)
      ensures callback ==> env.Reached(EverReady(env.history))
      ensures env.left == 0
    {
      var ready, lost, attempts, retryDelay := false, false, 0, delays.initial;
      while true
        invariant Tracks(env.history, ready, lost, attempts, retryDelay)
        invariant env.Valid() && Reported(env, env.history, callback)
        invariant callback ==> env.Reached(EverReady(env.history))
        decreases env.left
      {
        var cancelled := env.Cancelled();
        if cancelled {
          return;
        }
        ghost var h := env.history;
        var ok := env.Check();
        var interrupted;
        if !ok {
          lost, attempts, retryDelay, interrupted := Failed(env, h, callback, ready, lost, attempts, retryDelay);
        } else {
          ready, lost, retryDelay, interrupted := Succeeded(env, h, callback, ready, lost, attempts, retryDelay);
        }
        if interrupted {
          return;
        }
      }
    }

    /** The loop body after a failed check: h is the history before it. */
    method Failed(env: ProbeWorld, ghost h: History, ghost callback: bool,
                  ready: bool, lost: bool, attempts: nat, retryDelay: int)
        returns (lost': bool, attempts': nat, retryDelay': int, interrupted: bool)
      requires env.history == h + [false]
      requires Tracks(h, ready, lost, attempts, retryDelay) && Reported(env, h, callback)
      modifies env`lines, env`pauses
      ensures Tracks(env.history, ready, lost', attempts', retryDelay')
      ensures Reported(env, env.history, callback)
      ensures interrupted ==> env.left == 0
    {
      GrowFlags(h, false);
      GrowOutput(delays, h, false);
      EarlyFailuresGrow(h, false);
      lost', attempts' := OnFailure(env, h, ready, lost, attempts, retryDelay);
      interrupted := env.Sleep(retryDelay);
      retryDelay' := NextDelay(retryDelay, delays.max);
    }

    /** The loop body after a successful check. */
    method Succeeded(env: ProbeWorld, ghost h: History, callback: bool,
                     ready: bool, lost: bool, ghost attempts: nat, retryDelay: int)
        returns (ready': bool, lost': bool, retryDelay': int, interrupted: bool)
      requires env.Valid() && env.history == h + [true]
      requires Tracks(h, ready, lost, attempts, retryDelay) && Reported(env, h, callback)
      requires callback ==> env.Reached(EverReady(h))
      modifies env`lines, env`pauses, env`notified, env.flag
      ensures env.Valid() && Tracks(env.history, ready', lost', attempts, retryDelay')
      ensures Reported(env, env.history, callback)
      ensures callback ==> env.Reached(true)
      ensures interrupted ==> env.left == 0
    {
      AfterSuccess(delays, h);
      ReportAfterSuccess(delays, h, callback);
      ready', lost' := OnSuccess(env, h, callback, ready, lost);
      retryDelay' := delays.initial;
      interrupted := env.Sleep(delays.healthyEvery);
    }

    /** The log line of a failed check, and the flags after it. */
    method OnFailure(env: ProbeWorld, ghost h: History,
                     ready: bool, lost: bool, attempts: nat, retryDelay: int)
        returns (lost': bool, attempts': nat)
      requires env.history == h + [false] && ready == EverReady(h) && lost == IsLost(h)
      requires attempts == EarlyFailures(h) && (!ready ==> attempts == |h|)
      modifies env`lines
      ensures env.lines == old(env.lines) + LinesFor(h, false, retryDelay)
      ensures lost' == ready && attempts' == attempts + (if ready then 0 else 1)
    {
      lost', attempts' := lost, attempts;
      if !ready {
        attempts' := attempts + 1;
        env.Log(NotYet(attempts', retryDelay, attempts' == 1 || attempts' % 10 == 0));
      } else if !lost {
        lost' := true;
        env.Log(Lost);
      } else {
        env.Log(StillLost);
      }
    }

    /** The log line of a successful check, the callback on the first, and the flags after it. */
    method OnSuccess(env: ProbeWorld, ghost h: History, callback: bool, ready: bool, lost: bool)
        returns (ready': bool, lost': bool)
      requires env.Valid() && env.history == h + [true] && ready == EverReady(h) && lost == IsLost(h)
      requires callback ==> env.Reached(ready)
      modifies env`lines, env`notified, env.flag
      ensures env.Valid() && (callback ==> env.Reached(true))
      ensures env.lines == old(env.lines) + LinesFor(h, true, 0)
      ensures env.notified == old(env.notified) + (if callback && !ready then [|h| + 1] else [])
      ensures ready' && !lost'
    {
      ready', lost' := ready, lost;
      if !ready {
        ready' := true;
        env.Log(Verified);
        if callback {
          env.Notify();
        }
      } else if lost {
        lost' := false;
        env.Log(Restored);
      }
    }
  }

  lemma {:induction false} EarlyFailuresGrow(h: History, ok: bool)
    ensures EarlyFailures(h + [ok]) == EarlyFailures(h) + (if ok || EverReady(h) then 0 else 1)
    ensures !EverReady(h) ==> EarlyFailures(h) == |h|
  {
    if h == [] {
      assert [ok][1..] == [];
      assert h + [ok] == [ok];
    } else {
      assert (h + [ok])[1..] == h[1..] + [ok];
      assert h == [h[0]] + h[1..];
      if !h[0] {
        EarlyFailuresGrow(h[1..], ok);
      }
    }
  }

  /** One check, as the loop's flags see it. */
  lemma GrowFlags(h: History, ok: bool)
    ensures EverReady(h + [ok]) == (EverReady(h) || ok)
    ensures IsLost(h + [ok]) == (EverReady(h) && !ok)
    ensures Streak(h + [ok]) == (if ok then 0 else Streak(h) + 1)
  {
  }

  /** What the check adds to the log and to the sleeps. */
  lemma GrowOutput(delays: Delays, h: History, ok: bool)
    ensures Pause(delays, h + [ok]) == if ok then delays.healthyEvery
                                       else Iterated(delays.initial, delays.max, Streak(h))
    ensures Lines(delays, h + [ok]) == Lines(delays, h) + LinesFor(h, ok, Pause(delays, h + [ok]))
    ensures Pauses(delays, h + [ok]) == Pauses(delays, h) + [Pause(delays, h + [ok])]
  {
    assert (h + [ok])[..|h|] == h;
    GrowFlags(h, ok);
  }

  lemma AfterSuccess(delays: Delays, h: History)
    ensures EverReady(h + [true]) && !IsLost(h + [true])
    ensures EarlyFailures(h + [true]) == EarlyFailures(h)
    ensures Iterated(delays.initial, delays.max, Streak(h + [true])) == delays.initial
  {
    GrowFlags(h, true);
    EarlyFailuresGrow(h, true);
  }

  lemma ReportAfterSuccess(delays: Delays, h: History, callback: bool)
    ensures Lines(delays, h + [true]) == Lines(delays, h) + LinesFor(h, true, 0)
    ensures Pauses(delays, h + [true]) == Pauses(delays, h) + [delays.healthyEvery]
    ensures NotifiedFor(h + [true], callback)
         == NotifiedFor(h, callback) + (if callback && !EverReady(h) then [|h| + 1] else [])
  {
    GrowOutput(delays, h, true);
    NotifiedAfterSuccess(h, callback);
  }

  lemma NotifiedAfterSuccess(h: History, callback: bool)
    ensures NotifiedFor(h + [true], callback)
         == NotifiedFor(h, callback) + (if callback && !EverReady(h) then [|h| + 1] else [])
  {
    EarlyFailuresGrow(h, true);
    assert EverReady(h + [true]) by { GrowFlags(h, true); }
  }

  lemma {:induction false} EarlyCounts(h: History)
    requires !EverReady(h)
    ensures Streak(h) == |h| == EarlyFailures(h)
  {
    if h != [] {
      var n := |h| - 1;
      assert h == h[..n] + [h[n]];
      EarlyCounts(h[..n]);
      EarlyFailuresGrow(h[..n], h[n]);
    }
  }

  /** The line of failure n, before the first success. */
  function EarlyLine(delays: Delays, n: nat): Line {
    NotYet(n + 1, Iterated(delays.initial, delays.max, n), n == 0 || (n + 1) % 10 == 0)
  }

  lemma EarlyGrow(delays: Delays, h: History)
    requires h != [] && !EverReady(h)
    ensures !EverReady(h[..|h| - 1])
    ensures Lines(delays, h) == Lines(delays, h[..|h| - 1]) + [EarlyLine(delays, |h| - 1)]
  {
    assert h == h[..|h| - 1] + [h[|h| - 1]];
    EarlyCounts(h);
  }

  /** Until the first success each failure logs one line: its number, the pause that follows
      it, loud for the first and every tenth. */
  lemma {:induction false} EarlyLines(delays: Delays, h: History, i: nat)
    requires i < |h| && !EverReady(h)
    ensures |Lines(delays, h)| == |h|
    ensures Lines(delays, h)[i]
         == NotYet(i + 1, Iterated(delays.initial, delays.max, i), i == 0 || (i + 1) % 10 == 0)
  {
    var n := |h| - 1;
    EarlyGrow(delays, h);
    if n > 0 {
      EarlyLines(delays, h[..n], if i < n then i else 0);
    }
  }

  /** After a success each check logs at most one line: a loss when it fails for the first
      time, a recovery when it succeeds again, and only a faint line while still lost. */
  lemma LaterLines(delays: Delays, h: History, ok: bool)
    requires EverReady(h)
    ensures Lines(delays, h + [ok]) == Lines(delays, h) +
              (if h[|h| - 1] then (if ok then [] else [Lost]) else [if ok then Restored else StillLost])
  {
    GrowOutput(delays, h, ok);
  }

  /** The sleep after each check: the long one after a success; the first delay after the
      first failure; then each the double of the one before, up to the cap. */
  lemma PauseRecurrence(delays: Delays, h: History, ok: bool)
    ensures var pause := Pause(delays, h + [ok]);
            && (ok ==> pause == delays.healthyEvery)
            && (!ok && (h == [] || h[|h| - 1]) ==> pause == delays.initial)
            && (!ok && h != [] && !h[|h| - 1] ==> pause == NextDelay(Pause(delays, h), delays.max))
  {
    GrowOutput(delays, h, ok);
  }

  /** Sleep i is the capped power of two for the streak of failures before it, or the long
      pause after a success. */
  ghost predicate PauseAsDocumented(delays: Delays, h: History, i: nat)
    requires i < |h|
  {
    && |Pauses(delays, h)| == |h|
    && Pauses(delays, h)[i] ==
         if h[i] then delays.healthyEvery
         else Capped(delays.initial, delays.max, Streak(h[..i + 1]) - 1)
  }

  lemma {:induction false} PauseAt(delays: Delays, h: History, i: nat)
    requires i < |h|
    ensures |Pauses(delays, h)| == |h|
    ensures Pauses(delays, h)[i] == Pause(delays, h[..i + 1])
  {
    var n := |h| - 1;
    if i < n {
      PauseAt(delays, h[..n], i);
      assert h[..n][..i + 1] == h[..i + 1];
    } else {
      PausesLength(delays, h[..n]);
      assert h[..i + 1] == h;
    }
  }

  function Failures(n: nat): History {
    seq(n, _ => false)
  }

  lemma {:induction false} FailuresStreak(n: nat)
    ensures Streak(Failures(n)) == n
  {
    if n > 0 {
      FailuresStreak(n - 1);
      assert Failures(n)[..n - 1] == Failures(n - 1);
    }
  }

  lemma DocumentedPause(delays: Delays, h: History, i: nat)
    requires i < |h|
    requires forall n: nat :: Iterated(delays.initial, delays.max, n) == Capped(delays.initial, delays.max, n)
    ensures PauseAsDocumented(delays, h, i)
  {
    PauseAt(delays, h, i);
  }

  lemma PauseAfterFailures(delays: Delays, n: nat)
    requires PauseAsDocumented(delays, Failures(n + 1), n)
    ensures Iterated(delays.initial, delays.max, n) == Capped(delays.initial, delays.max, n)
  {
    PauseAt(delays, Failures(n + 1), n);
    FailuresStreak(n + 1);
    assert Failures(n + 1)[..n + 1] == Failures(n + 1);
  }

  /** Every sleep of every history is the documented one exactly when the first delay is
      zero or the cap is below half the 64-bit range, as the program's thirty seconds is. */
  lemma PauseSchedule(delays: Delays)
    requires delays.initial <= delays.max < 0x8000_0000_0000_0000
    ensures (forall h: History, i: nat | i < |h| :: PauseAsDocumented(delays, h, i))
       <==> delays.initial == 0 || delays.max < 0x4000_0000_0000_0000
  {
    IteratedIsCappedExactlyWhen(delays.initial, delays.max);
    if forall n: nat :: Iterated(delays.initial, delays.max, n) == Capped(delays.initial, delays.max, n) {
      forall h: History, i: nat | i < |h|
        ensures PauseAsDocumented(delays, h, i)
      {
        DocumentedPause(delays, h, i);
      }
    } else {
      var n: nat :| Iterated(delays.initial, delays.max, n) != Capped(delays.initial, delays.max, n);
      if PauseAsDocumented(delays, Failures(n + 1), n) {
        PauseAfterFailures(delays, n);
      }
    }
  }

  lemma {:induction false} PausesLength(delays: Delays, h: History)
    ensures |Pauses(delays, h)| == |h|
  {
    if h != [] {
      PausesLength(delays, h[..|h| - 1]);
    }
  }

  // ------------------------------------------------------------------ the log's shape

  predicate IsTransition(line: Line) {
    line.Verified? || line.Lost? || line.Restored?
  }

  function Transitions(lines: seq<Line>): seq<Line> {
    if lines == [] then []
    else
      var n := |lines| - 1;
      Transitions(lines[..n]) + (if IsTransition(lines[n]) then [lines[n]] else [])
  }

  /** A prefix of: verified, then lost and restored in turn. */
  predicate Alternates(ts: seq<Line>) {
    forall i :: 0 <= i < |ts| ==>
      ts[i] == (if i == 0 then Verified else if i % 2 == 1 then Lost else Restored)
  }

  lemma TransitionsAppend(lines: seq<Line>, more: seq<Line>)
    requires |more| <= 1
    ensures Transitions(lines + more)
         == Transitions(lines) + (if more != [] && IsTransition(more[0]) then more else [])
  {
    if more == [] {
      assert lines + more == lines;
    } else {
      assert (lines + more)[..|lines|] == lines;
      assert more == [more[0]];
    }
  }

  predicate Tells(ts: seq<Line>, ready: bool, lost: bool) {
    && Alternates(ts)
    && (ts == [] <==> !ready)
    && (ts != [] ==> (|ts| % 2 == 0 <==> lost))
  }

  lemma TransitionStep(ts: seq<Line>, h: History, ok: bool, retryIn: int)
    requires Tells(ts, EverReady(h), IsLost(h))
    ensures var more := LinesFor(h, ok, retryIn);
            Tells(ts + (if more != [] && IsTransition(more[0]) then more else []),
                  EverReady(h + [ok]), IsLost(h + [ok]))
  {
  }

  /** The connectivity log alternates, and its length tells the state: none before the
      first success, odd while connected, even while lost. */
  lemma {:induction false} LogShape(delays: Delays, h: History)
    ensures Tells(Transitions(Lines(delays, h)), EverReady(h), IsLost(h))
  {
    if h != [] {
      var n := |h| - 1;
      LogShape(delays, h[..n]);
      assert h == h[..n] + [h[n]];
      TransitionsAppend(Lines(delays, h[..n]), LinesFor(h[..n], h[n], Pause(delays, h)));
      TransitionStep(Transitions(Lines(delays, h[..n])), h[..n], h[n], Pause(delays, h));
    }
  }

  // ------------------------------------------------------------------ the callback

  /** The callback runs at most once, right after the first check that succeeded. */
  lemma NotifiedOnce(h: History)
    ensures |NotifiedFor(h, true)| == (if EverReady(h) then 1 else 0)
    ensures EverReady(h) ==>
              var n := NotifiedFor(h, true)[0];
              1 <= n <= |h| && h[n - 1] && forall i :: 0 <= i < n - 1 ==> !h[i]
  {
    if EverReady(h) {
      FirstSuccess(h);
    }
  }

  lemma {:induction false} FirstSuccess(h: History)
    requires EverReady(h)
    ensures var n := EarlyFailures(h); n < |h| && h[n] && forall i :: 0 <= i < n ==> !h[i]
  {
    if !h[0] {
      assert h == [h[0]] + h[1..];
      FirstSuccess(h[1..]);
    }
  }
}
