/** The publish retry loop, internal/messenger/gotosocial_publisher.go, for any retry
    limit of at least one. What the server answers to each attempt is not known. */
module Publisher {
  import opened Results
  import opened Backoff

  /** How one attempt ends: the request cannot be built, it cannot be sent, or the server
      answers with a status code and, perhaps, the id of the created status. */
  datatype Reply = NoRequest | SendFailed | Answered(status: int, id: string)

  datatype PublishError = CannotCreate | Unsent(attempts: nat) | Refused(status: int, attempts: nat)

  /** What the loop does, in order. */
  datatype Event = Try(attempt: nat) | Pause(delay: int)

  const MAX_PUBLISH_RETRIES := 3

  predicate Success(r: Reply) {
    r.Answered? && 200 <= r.status < 300
  }

  predicate Retryable(r: Reply) {
    !r.NoRequest? && !Success(r)
  }

  /** The server and the clock: the replies are fixed but arbitrary. */
  class Server {
    const replies: nat -> Reply
    ghost var events: seq<Event>

    constructor (replies: nat -> Reply)
      ensures this.replies == replies && events == []
    {
      this.replies := replies;
      events := [];
    }

    method Attempt(attempt: nat) returns (r: Reply)
      modifies this
      ensures r == replies(attempt) && events == old(events) + [Try(attempt)]
    {
      r := replies(attempt);
      events := events + [Try(attempt)];
    }

    method Sleep(delay: int)
      modifies this
      ensures events == old(events) + [Pause(delay)]
    {
      events := events + [Pause(delay)];
    }
  }

  /** The number of attempts the replies call for: the first success or unbuildable request
      ends the loop, and so does the limit. */
  ghost predicate Attempts(replies: nat -> Reply, limit: nat, n: nat) {
    && 1 <= n <= limit
    && (forall i: nat :: i < n - 1 ==> Retryable(replies(i)))
    && (n < limit ==> !Retryable(replies(n - 1)))
  }

  /** n attempts with a pause between each two. */
  function Schedule(n: nat): seq<Event> {
    if n == 0 then []
    else if n == 1 then [Try(0)]
    else Schedule(n - 1) + [Pause(PublishBackoff(n - 2)), Try(n - 1)]
  }

  /** The result that the last attempt decides. */
  function Verdict(last: Reply, n: nat): Result<string, PublishError> {
    match last
    case NoRequest => Err(CannotCreate)
    case SendFailed => Err(Unsent(n))
    case Answered(status, id) => if Success(last) then Ok(id) else Err(Refused(status, n))
  }

  /** The request could not be sent, or was answered with a status outside 200 to 299. */
  predicate FailedAttempt(r: Reply) {
    match r
    case NoRequest => false
    case SendFailed => true
    case Answered(status, _) => status < 200 || status > 299
  }

  /** publish. The statement after the loop is never reached. */
  method Publish(server: Server, limit: nat) returns (r: Result<string, PublishError>, ghost n: nat)
    requires limit >= 1 && server.events == []
    modifies server
    ensures Attempts(server.replies, limit, n)
    ensures server.events == Schedule(n)
    ensures r == Verdict(server.replies(n - 1), n)
    ensures match server.replies(n - 1)
            case Answered(status, id) =>
              if 200 <= status <= 299 then r == Ok(id) else n == limit && r == Err(Refused(status, n))
            case SendFailed => n == limit && r == Err(Unsent(n))
            case NoRequest => r == Err(CannotCreate)
    ensures forall i: nat :: i < n - 1 ==> FailedAttempt(server.replies(i))
  {
    for attempt := 0 to limit
      invariant forall i: nat :: i < attempt ==> Retryable(server.replies(i))
      invariant attempt == 0 ==> server.events == []
      invariant attempt > 0 ==> server.events == Schedule(attempt) + [Pause(PublishBackoff(attempt - 1))]
      invariant attempt < limit
    {
      var reply := server.Attempt(attempt);
      n := attempt + 1;
      assert server.events == Schedule(n);
      match reply
      case NoRequest =>
        return Err(CannotCreate), n;
      case SendFailed =>
        if attempt < limit - 1 {
          server.Sleep(PublishBackoff(attempt));
          continue;
        }
        return Err(Unsent(attempt + 1)), n;
      case Answered(status, id) =>
        if 200 <= status < 300 {
          return Ok(id), n;
        }
        if attempt < limit - 1 {
          server.Sleep(PublishBackoff(attempt));
          continue;
        }
        return Err(Refused(status, attempt + 1)), n;
    }
    assert false;
  }

  /** The replies and the limit determine the number of attempts. */
  lemma AttemptsUnique(replies: nat -> Reply, limit: nat, m: nat, n: nat)
    requires Attempts(replies, limit, m) && Attempts(replies, limit, n)
    ensures m == n
  {
  }

  /** Exactly min(index of the first success, limit) attempts, counting from one, whenever
      the request can be built. */
  lemma StopsAtFirstSuccess(replies: nat -> Reply, limit: nat, n: nat, first: nat)
    requires Attempts(replies, limit, n)
    requires forall i: nat :: !replies(i).NoRequest?
    requires first >= 1 && !FailedAttempt(replies(first - 1))
    requires forall i: nat :: i < first - 1 ==> FailedAttempt(replies(i))
    ensures n == Min(first, limit)
    ensures Verdict(replies(n - 1), n).Ok? <==> first <= limit
  {
  }

  /** The publisher gives up only after every allowed attempt failed. */
  lemma GivesUpExactlyWhen(replies: nat -> Reply, limit: nat, n: nat)
    requires Attempts(replies, limit, n)
    requires forall i: nat :: !replies(i).NoRequest?
    ensures Verdict(replies(n - 1), n).Err?
       <==> forall i: nat :: i < limit ==> FailedAttempt(replies(i))
  {
  }

  /** Attempts and pauses alternate, starting and ending with an attempt; the attempts are
      numbered from zero and pause i is the backoff for attempt i. */
  lemma {:induction false} ScheduleShape(n: nat, k: nat)
    requires n >= 1 && k < |Schedule(n)|
    ensures |Schedule(n)| == 2 * n - 1
    ensures Schedule(n)[k] == if k % 2 == 0 then Try(k / 2) else Pause(PublishBackoff(k / 2))
  {
    if n > 1 {
      ScheduleShape(n - 1, if k < |Schedule(n - 1)| then k else 0);
    }
  }

  /** With at most 36 attempts every pause is the documented one, min(30s, 500ms * 2^i), and
      36 is the largest such limit: the next pause would already be wrong. */
  lemma PausesAreCappedExactlyWhen(limit: nat)
    requires limit >= 1
    ensures limit <= 36
       <==> forall i: nat :: i < limit - 1 ==> PublishBackoff(i) == Capped(PUBLISH_BASE, CAP, i)
  {
    if limit <= 36 {
      forall i: nat | i < limit - 1
        ensures PublishBackoff(i) == Capped(PUBLISH_BASE, CAP, i)
      {
        PublishBackoffIsCappedExactlyWhen(i);
      }
    } else {
      PublishBackoffIsCappedExactlyWhen(35);
    }
  }

  /** The program's own limit: at most two pauses, of half a second and of one second. */
  lemma ProgramPauses(n: nat)
    ensures n == MAX_PUBLISH_RETRIES ==>
              Schedule(n) == [Try(0), Pause(500_000_000), Try(1), Pause(1_000_000_000), Try(2)]
    ensures n < MAX_PUBLISH_RETRIES ==> Schedule(n) < Schedule(MAX_PUBLISH_RETRIES)
  {
  }
}
