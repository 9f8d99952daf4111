/** Readiness over a whole run, cmd/server/main.go: the probe's checks, its callback and any
    number of health requests, in the order in which the shared flag serialises them. */
module Readiness {
  import opened Results
  import PC = ProbeCheck

  const OK_STATUS := 200
  const STARTING_STATUS := 503

  /** One check is a whole run of its two goroutines, up to the caller's return. */
  type Check = seq<PC.Step>

  predicate Finished(check: Check) {
    PC.Exec(check).Some? && PC.Exec(check).value.caller.Returned?
  }

  /** Check returned nil. */
  predicate ReturnsNil(check: Check) {
    Finished(check) && PC.Exec(check).value.caller.verdict.Verified?
  }

  /** What the check's attempt did, in order. */
  function Did(check: Check): seq<PC.Op>
    requires Finished(check)
  {
    PC.Exec(check).value.ops
  }

  datatype Happening = Probed(check: Check) | Stored | Asked

  /** The results of the checks so far, and whether the callback has run. */
  datatype Progress = Progress(results: seq<bool>, stored: bool)

  /** The probe calls back after its first success, before it checks again, and only then;
      requests come whenever they come. */
  function After(p: Progress, h: Happening): Option<Progress> {
    match h
    case Probed(check) =>
      if !Finished(check) || (true in p.results && !p.stored) then None
      else Some(p.(results := p.results + [ReturnsNil(check)]))
    case Stored => if true in p.results && !p.stored then Some(p.(stored := true)) else None
    case Asked => Some(p)
  }

  function Lift(p: Option<Progress>, h: Happening): Option<Progress> {
    match p
    case None => None
    case Some(progress) => After(progress, h)
  }

  /** Where a sequence of happenings leads, if probe and callback keep to their order. */
  function Follow(tr: seq<Happening>): Option<Progress> {
    if tr == [] then Some(Progress([], false)) else Lift(Follow(tr[..|tr| - 1]), tr[|tr| - 1])
  }

  /** The response to the request at position j. */
  function CodeAt(tr: seq<Happening>, j: nat): int
    requires j < |tr| && tr[j].Asked?
  {
    if Stored in tr[..j] then OK_STATUS else STARTING_STATUS
  }

  /** The responses, oldest first. */
  function Responses(tr: seq<Happening>): seq<int> {
    if tr == [] then []
    else
      var n := |tr| - 1;
      Responses(tr[..n]) + (if tr[n].Asked? then [CodeAt(tr, n)] else [])
  }

  /** The shared flag and the health handler, with everything that has happened so far. */
  class Flag {
    var ready: bool
    ghost var happenings: seq<Happening>
    ghost var responses: seq<int>

    ghost predicate Valid()
      reads this
    {
      ready == (Stored in happenings) && responses == Responses(happenings)
    }

    constructor ()
      ensures Valid() && happenings == []
    {
      ready, happenings, responses := false, [], [];
    }

    ghost method Note(check: Check)
      requires Valid()
      modifies this`happenings
      ensures Valid() && happenings == old(happenings) + [Probed(check)]
    {
      happenings := happenings + [Probed(check)];
      assert happenings[..|happenings| - 1] == old(happenings);
    }

    /** The probe's callback. */
    method StoreTrue()
      requires Valid()
      modifies this
      ensures Valid() && happenings == old(happenings) + [Stored]
    {
      ready := true;
      happenings := happenings + [Stored];
      assert happenings[..|happenings| - 1] == old(happenings);
    }

    /** The handler of the health endpoint. */
    method Health() returns (code: int)
      requires Valid()
      modifies this`happenings, this`responses
      ensures Valid() && happenings == old(happenings) + [Asked]
      ensures responses == old(responses) + [code]
      ensures code == if Stored in old(happenings) then 200 else 503
    {
      code := if ready then OK_STATUS else STARTING_STATUS;
      happenings, responses := happenings + [Asked], responses + [code];
      assert happenings[..|happenings| - 1] == old(happenings);
    }

    /** Any number of requests; they leave the probe's progress alone. */
    method Serve()
      requires Valid()
      modifies this`happenings, this`responses
      ensures Valid() && Follow(happenings) == old(Follow(happenings))
    {
      var n: int := *;
      if n < 0 {
        n := 0;
      }
      for i := 0 to n
        invariant Valid() && Follow(happenings) == old(Follow(happenings))
      {
        ghost var before := happenings;
        var _ := Health();
        FollowExtend(before, Asked);
      }
    }
  }

  lemma FollowExtend(tr: seq<Happening>, h: Happening)
    ensures Follow(tr + [h]) == Lift(Follow(tr), h)
  {
    assert (tr + [h])[..|tr|] == tr;
  }

  // ----------------------------------------------------------------- guarantees

  predicate VerifiedAt(tr: seq<Happening>, i: int) {
    0 <= i < |tr| && tr[i].Probed? && ReturnsNil(tr[i].check)
  }

  lemma {:induction false} FollowPrefix(tr: seq<Happening>, k: nat)
    requires Follow(tr).Some? && k <= |tr|
    ensures Follow(tr[..k]).Some?
  {
    if k == |tr| {
      assert tr[..k] == tr;
    } else {
      FollowPrefix(tr[..|tr| - 1], k);
      assert tr[..|tr| - 1][..k] == tr[..k];
    }
  }

  /** What the progress says about the happenings. */
  lemma {:induction false} ProgressMeans(tr: seq<Happening>)
    requires Follow(tr).Some?
    ensures Follow(tr).value.stored <==> Stored in tr
    ensures true in Follow(tr).value.results <==> exists i :: VerifiedAt(tr, i)
    ensures Follow(tr).value.stored ==> true in Follow(tr).value.results
  {
    if tr != [] {
      var n := |tr| - 1;
      var before := tr[..n];
      ProgressMeans(before);
      assert tr == before + [tr[n]];
      if i :| VerifiedAt(before, i) {
        assert VerifiedAt(tr, i);
      }
      if i :| VerifiedAt(tr, i) {
        assert i < n ==> VerifiedAt(before, i);
        assert i == n ==> tr[n].Probed?;
      }
      if tr[n].Probed? && ReturnsNil(tr[n].check) {
        assert VerifiedAt(tr, n);
      }
    }
  }

  /** Every request that gets a 200 comes after a check that returned nil, and so after both
      passive declares passed on one connection, the exchange before the queue. */
  lemma OkMeansVerified(tr: seq<Happening>, j: nat) returns (i: nat)
    requires Follow(tr).Some? && j < |tr| && tr[j].Asked? && CodeAt(tr, j) == OK_STATUS
    ensures i < j && VerifiedAt(tr, i)
    ensures Did(tr[i].check) == [PC.Dialled(true), PC.ChannelOpened(true), PC.ExchangeChecked(true),
                                 PC.QueueChecked(true), PC.ChannelClosed, PC.ConnClosed]
  {
    FollowPrefix(tr, j);
    ProgressMeans(tr[..j]);
    var k :| VerifiedAt(tr[..j], k);
    i := k;
    PC.NilMeansVerified(tr[i].check);
  }

  /** The callback is the first thing the probe does after a check that returned nil. */
  lemma CallbackComesNext(tr: seq<Happening>, i: nat, m: nat)
    requires Follow(tr).Some? && i < m < |tr| && VerifiedAt(tr, i) && !tr[m].Asked?
    ensures Stored in tr[..m + 1]
  {
    FollowPrefix(tr, m);
    FollowPrefix(tr, m + 1);
    FollowExtend(tr[..m], tr[m]);
    assert tr[..m + 1] == tr[..m] + [tr[m]];
    ProgressMeans(tr[..m]);
    assert VerifiedAt(tr[..m], i);
  }

  /** A check has returned nil and the probe has gone on since, all before position j. */
  ghost predicate WentOn(tr: seq<Happening>, j: nat)
    requires j <= |tr|
  {
    exists i, m :: 0 <= i < m < j && VerifiedAt(tr, i) && !tr[m].Asked?
  }

  lemma StoredAfterCheck(tr: seq<Happening>, m: nat) returns (i: nat)
    requires Follow(tr).Some? && m < |tr| && tr[m] == Stored
    ensures i < m && VerifiedAt(tr, i)
  {
    FollowPrefix(tr, m);
    FollowPrefix(tr, m + 1);
    FollowExtend(tr[..m], Stored);
    assert tr[..m + 1] == tr[..m] + [Stored];
    ProgressMeans(tr[..m]);
    var k :| VerifiedAt(tr[..m], k);
    i := k;
  }

  lemma StoredOnceOn(tr: seq<Happening>, j: nat)
    requires Follow(tr).Some? && j <= |tr| && WentOn(tr, j)
    ensures Stored in tr[..j]
  {
    var i, m :| 0 <= i < m < j && VerifiedAt(tr, i) && !tr[m].Asked?;
    CallbackComesNext(tr, i, m);
    var k :| 0 <= k < m + 1 && tr[..m + 1][k] == Stored;
    assert tr[..j][k] == Stored;
  }

  /** Every request gets one of two codes: 200 exactly when a check has returned nil and the
      probe has gone on since, the callback being the first thing it does. */
  lemma ReadyExactlyWhen(tr: seq<Happening>, j: nat)
    requires Follow(tr).Some? && j < |tr| && tr[j].Asked?
    ensures CodeAt(tr, j) == if WentOn(tr, j) then 200 else 503
  {
    if CodeAt(tr, j) == OK_STATUS {
      var m :| 0 <= m < j && tr[..j][m] == Stored;
      var i := StoredAfterCheck(tr, m);
      assert 0 <= i < m < j && VerifiedAt(tr, i) && !tr[m].Asked?;
    }
    if WentOn(tr, j) {
      StoredOnceOn(tr, j);
    }
  }

  /** Never 503 again after a 200. */
  predicate Sticky(rs: seq<int>) {
    forall i, j :: 0 <= i < j < |rs| && rs[i] == OK_STATUS ==> rs[j] == OK_STATUS
  }

  /** Readiness is sticky, and it is reached: once a check has returned nil and the callback
      has run every later request gets a 200. */
  lemma {:induction false} ReadinessIsSticky(tr: seq<Happening>)
    ensures Sticky(Responses(tr))
    ensures OK_STATUS in Responses(tr) ==> Stored in tr
    ensures forall m, j :: 0 <= m < j < |tr| && tr[m] == Stored && tr[j].Asked? ==> CodeAt(tr, j) == OK_STATUS
  {
    if tr != [] {
      var n := |tr| - 1;
      ReadinessIsSticky(tr[..n]);
      assert tr == tr[..n] + [tr[n]];
    }
    forall m, j | 0 <= m < j < |tr| && tr[m] == Stored && tr[j].Asked?
      ensures CodeAt(tr, j) == OK_STATUS
    {
      assert tr[..j][m] == Stored;
    }
  }
}
