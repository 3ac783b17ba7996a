// ReservationReaperService (src/reservation-reaper/reservation-reaper.service.ts): the sweep of requests whose
// time to live is over.
module ReservationReaper {
  import opened Entities
  import opened OutboxTable
  import opened Lifecycle
  import opened Machine
  import opened Invariant
  import opened RunLaws
  import opened Idempotency
  import opened TimeOffRequests
  import WorkDays

  predicate Overdue(r: Request, now: int) {
    (r.status == Pending || r.status == PendingSync) && r.expiresAt <= now
  }

  function OverdueIds(requests: seq<Request>, now: int): (ids: seq<nat>)
    ensures forall id: nat :: id in ids <==> id < |requests| && Overdue(requests[id], now)
  {
    if requests == [] then []
    else
      var n := |requests| - 1;
      OverdueIds(requests[..n], now) + if Overdue(requests[n], now) then [n] else []
  }

  function ExpireAll(t: Tables, ids: seq<nat>): (t': Tables)
    ensures |t'.requests| == |t.requests|
    decreases |ids|
  {
    if ids == [] then t else ExpireAll(Expire(t, ids[0]).0, ids[1..])
  }

  function Swept(t: Tables, now: int): (t': Tables)
    ensures |t'.requests| == |t.requests|
  {
    ExpireAll(t, OverdueIds(t.requests, now))
  }

  // Expiring a list of requests expires exactly those of them that are still PENDING or PENDING_SYNC.
  lemma {:induction false} ExpireAllSettles(t: Tables, ids: seq<nat>, j: nat)
    requires j < |t.requests|
    ensures var t' := ExpireAll(t, ids);
            t'.requests[j] == if j in ids && (t.requests[j].status == Pending || t.requests[j].status == PendingSync)
                                 then t.requests[j].(status := Expired) else t.requests[j]
    decreases |ids|
  {
    hide Floor, VoidQueuedFiles;
    if ids != [] {
      ExpireAllSettles(Expire(t, ids[0]).0, ids[1..], j);
      assert j in ids <==> j == ids[0] || j in ids[1..];
    }
  }

  // A sweep expires exactly the PENDING and PENDING_SYNC requests whose deadline has come, and leaves every other
  // request and every other column as it was.
  lemma SweepExpiresTheOverdue(t: Tables, now: int, j: nat)
    requires j < |t.requests|
    ensures var r := t.requests[j];
            Swept(t, now).requests[j] ==
              if (r.status == Pending || r.status == PendingSync) && r.expiresAt <= now
              then r.(status := Expired) else r
  {
    ExpireAllSettles(t, OverdueIds(t.requests, now), j);
  }

  function Later(s: State, sub: Submission, steps: seq<Step>): Tables {
    Run(Apply(s, SubmitStep(sub)), steps).t
  }

  // A request submitted at `sub.now` lives `ttl` long: whatever has happened to it since, a sweep before then
  // leaves it alone, and the first one from then on expires it if it is still PENDING or PENDING_SYNC.
  lemma SubmittedLivesItsTime(s: State, sub: Submission, steps: seq<Step>, now: int)
    requires Inv(s) && Warm(s.t, sub.key) && Free(s, sub.key)
    requires Submit(s.t, sub, s.config.ttl).1 == Accepted(|s.t.requests|)
    ensures var id := |s.t.requests|;
            var t' := Later(s, sub, steps);
            && id < |t'.requests|
            && (now < sub.now + s.config.ttl ==> Swept(t', now).requests[id] == t'.requests[id])
            && (sub.now + s.config.ttl <= now ==>
                  Swept(t', now).requests[id].status ==
                    if t'.requests[id].status == Pending || t'.requests[id].status == PendingSync then Expired
                    else t'.requests[id].status)
  {
    hide Inv, Apply, Run, Swept, Submit;
    var s1 := Apply(s, SubmitStep(sub));
    var id := |s.t.requests|;
    SubmittedIsStored(s, sub);
    StepKeepsInv(s, SubmitStep(sub));
    RunSettles(s1, steps, id);
    SweepExpiresTheOverdue(Run(s1, steps).t, now, id);
  }

  lemma SubmittedIsStored(s: State, sub: Submission)
    requires Inv(s) && Warm(s.t, sub.key) && Free(s, sub.key)
    requires Submit(s.t, sub, s.config.ttl).1 == Accepted(|s.t.requests|)
    ensures var t' := Apply(s, SubmitStep(sub)).t;
            |t'.requests| == |s.t.requests| + 1 && t'.requests[|s.t.requests|].expiresAt == sub.now + s.config.ttl
  {
    hide Inv, Submit, Screen, WorkDays.WorkingDays;
    InvHasKeys(s);
    SubmitStepIs(s, sub);
    SubmitCreatesIff(s.t, sub, s.config.ttl);
  }

  // A sweep is a run of expire steps, so every law about runs holds across it.
  lemma {:induction false} SweepIsARun(s: State, ids: seq<nat>) returns (steps: seq<Step>)
    requires s.sections == map[]
    ensures Run(s, steps) == s.(t := ExpireAll(s.t, ids))
    ensures |steps| == |ids| && forall n :: 0 <= n < |ids| ==> steps[n] == ExpireStep(ids[n])
    decreases |ids|
  {
    hide Expire;
    if ids == [] {
      steps := [];
    } else {
      var first := ExpireStep(ids[0]);
      ExpireStepIs(s, ids[0]);
      hide Apply;
      var rest := SweepIsARun(Apply(s, first), ids[1..]);
      steps := [first] + rest;
      assert steps[1..] == rest;
    }
  }

  lemma ExpireStepIs(s: State, id: nat)
    requires s.sections == map[]
    ensures Apply(s, ExpireStep(id)) == s.(t := Expire(s.t, id).0)
  {
    hide ReleaseAs, RestoreAs, VoidFiles;
  }

  // No FILE row of an expired request is left for the dispatcher.
  lemma {:induction false} ExpiredFilesAreVoided(t: Tables, ids: seq<nat>, o: nat)
    requires o < |t.outbox|
    ensures var t' := ExpireAll(t, ids);
            && |t'.outbox| == |t.outbox|
            && t'.outbox[o] == if t.outbox[o].aggregateId in ids && t.outbox[o].aggregateId < |t.requests|
                                  && (t.requests[t.outbox[o].aggregateId].status == Pending
                                      || t.requests[t.outbox[o].aggregateId].status == PendingSync)
                               then VoidRow(t.outbox[o], t.outbox[o].aggregateId) else t.outbox[o]
    decreases |ids|
  {
    hide Floor, Lifecycle.Release, Lifecycle.Restore, RowAt;
    if ids != [] {
      var i := t.outbox[o].aggregateId;
      var t1 := Expire(t, ids[0]).0;
      ExpiredFilesAreVoided(t1, ids[1..], o);
      assert i in ids <==> i == ids[0] || i in ids[1..];
    }
  }

  class ReservationReaperService {
    const requests: TimeOffRequestService

    constructor (requests: TimeOffRequestService)
      ensures this.requests == requests
    {
      this.requests := requests;
    }

    method Sweep(now: int)
      requires requests.Valid()
      modifies requests.db
      ensures requests.db.Contents() == Swept(old(requests.db.Contents()), now)
      ensures forall j :: 0 <= j < |old(requests.db.requests)| ==>
                var r := old(requests.db.requests)[j];
                requests.db.requests[j] ==
                  if (r.status == Pending || r.status == PendingSync) && r.expiresAt <= now
                  then r.(status := Expired) else r
    {
      hide Expire;
      ghost var before := requests.db.Contents();
      var expired := OverdueIds(requests.db.requests, now);
      for i := 0 to |expired|
        invariant ExpireAll(requests.db.Contents(), expired[i..]) == ExpireAll(old(requests.db.Contents()), expired)
      {
        // A refusal is logged and does not end the sweep.
        var _ := requests.Expire(expired[i]);
        assert expired[i..][1..] == expired[i + 1..];
      }
      forall j | 0 <= j < |before.requests|
        ensures var r := before.requests[j];
                Swept(before, now).requests[j] ==
                  if (r.status == Pending || r.status == PendingSync) && r.expiresAt <= now
                  then r.(status := Expired) else r
      {
        SweepExpiresTheOverdue(before, now, j);
      }
    }
  }
}
