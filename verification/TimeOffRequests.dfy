// TimeOffRequestService (src/time-off-request/time-off-request.service.ts) on the tables. Each method is a run
// of the state machine from rest to rest: the pre-warming read, then the steps of its critical section.
module TimeOffRequests {
  import opened Entities
  import opened OutboxTable
  import opened WorkDays
  import MockHcm
  import opened Lifecycle
  import opened Machine
  import opened Database
  import opened Balances
  import opened Outcomes

  // `Blocked` is a submit that waits for the lock it holds.
  datatype Submitted = Answer(reply: Reply) | Blocked

  // getBalance before the lock is taken, for the methods that are given a request id.
  function Prewarmed(s: State, id: nat, prewarm: Refresh): State {
    if id < |s.t.requests| then Read(s, s.t.requests[id].key, prewarm) else s
  }

  function ApprovedFrom(s: State, id: nat, now: int, today: int, prewarm: Refresh, refresh: Refresh): State {
    var s1 := Apply(Prewarmed(s, id, prewarm), ApproveStep(id, now, today, refresh));
    if id < |s.t.requests| then Apply(s1, DecideStep(s.t.requests[id].key, now)) else s1
  }

  lemma ApprovedFromLeaves(s: State, id: nat, now: int, today: int, prewarm: Refresh, refresh: Refresh)
    requires s.sections == map[] && id < |s.t.requests|
    ensures var hcmDays := HcmDays(s.hcm, s.t.requests[id].key);
            var (t, t') := (AfterRead(s.t, s.t.requests[id].key, prewarm, hcmDays),
                            ApprovedFrom(s, id, now, today, prewarm, refresh).t);
            if s.t.requests[id].status == Pending then ApproveLeaves(t, t', id, now, today, refresh, hcmDays)
            else t' == t
  {
    hide DoApprove, DoDecide, ApproveLeaves, Read, Apply, AfterRead;
    var k := s.t.requests[id].key;
    ReadOutcome(s, k, prewarm);
    ReadKeepsRequests(s, k, prewarm);
    var s1 := Read(s, k, prewarm);
    ApproveStepIs(s1, id, now, today, refresh);
    DecideStepIs(DoApprove(s1, id, now, today, refresh), k, now);
    if s.t.requests[id].status == Pending {
      ApproveOutcome(s1, id, now, today, refresh);
    } else {
      NotPendingOutcome(s1, id, now, today, refresh);
    }
  }

  lemma ReadKeepsRequests(s: State, k: BalanceKey, refresh: Refresh)
    ensures Read(s, k, refresh).t.requests == s.t.requests
  {
  }

  class TimeOffRequestService {
    const db: Database
    const client: HcmGateway
    const balances: BalanceService

    constructor (balances: BalanceService)
      requires balances.lazyLoad
      ensures this.balances == balances && Valid()
    {
      this.balances, db, client := balances, balances.db, balances.client;
    }

    // Lazy loading is the default configuration.
    predicate Valid() {
      db == balances.db && client == balances.client && balances.lazyLoad
    }

    method BuildOutboxRow(id: nat, r: Request, op: Operation) returns (row: OutboxRow)
      ensures row == BuildRow(id, r, op)
    {
      var command := Command(r.key, r.days, r.startDay, r.endDay, HcmKey(id, op));
      row := OutboxRow(id, op, command, Queued, 0);
    }

    method VoidPendingFileRows(id: nat)
      modifies db`outbox
      ensures db.outbox == VoidQueuedFiles(old(db.outbox), id)
    {
      var o := 0;
      while o < |db.outbox|
        invariant 0 <= o <= |db.outbox| == |old(db.outbox)|
        invariant forall p :: 0 <= p < o ==> db.outbox[p] == VoidRow(old(db.outbox)[p], id)
        invariant forall p :: o <= p < |db.outbox| ==> db.outbox[p] == old(db.outbox)[p]
      {
        var row := db.outbox[o];
        if row.aggregateId == id && row.operation == File && row.status == Queued {
          db.outbox := db.outbox[o := row.(status := Voided)];
        }
        o := o + 1;
      }
      assert db.outbox == VoidQueuedFiles(old(db.outbox), id);
    }

    method Save(id: nat, r: Request)
      requires id < |db.requests|
      modifies db`requests
      ensures db.requests == old(db.requests)[id := r]
    {
      db.requests := db.requests[id := r];
    }

    method Submit(sub: Submission, prewarm: Refresh) returns (r: Submitted)
      requires Valid()
      modifies db, client
      ensures var s1 := Read(old(balances.State()), sub.key, prewarm);
              var (reply, s2) := (Lifecycle.Submit(s1.t, sub, balances.ttl).1, Apply(s1, SubmitStep(sub)));
              if SubmitBlocksItself(s1, sub) then r == Blocked && balances.State() == s1
              else r == Answer(reply) && balances.State() == s2
    {
      hide WorkingDays, AnyClash, MockHcm.BalanceAt, MockHcm.Provision, RetiredKey;
      var _, _ := balances.GetBalance(sub.key, prewarm);
      var existing := FindByKey(db.requests, sub.idempotencyKey);
      if existing.Some? {
        var holder := db.requests[existing.value];
        if holder.status.Active() {
          if holder.key == sub.key && holder.startDay == sub.startDay && holder.endDay == sub.endDay {
            return Answer(Accepted(existing.value));
          }
          return Answer(Refused(KeyReuse));
        }
      }
      if AnyClash(db.requests, sub.key, sub.startDay, sub.endDay) {
        return Answer(Refused(Overlap));
      }
      if sub.endDay < sub.startDay {
        return Answer(Refused(InvalidRange));
      }
      var days := WorkingDays(sub.startDay, sub.endDay + 1, {});
      if days == 0 {
        return Answer(Refused(NoBusinessDays));
      }
      if sub.endDay < sub.today {
        return Answer(Refused(PastRange));
      }
      if sub.key !in db.balances || db.balances[sub.key].lastHcmAsOf.None? {
        return Blocked;
      }
      var row := db.balances[sub.key];
      if row.available - row.reserved < days {
        return Answer(Refused(Insufficient));
      }
      var id := |db.requests|;
      var ok := CreateAndReserve(sub, existing, days);
      r := Answer(if ok then Accepted(id) else Refused(UniqueViolation));
    }

    // The transaction of submit. False is a violation of UNIQUE(idempotencyKey), which rolls it back.
    method CreateAndReserve(sub: Submission, existing: Option<nat>, days: nat) returns (ok: bool)
      requires Valid() && Covers(RowAt(db.balances, sub.key), days)
      requires existing.Some? ==> existing.value < |db.requests| && db.requests[existing.value].status.Terminal()
      modifies db
      ensures (db.Contents(), if ok then Accepted(|old(db.requests)|) else Refused(UniqueViolation))
           == Admit(old(db.Contents()), sub, existing, days, balances.ttl)
    {
      hide RetiredKey;
      var before := db.requests;
      if existing.Some? {
        var retired := RetiredKey(db.requests[existing.value].idempotencyKey, existing.value);
        if FindByKey(db.requests, retired).Some? {
          return false;
        }
        Save(existing.value, db.requests[existing.value].(idempotencyKey := retired));
      }
      if FindByKey(db.requests, sub.idempotencyKey).Some? {
        db.requests := before;
        return false;
      }
      var expiresAt := sub.now + balances.ttl;
      db.requests := db.requests
        + [Request(sub.key, sub.startDay, sub.endDay, days, Pending, sub.idempotencyKey, expiresAt, None, None)];
      ok := balances.Reserve(sub.key, days);
    }

    method Approve(id: nat, now: int, today: int, prewarm: Refresh, refresh: Refresh) returns (reply: Reply)
      requires Valid()
      modifies db, client
      ensures balances.State() == ApprovedFrom(old(balances.State()), id, now, today, prewarm, refresh)
      ensures reply ==
                if id >= |old(db.requests)| then Refused(NotFound)
                else if old(db.requests)[id].status == Pending then Accepted(id)
                else Refused(WrongStatus(old(db.requests)[id].status))
      ensures id < |old(db.requests)| ==>
                var k := old(db.requests)[id].key;
                var hcmDays := HcmDays(old(client.hcm), k);
                var t := AfterRead(old(db.Contents()), k, prewarm, hcmDays);
                if old(db.requests)[id].status == Pending
                then ApproveLeaves(t, db.Contents(), id, now, today, refresh, hcmDays)
                else db.Contents() == t
    {
      hide DoApprove, DoDecide, ApproveLeaves, AfterRead;
      if id >= |db.requests| {
        LockedSteps(balances.State(), id, now, today, refresh);
        return Refused(NotFound);
      }
      ApprovedFromLeaves(balances.State(), id, now, today, prewarm, refresh);
      var _, _ := balances.GetBalance(db.requests[id].key, prewarm);
      LockedSteps(balances.State(), id, now, today, refresh);
      reply := ApproveUnderLock(id, now, today, refresh);
    }

    lemma LockedSteps(s: State, id: nat, now: int, today: int, refresh: Refresh)
      ensures Apply(s, ApproveStep(id, now, today, refresh)) == DoApprove(s, id, now, today, refresh)
      ensures id >= |s.t.requests| ==> DoApprove(s, id, now, today, refresh) == s
    {
    }

    method ApproveUnderLock(id: nat, now: int, today: int, refresh: Refresh) returns (reply: Reply)
      requires Valid() && id < |db.requests|
      modifies db, client
      ensures balances.State() ==
          DoDecide(DoApprove(old(balances.State()), id, now, today, refresh), old(db.requests)[id].key, now)
      ensures reply == if old(db.requests)[id].status == Pending then Accepted(id)
          else Refused(WrongStatus(old(db.requests)[id].status))
    {
      hide CommitForSync, MockHcm.Provision, MockHcm.BalanceAt;
      var req := db.requests[id];
      if req.status != Pending {
        return Refused(WrongStatus(req.status));
      }
      if req.startDay < today {
        balances.Release(req.key, req.days);
        Save(id, req.(status := Rejected));
        return Accepted(id);
      }
      var snapshot := client.GetBalance(req.key, refresh);
      if snapshot.Some? {
        balances.ApplyHcmSnapshot(req.key, snapshot.value.0, snapshot.value.1);
        var balance, _ := balances.GetBalance(req.key, Unreachable);
        var free := balance.available - balance.reserved;
        if free < req.days {
          balances.Release(req.key, req.days);
          Save(id, req.(status := Rejected));
          return Accepted(id);
        }
      }
      CommitAndFile(id, req, now);
      reply := Accepted(id);
    }

    // The transaction of approve.
    method CommitAndFile(id: nat, held: Request, now: int)
      requires Valid() && id < |db.requests|
      modifies db
      ensures db.Contents() == CommitForSync(old(db.Contents()), id, held, now)
    {
      balances.Commit(held.key, held.days);
      var req := held.(committedAt := Some(now));
      req := req.(status := PendingSync);
      var row := BuildOutboxRow(id, req, File);
      db.outbox := db.outbox + [row];
      Save(id, req);
    }

    method Reject(id: nat, prewarm: Refresh) returns (reply: Reply)
      requires Valid()
      modifies db, client
      ensures var s1 := Prewarmed(old(balances.State()), id, prewarm);
              balances.State() == Apply(s1, RejectStep(id)) && reply == Lifecycle.Reject(s1.t, id).1
      ensures id < |old(db.requests)| ==>
                var k := old(db.requests)[id].key;
                var t := AfterRead(old(db.Contents()), k, prewarm, HcmDays(old(client.hcm), k));
                (db.Contents(), reply) == Lifecycle.Reject(t, id)
    {
      hide ReleaseAs, RestoreAs, AfterRead, MockHcm.Provision, MockHcm.BalanceAt;
      if id < |db.requests| {
        ReadOutcome(balances.State(), db.requests[id].key, prewarm);
        var _, _ := balances.GetBalance(db.requests[id].key, prewarm);
      }
      reply := RejectUnderLock(id);
    }

    method RejectUnderLock(id: nat) returns (reply: Reply)
      requires Valid()
      modifies db
      ensures (db.Contents(), reply) == Lifecycle.Reject(old(db.Contents()), id)
    {
      hide VoidQueuedFiles;
      if id >= |db.requests| {
        return Refused(NotFound);
      }
      var req := db.requests[id];
      if req.status != Pending && req.status != PendingSync {
        return Refused(WrongStatus(req.status));
      }
      if req.status == Pending {
        balances.Release(req.key, req.days);
      } else {
        balances.Restore(req.key, req.days);
        VoidPendingFileRows(id);
      }
      Save(id, req.(status := Rejected));
      reply := Accepted(id);
    }

    method Cancel(id: nat, prewarm: Refresh) returns (reply: Reply)
      requires Valid()
      modifies db, client
      ensures var s1 := Prewarmed(old(balances.State()), id, prewarm);
              balances.State() == Apply(s1, CancelStep(id)) && reply == Lifecycle.Cancel(s1.t, id).1
      ensures id < |old(db.requests)| ==>
                var k := old(db.requests)[id].key;
                var t := AfterRead(old(db.Contents()), k, prewarm, HcmDays(old(client.hcm), k));
                (db.Contents(), reply) == Lifecycle.Cancel(t, id)
    {
      hide ReleaseAs, RestoreAs, RestoreAndReverse, VoidFiles, FileSent, AfterRead, MockHcm.Provision,
        MockHcm.BalanceAt;
      if id < |db.requests| {
        ReadOutcome(balances.State(), db.requests[id].key, prewarm);
        var _, _ := balances.GetBalance(db.requests[id].key, prewarm);
      }
      reply := CancelUnderLock(id);
    }

    method CancelUnderLock(id: nat) returns (reply: Reply)
      requires Valid()
      modifies db
      ensures (db.Contents(), reply) == Lifecycle.Cancel(old(db.Contents()), id)
    {
      hide VoidQueuedFiles, FileSent;
      if id >= |db.requests| {
        return Refused(NotFound);
      }
      var req := db.requests[id];
      if req.status == Cancelled {
        return Accepted(id);
      }
      if req.status != Pending && req.status != PendingSync && req.status != Approved {
        return Refused(WrongStatus(req.status));
      }
      if req.status == Pending {
        VoidPendingFileRows(id);
        balances.Release(req.key, req.days);
      } else if req.status == PendingSync {
        var fileSent := FindFileSent(id);
        if !fileSent {
          VoidPendingFileRows(id);
          balances.Restore(req.key, req.days);
        } else {
          RestoreAndEnqueueReverse(id, req);
        }
      } else {
        RestoreAndEnqueueReverse(id, req);
      }
      Save(id, req.(status := Cancelled));
      reply := Accepted(id);
    }

    method RestoreAndEnqueueReverse(id: nat, req: Request)
      requires Valid()
      modifies db`balances, db`outbox
      ensures db.balances == old(db.balances)[req.key := Lifecycle.Restore(RowAt(old(db.balances), req.key), req.days)]
      ensures db.outbox == old(db.outbox) + [BuildRow(id, req, Reverse)]
    {
      balances.Restore(req.key, req.days);
      var row := BuildOutboxRow(id, req, Reverse);
      db.outbox := db.outbox + [row];
    }

    // findOne of the FILE row, and whether it is SENT
    method FindFileSent(id: nat) returns (sent: bool)
      ensures sent <==> FileSent(db.outbox, id)
    {
      var o := 0;
      while o < |db.outbox|
        invariant 0 <= o <= |db.outbox|
        invariant forall p :: 0 <= p < o ==> db.outbox[p].aggregateId != id || db.outbox[p].operation != File
      {
        if db.outbox[o].aggregateId == id && db.outbox[o].operation == File {
          return db.outbox[o].status == Sent;
        }
        o := o + 1;
      }
      sent := false;
    }

    // Called by the reaper, which holds the lock.
    method Expire(id: nat) returns (reply: Reply)
      requires Valid()
      modifies db
      ensures (db.Contents(), reply) == Lifecycle.Expire(old(db.Contents()), id)
    {
      hide VoidQueuedFiles;
      if id >= |db.requests| {
        return Refused(NotFound);
      }
      var req := db.requests[id];
      if req.status != Pending && req.status != PendingSync {
        return Refused(WrongStatus(req.status));
      }
      if req.status == Pending {
        balances.Release(req.key, req.days);
        VoidPendingFileRows(id);
      } else {
        balances.Restore(req.key, req.days);
        VoidPendingFileRows(id);
      }
      Save(id, req.(status := Expired));
      reply := Accepted(id);
    }
  }
}
