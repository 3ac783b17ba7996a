// What one call leaves behind, column by column: the request, the outbox rows, the figures of the balance, and what
// the caller is told.
module Outcomes {
  import opened Entities
  import opened OutboxTable
  import MockHcm
  import opened Lifecycle
  import opened Machine
  import opened Automaton
  import opened Refinement
  import opened Invariant
  import opened DispatchOrder
  import opened Idempotency
  import HcmClient
  import WorkDays

  // `reserved` less the days, never below zero.
  function Clipped(reserved: int, days: nat): int {
    if reserved >= days then reserved - days else 0
  }

  // ---- Reading a balance --------------------------------------------------------------------------------------

  function HcmDays(h: MockHcm.Hcm, k: BalanceKey): int {
    if k in h.balances then h.balances[k] else 0
  }

  // The tables after a getBalance: a row that was never read takes HCM's figure, if HCM can be reached.
  function AfterRead(t: Tables, k: BalanceKey, refresh: Refresh, hcmDays: int): Tables {
    if refresh.Unreachable? || (k in t.balances && t.balances[k].lastHcmAsOf.Some?) then t
    else
      var b := if k in t.balances then t.balances[k] else Balance(0, 0, false, None);
      t.(balances := t.balances[k := b.(available := hcmDays, lastHcmAsOf := Some(refresh.asOf))])
  }

  lemma ReadOutcome(s: State, k: BalanceKey, refresh: Refresh)
    requires Free(s, k)
    ensures Read(s, k, refresh).t == AfterRead(s.t, k, refresh, HcmDays(s.hcm, k))
    ensures Read(s, k, refresh).hcm ==
              if refresh.Unreachable? || (k in s.t.balances && s.t.balances[k].lastHcmAsOf.Some?) then s.hcm
              else s.hcm.(balances := s.hcm.balances[k := HcmDays(s.hcm, k)])
    ensures Read(s, k, refresh).sections == s.sections
  {
  }

  // ---- Approve ------------------------------------------------------------------------------------------------

  // The request is rejected and its reservation dropped; `b` is the row of its balance.
  ghost predicate Dropped(t: Tables, t': Tables, id: nat, b: Balance, to: RequestStatus) {
    && id < |t.requests|
    && var r := t.requests[id];
       && t'.requests == t.requests[id := r.(status := to)]
       && t'.balances == t.balances[r.key := b.(reserved := Clipped(b.reserved, r.days))]
       && t'.outbox == t.outbox && t'.events == t.events && t'.batchLog == t.batchLog
  }

  // Its days are committed and one FILE row with its data is queued.
  ghost predicate Filed(t: Tables, t': Tables, id: nat, b: Balance, now: int) {
    && id < |t.requests|
    && var r := t.requests[id];
       && t'.requests == t.requests[id := r.(status := PendingSync, committedAt := Some(now))]
       && t'.balances == t.balances[r.key := b.(available := b.available - r.days,
                                                reserved := Clipped(b.reserved, r.days))]
       && t'.outbox == t.outbox + [OutboxRow(id, File, Command(r.key, r.days, r.startDay, r.endDay, HcmKey(id, File)),
                                             Queued, 0)]
       && t'.events == t.events && t'.batchLog == t.batchLog
  }

  // Approving the PENDING request `id`, with HCM's figure `hcmDays` if HCM can be reached: a start in the past is
  // rejected without asking HCM; without HCM the days are committed as they are; HCM's figure replaces `available`
  // and decides.
  ghost predicate ApproveLeaves(t: Tables, t': Tables, id: nat, now: int, today: int, refresh: Refresh, hcmDays: int) {
    && id < |t.requests|
    && var r := t.requests[id];
       var b := if r.key in t.balances then t.balances[r.key] else Balance(0, 0, false, None);
       if r.startDay < today then Dropped(t, t', id, b, Rejected)
       else
         match refresh
         case Unreachable => Filed(t, t', id, b, now)
         case Reached(asOf) =>
           var seen := b.(available := hcmDays, lastHcmAsOf := Some(asOf));
           if hcmDays - b.reserved >= r.days then Filed(t, t', id, seen, now) else Dropped(t, t', id, seen, Rejected)
  }

  predicate Approvable(s: State, id: nat) {
    id < |s.t.requests| && s.t.requests[id].status == Pending && Free(s, s.t.requests[id].key)
  }

  lemma PastOutcome(s: State, id: nat, now: int, today: int, refresh: Refresh, hcmDays: int)
    requires Approvable(s, id) && s.t.requests[id].startDay < today
    ensures var s' := DoApprove(s, id, now, today, refresh);
            ApproveLeaves(s.t, s'.t, id, now, today, refresh, hcmDays) && s' == s.(t := s'.t)
  {
  }

  lemma OfflineOutcome(s: State, id: nat, now: int, today: int, hcmDays: int)
    requires Approvable(s, id) && s.t.requests[id].startDay >= today
    ensures var s' := DoApprove(s, id, now, today, Unreachable);
            ApproveLeaves(s.t, s'.t, id, now, today, Unreachable, hcmDays) && s' == s.(t := s'.t)
  {
  }

  // The decision of an approve that has refreshed, under the figures it finds.
  lemma DecideOutcome(s: State, k: BalanceKey, now: int)
    requires k in s.sections && s.sections[k].Refreshed? && k in s.t.balances
    requires var Refreshed(id, held) := s.sections[k];
             id < |s.t.requests| && held == s.t.requests[id] && held.key == k
    ensures var (id, b, s') := (s.sections[k].id, s.t.balances[k], DoDecide(s, k, now));
            && (if b.available - b.reserved >= s.t.requests[id].days then Filed(s.t, s'.t, id, b, now)
                else Dropped(s.t, s'.t, id, b, Rejected))
            && s' == s.(t := s'.t, sections := s.sections - {k})
  {
  }

  lemma RefreshedOutcome(s: State, id: nat, now: int, today: int, asOf: int)
    requires Approvable(s, id) && s.t.requests[id].startDay >= today
    ensures var (k, s') := (s.t.requests[id].key, DoApprove(s, id, now, today, Reached(asOf)));
            var b := if k in s.t.balances then s.t.balances[k] else Balance(0, 0, false, None);
            && s'.t == s.t.(balances := s.t.balances[k := b.(available := HcmDays(s.hcm, k),
                                                             lastHcmAsOf := Some(asOf))])
            && s'.sections == s.sections[k := Refreshed(id, s.t.requests[id])]
  {
  }

  // What was done to tables with the fresh figure is done to the tables before it.
  lemma FiledUnder(t: Tables, t1: Tables, t': Tables, id: nat, b: Balance, now: int)
    requires id < |t.requests| && Filed(t1, t', id, b, now)
    requires t1 == t.(balances := t.balances[t.requests[id].key := b])
    ensures Filed(t, t', id, b, now)
  {
  }

  lemma DroppedUnder(t: Tables, t1: Tables, t': Tables, id: nat, b: Balance)
    requires id < |t.requests| && Dropped(t1, t', id, b, Rejected)
    requires t1 == t.(balances := t.balances[t.requests[id].key := b])
    ensures Dropped(t, t', id, b, Rejected)
  {
  }

  lemma OnlineOutcome(s: State, id: nat, now: int, today: int, asOf: int)
    requires Approvable(s, id) && s.t.requests[id].startDay >= today
    ensures var k := s.t.requests[id].key;
            var s' := DoDecide(DoApprove(s, id, now, today, Reached(asOf)), k, now);
            && ApproveLeaves(s.t, s'.t, id, now, today, Reached(asOf), HcmDays(s.hcm, k))
            && s'.sections == s.sections
  {
    RefreshedOutcome(s, id, now, today, asOf);
    hide DoApprove, DoDecide, Filed, Dropped;
    var k := s.t.requests[id].key;
    var s1 := DoApprove(s, id, now, today, Reached(asOf));
    DecideOutcome(s1, k, now);
    var (t', b) := (DoDecide(s1, k, now).t, s1.t.balances[k]);
    if b.available - b.reserved >= s.t.requests[id].days {
      FiledUnder(s.t, s1.t, t', id, b, now);
    } else {
      DroppedUnder(s.t, s1.t, t', id, b);
    }
    assert s1.sections - {k} == s.sections;
  }

  // The whole of approve, given what HCM says, from any state in which the lock is free.
  lemma ApproveOutcome(s: State, id: nat, now: int, today: int, refresh: Refresh)
    requires Approvable(s, id)
    ensures var k := s.t.requests[id].key;
            var s' := DoDecide(DoApprove(s, id, now, today, refresh), k, now);
            && ApproveLeaves(s.t, s'.t, id, now, today, refresh, HcmDays(s.hcm, k))
            && s'.sections == s.sections
  {
    hide DoApprove, ApproveLeaves;
    var k := s.t.requests[id].key;
    var hcmDays := HcmDays(s.hcm, k);
    if s.t.requests[id].startDay < today {
      PastOutcome(s, id, now, today, refresh, hcmDays);
    } else {
      match refresh
      case Unreachable => OfflineOutcome(s, id, now, today, hcmDays);
      case Reached(asOf) => OnlineOutcome(s, id, now, today, asOf);
    }
  }

  lemma NotPendingOutcome(s: State, id: nat, now: int, today: int, refresh: Refresh)
    requires id < |s.t.requests| && s.t.requests[id].status != Pending && Free(s, s.t.requests[id].key)
    ensures DoDecide(DoApprove(s, id, now, today, refresh), s.t.requests[id].key, now) == s
  {
  }

  // The approve step in a reachable state: a start in the past ends in REJECTED with `available` and the outbox as
  // they were and the days out of `reserved`; an HCM that cannot be reached means PENDING_SYNC, the days out of
  // both figures and one FILE row; otherwise the request waits for the decision under HCM's figure.
  lemma ApproveStepOutcome(s: State, id: nat, now: int, today: int, refresh: Refresh)
    requires Inv(s) && Approvable(s, id)
    ensures var (r, s') := (s.t.requests[id], Apply(s, ApproveStep(id, now, today, refresh)));
            && r.key in s.t.balances
            && var b := s.t.balances[r.key];
            && (r.startDay < today ==>
                  && s' == s.(t := s'.t) && s'.t.outbox == s.t.outbox
                  && s'.t.requests == s.t.requests[id := r.(status := Rejected)]
                  && s'.t.balances == s.t.balances[r.key := b.(reserved := b.reserved - r.days)])
            && (r.startDay >= today && refresh.Unreachable? ==>
                  && s' == s.(t := s'.t)
                  && s'.t.requests == s.t.requests[id := r.(status := PendingSync, committedAt := Some(now))]
                  && s'.t.balances == s.t.balances[r.key := b.(available := b.available - r.days,
                                                               reserved := b.reserved - r.days)]
                  && s'.t.outbox == s.t.outbox
                     + [OutboxRow(id, File, Command(r.key, r.days, r.startDay, r.endDay, HcmKey(id, File)), Queued, 0)])
            && (r.startDay >= today && refresh.Reached? ==>
                  && s'.t.requests == s.t.requests && s'.t.outbox == s.t.outbox
                  && r.key in s'.sections && s'.sections[r.key] == Refreshed(id, r)
                  && r.key in s'.t.balances
                  && s'.t.balances[r.key].available == HcmDays(s.hcm, r.key)
                  && s'.t.balances[r.key].lastHcmAsOf == Some(refresh.asOf))
  {
    hide RequestsOk, RowsOk, HcmKeysOk, LandedOk, BooksOk, KeysOk, SectionsOk;
    PendingIsReserved(s, id);
    ApproveStepIs(s, id, now, today, refresh);
    assert Warm(s.t, s.t.requests[id].key);
    hide Apply, DoApprove, Inv;
    if s.t.requests[id].startDay < today {
      PastOutcome(s, id, now, today, refresh, 0);
    } else {
      match refresh
      case Unreachable => OfflineOutcome(s, id, now, today, 0);
      case Reached(asOf) => RefreshedOutcome(s, id, now, today, asOf);
    }
  }

  // ---- Reject, cancel, expire ---------------------------------------------------------------------------------

  // The reservation of a PENDING request is dropped; it has no outbox row.
  ghost predicate Releases(t: Tables, t': Tables, id: nat, to: RequestStatus) {
    && id < |t.requests| && t.requests[id].key in t.balances
    && var (r, b) := (t.requests[id], t.balances[t.requests[id].key]);
       t' == t.(requests := t.requests[id := r.(status := to)],
                balances := t.balances[r.key := b.(reserved := b.reserved - r.days)])
  }

  // The days of a PENDING_SYNC request are available again and its one FILE row is voided.
  ghost predicate GivesBack(t: Tables, t': Tables, id: nat, to: RequestStatus) {
    && id < |t.requests| && t.requests[id].key in t.balances
    && var (r, b) := (t.requests[id], t.balances[t.requests[id].key]);
       exists o ::
         && 0 <= o < |t.outbox|
         && t.outbox[o].aggregateId == id && t.outbox[o].operation == File && t.outbox[o].status == Queued
         && t' == t.(requests := t.requests[id := r.(status := to)],
                     balances := t.balances[r.key := b.(available := b.available + r.days)],
                     outbox := t.outbox[o := t.outbox[o].(status := Voided)])
  }

  // The days of an APPROVED request are available again and HCM is to give them back as well.
  ghost predicate TakesBack(t: Tables, t': Tables, id: nat) {
    && id < |t.requests| && t.requests[id].key in t.balances
    && var (r, b) := (t.requests[id], t.balances[t.requests[id].key]);
       t' == t.(requests := t.requests[id := r.(status := Cancelled)],
                balances := t.balances[r.key := b.(available := b.available + r.days)],
                outbox := t.outbox + [OutboxRow(id, Reverse, Command(r.key, r.days, r.startDay, r.endDay,
                                                                     HcmKey(id, Reverse)), Queued, 0)])
  }

  lemma PendingHasNoRows(s: State, id: nat)
    requires Inv(s) && id < |s.t.requests| && s.t.requests[id].status == Pending
    ensures VoidQueuedFiles(s.t.outbox, id) == s.t.outbox
  {
    hide BooksOk, WarmOk, LandedOk, SectionsOk, HcmKeysOk;
    assert Coupled(ViewOf(s, id), id);
    NothingToVoid(s.t.outbox, id);
  }

  lemma VoidsItsFile(s: State, id: nat) returns (o: nat)
    requires Inv(s) && id < |s.t.requests| && s.t.requests[id].status == PendingSync
    ensures o < |s.t.outbox|
    ensures s.t.outbox[o].aggregateId == id && s.t.outbox[o].operation == File && s.t.outbox[o].status == Queued
    ensures VoidQueuedFiles(s.t.outbox, id) == s.t.outbox[o := s.t.outbox[o].(status := Voided)]
  {
    hide BooksOk, WarmOk, LandedOk, SectionsOk, HcmKeysOk;
    assert Coupled(ViewOf(s, id), id);
    o := ListedRowIsStored(s.t.outbox, id, 0);
    forall p | 0 <= p < |s.t.outbox| && p != o ensures s.t.outbox[p].aggregateId != id {
      QueuedFileIsAlone(s, o, p);
    }
  }

  lemma Books(s: State, id: nat)
    requires Inv(s) && id < |s.t.requests|
    ensures s.t.requests[id].key in s.t.balances
    ensures s.t.requests[id].status == Pending ==>
              s.t.balances[s.t.requests[id].key].reserved >= s.t.requests[id].days
  {
    hide RequestsOk, RowsOk, HcmKeysOk, LandedOk, BooksOk, KeysOk, SectionsOk;
    assert Warm(s.t, s.t.requests[id].key);
    if s.t.requests[id].status == Pending {
      PendingIsReserved(s, id);
    }
  }

  // Reject and expire: what each status leads to, and what the caller is told.
  lemma RejectOutcome(s: State, id: nat)
    requires Inv(s)
    ensures var (t', reply) := Reject(s.t, id);
            if id >= |s.t.requests| then t' == s.t && reply == Refused(NotFound)
            else
              match s.t.requests[id].status
              case Pending => Releases(s.t, t', id, Rejected) && reply == Accepted(id)
              case PendingSync => GivesBack(s.t, t', id, Rejected) && reply == Accepted(id)
              case status => t' == s.t && reply == Refused(WrongStatus(status))
  {
    hide Inv, VoidQueuedFiles;
    if id < |s.t.requests| {
      Books(s, id);
      if s.t.requests[id].status == PendingSync {
        var o := VoidsItsFile(s, id);
      }
    }
  }

  lemma ExpireOutcome(s: State, id: nat)
    requires Inv(s)
    ensures var (t', reply) := Expire(s.t, id);
            if id >= |s.t.requests| then t' == s.t && reply == Refused(NotFound)
            else
              match s.t.requests[id].status
              case Pending => Releases(s.t, t', id, Expired) && reply == Accepted(id)
              case PendingSync => GivesBack(s.t, t', id, Expired) && reply == Accepted(id)
              case status => t' == s.t && reply == Refused(WrongStatus(status))
  {
    hide Inv, VoidQueuedFiles;
    if id < |s.t.requests| {
      Books(s, id);
      if s.t.requests[id].status == PendingSync {
        var o := VoidsItsFile(s, id);
      } else if s.t.requests[id].status == Pending {
        PendingHasNoRows(s, id);
      }
    }
  }

  // Cancel answers a cancelled request like a first cancel, and an APPROVED one with a REVERSE.
  lemma CancelOutcome(s: State, id: nat)
    requires Inv(s)
    ensures var (t', reply) := Cancel(s.t, id);
            if id >= |s.t.requests| then t' == s.t && reply == Refused(NotFound)
            else
              match s.t.requests[id].status
              case Pending => Releases(s.t, t', id, Cancelled) && reply == Accepted(id)
              case PendingSync => GivesBack(s.t, t', id, Cancelled) && reply == Accepted(id)
              case Approved => TakesBack(s.t, t', id) && reply == Accepted(id)
              case Cancelled => t' == s.t && reply == Accepted(id)
              case status => t' == s.t && reply == Refused(WrongStatus(status))
  {
    hide Inv, VoidQueuedFiles, FileSent;
    if id < |s.t.requests| {
      Books(s, id);
      if s.t.requests[id].status == PendingSync {
        var o := VoidsItsFile(s, id);
        PendingSyncIsUnsent(s, id);
      } else if s.t.requests[id].status == Pending {
        PendingHasNoRows(s, id);
      }
    }
  }

  // Were there a PENDING_SYNC request whose FILE is SENT, cancel would treat it like an approved one.
  lemma CancelOfSentFile(t: Tables, id: nat, o: nat)
    requires id < |t.requests| && t.requests[id].status == PendingSync && t.requests[id].key in t.balances
    requires o < |t.outbox| && t.outbox[o].aggregateId == id && t.outbox[o].operation == File
    requires t.outbox[o].status == Sent
    requires forall p :: 0 <= p < o ==> t.outbox[p].aggregateId != id || t.outbox[p].operation != File
    ensures TakesBack(t, Cancel(t, id).0, id) && Cancel(t, id).1 == Accepted(id)
  {
    assert FileSent(t.outbox, id);
  }

  // ---- Dispatch -----------------------------------------------------------------------------------------------

  // Transaction 1 counts the attempt of a queued row and captures it with its request; nothing else changes.
  lemma BeginOutcome(s: State, o: nat)
    requires Inv(s) && o < |s.t.outbox| && s.t.outbox[o].status == Queued
    requires s.t.outbox[o].aggregateId < |s.t.requests| && Free(s, s.t.requests[s.t.outbox[o].aggregateId].key)
    ensures var row := s.t.outbox[o].(attempts := s.t.outbox[o].attempts + 1);
            var r := s.t.requests[row.aggregateId];
            Apply(s, BeginStep(o)) == s.(t := s.t.(outbox := s.t.outbox[o := row]),
                                         sections := s.sections[r.key := Dispatching(o, row, r)])
  {
    hide Inv;
    BeginStepIs(s, o);
  }

  // A row whose request is gone is marked FAILED, and one that is no longer queued is left alone.
  lemma OrphanOutcome(t: Tables, o: nat)
    requires o < |t.outbox| && (t.outbox[o].status != Queued || t.outbox[o].aggregateId >= |t.requests|)
    ensures BeginDispatch(t, o) ==
              (if t.outbox[o].status != Queued then t
               else t.(outbox := t.outbox[o := t.outbox[o].(status := RowStatus.Failed)]), None)
  {
  }

  // Somebody else's request has the key that saving `held` would bring back.
  ghost predicate KeyTaken(t: Tables, id: nat, held: Request) {
    exists j :: 0 <= j < |t.requests| && j != id && t.requests[j].idempotencyKey == held.idempotencyKey
  }

  // What transaction 2 leaves, by the operation of row `o`, what HCM answered and the attempts made; `held` is the
  // request as transaction 1 captured it.
  ghost predicate EndLeaves(t: Tables, t': Tables, o: nat, held: Request, result: Option<int>, max: nat) {
    && o < |t.outbox| && t.outbox[o].aggregateId < |t.requests| && held.key in t.balances
    && var (id, k, b) := (t.outbox[o].aggregateId, held.key, t.balances[held.key]);
       match (t.outbox[o].operation, result)
       case (File, Some(at)) =>
         if KeyTaken(t, id, held) then t' == t
         else t' == t.(requests := t.requests[id := held.(hcmAckAt := Some(at), status := Approved)],
                       outbox := t.outbox[o := t.outbox[o].(status := Sent)])
       case (Reverse, Some(at)) =>
         if KeyTaken(t, id, held) then t' == t
         else t' == t.(requests := t.requests[id := held.(hcmAckAt := Some(at))],
                       outbox := t.outbox[o := t.outbox[o].(status := Sent)])
       case (File, None) =>
         if t.outbox[o].attempts < max || KeyTaken(t, id, held) then t' == t
         else
           t' == t.(requests := t.requests[id := held.(status := Rejected)],
                    balances := t.balances[k := b.(available := b.available + held.days)],
                    outbox := t.outbox[o := t.outbox[o].(status := RowStatus.Failed)]
                      + [OutboxRow(id, Reverse, Command(k, held.days, held.startDay, held.endDay, HcmKey(id, Reverse)),
                                   Queued, 0)])
       case (Reverse, None) =>
         if t.outbox[o].attempts < max then t' == t
         else t' == t.(outbox := t.outbox[o := t.outbox[o].(status := RowStatus.Failed)])
  }

  // Transaction 2 in a reachable state. A FILE's acknowledgement approves and a REVERSE's leaves the status alone;
  // with tries left a failure changes nothing more; the last failure of a FILE rejects, gives the days back and
  // queues a REVERSE, that of a REVERSE only marks the row. A FILE is never stopped by UNIQUE.
  lemma EndOutcome(s: State, k: BalanceKey)
    requires Inv(s) && k in s.sections && s.sections[k].Answered?
    ensures var Answered(o, row, held, result) := s.sections[k];
            var s' := Apply(s, EndStep(k));
            && row.aggregateId < |s.t.requests| && held.key == k
            && EndLeaves(s.t, s'.t, o, held, result, s.config.maxAttempts)
            && s' == s.(t := s'.t, sections := s.sections - {k})
            && (row.operation == File ==>
                  s.t.requests[row.aggregateId] == held && !KeyTaken(s.t, row.aggregateId, held))
  {
    hide EndLeaves, KeyTaken;
    var Answered(o, row, held, result) := s.sections[k];
    EndHolds(s, k);
    EndStepIs(s, k);
    hide Inv, Apply, EndDispatch;
    EndDispatchLeaves(s.t, o, held, result, s.config.maxAttempts);
  }

  lemma EndDispatchLeaves(t: Tables, o: nat, held: Request, result: Option<int>, max: nat)
    requires o < |t.outbox| && t.outbox[o].aggregateId < |t.requests| && held.key in t.balances
    ensures EndLeaves(t, EndDispatch(t, o, t.outbox[o], held, result, max), o, held, result, max)
  {
  }

  lemma EndHolds(s: State, k: BalanceKey)
    requires Inv(s) && k in s.sections && s.sections[k].Answered?
    ensures var Answered(o, row, held, result) := s.sections[k];
            && o < |s.t.outbox| && s.t.outbox[o] == row && row.aggregateId < |s.t.requests|
            && held.key == k && k in s.t.balances
            && (row.operation == File ==> s.t.requests[row.aggregateId] == held)
            && (row.operation == File ==> !KeyTaken(s.t, row.aggregateId, held))
  {
    hide HcmKeysOk, LandedOk, BooksOk, WarmOk;
    assert SectionOk(s, k, s.sections[k]);
    var row := s.sections[k].row;
    Books(s, row.aggregateId);
    if row.operation == File {
      QueuedFile(s, s.sections[k].rowId);
    }
  }

  // ---- Review -------------------------------------------------------------------------------------------------

  // Resolving a review clears the flag of that balance and changes nothing else.
  lemma ResolveReviewOutcome(s: State, k: BalanceKey)
    requires Free(s, k) && k in s.t.balances
    ensures Apply(s, Step.ResolveReview(k))
         == s.(t := s.t.(balances := s.t.balances[k := s.t.balances[k].(needsReview := false)]))
  {
  }

  // ---- Submit -------------------------------------------------------------------------------------------------

  predicate SharesDays(r: Request, sub: Submission) {
    r.key == sub.key && !r.status.Terminal() && r.startDay <= sub.endDay && sub.startDay <= r.endDay
  }

  lemma ClashIff(requests: seq<Request>, sub: Submission)
    ensures AnyClash(requests, sub.key, sub.startDay, sub.endDay) <==>
              exists r :: r in requests && SharesDays(r, sub)
  {
    if AnyClash(requests, sub.key, sub.startDay, sub.endDay) {
      var i :| 0 <= i < |requests| && Clashes(requests[i], sub.key, sub.startDay, sub.endDay);
      assert requests[i] in requests && SharesDays(requests[i], sub);
    }
    if r :| r in requests && SharesDays(r, sub) {
      var i :| 0 <= i < |requests| && requests[i] == r;
      assert Clashes(requests[i], sub.key, sub.startDay, sub.endDay);
    }
  }

  // Request i has the key, and somebody has the key it would be given instead.
  ghost predicate OldKeyTaken(requests: seq<Request>, i: nat, key: string)
    requires i < |requests|
  {
    requests[i].idempotencyKey == key && HoldsKey(requests, key + ":terminal:" + HcmClient.Digits(i))
  }

  // What submit answers, in the order of its checks.
  lemma SubmitAnswers(t: Tables, sub: Submission, ttl: int)
    requires KeysOk(t.requests)
    ensures var reply := Submit(t, sub, ttl).1;
            && (forall i :: 0 <= i < |t.requests| && t.requests[i].idempotencyKey == sub.idempotencyKey ==>
                  var r := t.requests[i];
                  || r.status.Terminal()
                  || reply == if r.key == sub.key && r.startDay == sub.startDay && r.endDay == sub.endDay
                              then Accepted(i) else Refused(KeyReuse))
            && ((forall i :: 0 <= i < |t.requests| && t.requests[i].idempotencyKey == sub.idempotencyKey ==>
                  t.requests[i].status.Terminal()) ==>
                var days := WorkDays.WorkingDays(sub.startDay, sub.endDay + 1, {});
                var b := if sub.key in t.balances then t.balances[sub.key] else Balance(0, 0, false, None);
                reply ==
                  if exists r :: r in t.requests && SharesDays(r, sub) then Refused(Overlap)
                  else if sub.endDay < sub.startDay then Refused(InvalidRange)
                  else if days == 0 then Refused(NoBusinessDays)
                  else if sub.endDay < sub.today then Refused(PastRange)
                  else if b.available - b.reserved < days then Refused(Insufficient)
                  else if exists i :: 0 <= i < |t.requests| && OldKeyTaken(t.requests, i, sub.idempotencyKey)
                  then Refused(UniqueViolation)
                  else Accepted(|t.requests|))
  {
    ClashIff(t.requests, sub);
    OldKeyTakenIff(t.requests, sub.idempotencyKey);
    hide WorkDays.WorkingDays, AnyClash, SharesDays, OldKeyTaken, RetiredKeyTaken, KeysOk;
    var found := FindByKey(t.requests, sub.idempotencyKey);
    if found.Some? {
      TerminalOrActive(t.requests[found.value].status);
    }
    forall i | 0 <= i < |t.requests| && t.requests[i].idempotencyKey == sub.idempotencyKey ensures found == Some(i) {
      HolderIsFound(t.requests, i);
    }
    match Screen(t.requests, sub)
    case Proceed(existing, days) =>
      if Covers(RowAt(t.balances, sub.key), days) {
        AdmitUnlessTaken(t, sub, existing, days, ttl);
      }
    case _ =>
  }

  lemma OldKeyTakenIff(requests: seq<Request>, key: string)
    requires KeysOk(requests)
    ensures RetiredKeyTaken(requests, FindByKey(requests, key)) <==>
              exists i :: 0 <= i < |requests| && OldKeyTaken(requests, i, key)
  {
    var found := FindByKey(requests, key);
    if found.Some? {
      HoldsKeyIfFound(requests, RetiredKey(key, found.value));
      assert OldKeyTaken(requests, found.value, key) <==> RetiredKeyTaken(requests, found);
    }
    if i :| 0 <= i < |requests| && OldKeyTaken(requests, i, key) {
      HolderIsFound(requests, i);
    }
  }

  // Every check before the balance is passed.
  ghost predicate AsksForBalance(requests: seq<Request>, sub: Submission) {
    && (forall r :: r in requests ==> r.idempotencyKey != sub.idempotencyKey || r.status.Terminal())
    && (forall r :: r in requests ==> !SharesDays(r, sub))
    && sub.startDay <= sub.endDay && sub.today <= sub.endDay
    && WorkDays.WorkingDays(sub.startDay, sub.endDay + 1, {}) > 0
  }

  lemma ProceedsIff(requests: seq<Request>, sub: Submission)
    requires KeysOk(requests)
    ensures Screen(requests, sub).Proceed? <==> AsksForBalance(requests, sub)
  {
    ClashIff(requests, sub);
    hide WorkDays.WorkingDays, AnyClash, SharesDays, KeysOk;
    var found := FindByKey(requests, sub.idempotencyKey);
    if found.Some? {
      TerminalOrActive(requests[found.value].status);
      assert requests[found.value] in requests;
    }
    forall i | 0 <= i < |requests| && requests[i].idempotencyKey == sub.idempotencyKey ensures found == Some(i) {
      HolderIsFound(requests, i);
    }
  }

  // On a free but cold balance submit waits for itself exactly when it gets as far as the balance.
  lemma SubmitBlocksIff(s: State, sub: Submission)
    requires Inv(s) && Free(s, sub.key)
    ensures var cold := sub.key in s.t.balances ==> s.t.balances[sub.key].lastHcmAsOf.None?;
            Apply(s, SubmitStep(sub)) ==
              if cold && AsksForBalance(s.t.requests, sub) then s.(sections := s.sections[sub.key := SelfWait])
              else s.(t := Submit(s.t, sub, s.config.ttl).0)
  {
    InvHasKeys(s);
    SubmitStepIs(s, sub);
    ProceedsIff(s.t.requests, sub);
    hide Inv, Apply, Submit, Screen, AsksForBalance;
  }
}
