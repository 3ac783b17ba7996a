// The transactions of the time-off lifecycle, each as a function on the tables
// (src/time-off-request/time-off-request.service.ts, src/balance/balance.service.ts,
// src/hcm/outbox-dispatcher.service.ts). The service classes are proved against these functions, and every
// law is about them.
module Lifecycle {
  import opened Entities
  import opened Sums
  import opened OutboxTable
  import opened WorkDays
  import HcmClient

  // ---- The balance row ----------------------------------------------------------------------------------

  // findOrCreate: the stored row, or a zero row that is not stored yet.
  function RowAt(balances: map<BalanceKey, Balance>, k: BalanceKey): Balance {
    if k in balances then balances[k] else ZERO_BALANCE
  }

  function Floor(x: int): int {
    if x < 0 then 0 else x
  }

  predicate Covers(b: Balance, days: nat) {
    b.available - b.reserved >= days
  }

  function Reserve(b: Balance, days: nat): Balance {
    b.(reserved := b.reserved + days)
  }

  function Release(b: Balance, days: nat): Balance {
    b.(reserved := Floor(b.reserved - days))
  }

  function Commit(b: Balance, days: nat): Balance {
    b.(available := b.available - days, reserved := Floor(b.reserved - days))
  }

  function Restore(b: Balance, days: nat): Balance {
    b.(available := b.available + days)
  }

  function ApplySnapshot(b: Balance, value: int, asOf: int): Balance {
    b.(available := value, lastHcmAsOf := Some(asOf))
  }

  function SetBalance(t: Tables, k: BalanceKey, b: Balance): Tables {
    t.(balances := t.balances[k := b])
  }

  function SaveRequest(t: Tables, id: nat, r: Request): Tables
    requires id < |t.requests|
  {
    t.(requests := t.requests[id := r])
  }

  // ---- Outbox rows --------------------------------------------------------------------------------------

  function BuildCommand(id: nat, r: Request, op: Operation): Command {
    Command(r.key, r.days, r.startDay, r.endDay, HcmKey(id, op))
  }

  function BuildRow(id: nat, r: Request, op: Operation): OutboxRow {
    OutboxRow(id, op, BuildCommand(id, r, op), Queued, 0)
  }

  function Enqueue(t: Tables, id: nat, r: Request, op: Operation): Tables {
    t.(outbox := t.outbox + [BuildRow(id, r, op)])
  }

  function VoidFiles(t: Tables, id: nat): Tables {
    t.(outbox := VoidQueuedFiles(t.outbox, id))
  }

  // ---- Submit -------------------------------------------------------------------------------------------

  datatype Submission = Submission(
    key: BalanceKey, startDay: int, endDay: int, idempotencyKey: string, now: int, today: int)

  function FindByKey(requests: seq<Request>, idempotencyKey: string): (found: Option<nat>)
    ensures found.Some? ==> found.value < |requests| && requests[found.value].idempotencyKey == idempotencyKey
    ensures found.None? ==> forall i :: 0 <= i < |requests| ==> requests[i].idempotencyKey != idempotencyKey
  {
    if requests == [] then None
    else
      var n := |requests| - 1;
      if requests[n].idempotencyKey == idempotencyKey then Some(n) else FindByKey(requests[..n], idempotencyKey)
  }

  predicate Clashes(r: Request, k: BalanceKey, startDay: int, endDay: int) {
    r.key == k && !r.status.Terminal() && r.startDay <= endDay && r.endDay >= startDay
  }

  predicate AnyClash(requests: seq<Request>, k: BalanceKey, startDay: int, endDay: int) {
    exists i :: 0 <= i < |requests| && Clashes(requests[i], k, startDay, endDay)
  }

  predicate SameBody(r: Request, sub: Submission) {
    r.key == sub.key && r.startDay == sub.startDay && r.endDay == sub.endDay
  }

  // `${key}:terminal:${id}`
  function RetiredKey(key: string, id: nat): string {
    key + ":terminal:" + HcmClient.Digits(id)
  }

  datatype Screening = Replay(id: nat) | Refuse(why: Refusal) | Proceed(existing: Option<nat>, days: nat)

  // Everything submit checks before it looks at the balance.
  function Screen(requests: seq<Request>, sub: Submission): (v: Screening)
    ensures v.Replay? ==> v.id < |requests|
    ensures v.Proceed? && v.existing.Some? ==> v.existing.value < |requests|
  {
    var existing := FindByKey(requests, sub.idempotencyKey);
    if existing.Some? && requests[existing.value].status.Active() then
      if SameBody(requests[existing.value], sub) then Replay(existing.value) else Refuse(KeyReuse)
    else if AnyClash(requests, sub.key, sub.startDay, sub.endDay) then Refuse(Overlap)
    else if sub.endDay < sub.startDay then Refuse(InvalidRange)
    else
      var days := WorkingDays(sub.startDay, sub.endDay + 1, {});
      if days == 0 then Refuse(NoBusinessDays)
      else if sub.endDay < sub.today then Refuse(PastRange)
      else Proceed(existing, days)
  }

  function FreshRequest(sub: Submission, days: nat, ttl: int): Request {
    Request(sub.key, sub.startDay, sub.endDay, days, Pending, sub.idempotencyKey, sub.now + ttl, None, None)
  }

  // Give a terminal holder of the key another key, so that UNIQUE does not block the new row.
  function Retire(requests: seq<Request>, existing: Option<nat>): seq<Request>
    requires existing.Some? ==> existing.value < |requests|
  {
    match existing
    case None => requests
    case Some(j) => requests[j := requests[j].(idempotencyKey := RetiredKey(requests[j].idempotencyKey, j))]
  }

  predicate RetiredKeyTaken(requests: seq<Request>, existing: Option<nat>)
    requires existing.Some? ==> existing.value < |requests|
  {
    existing.Some? && FindByKey(requests, RetiredKey(requests[existing.value].idempotencyKey, existing.value)).Some?
  }

  // The balance check and the transaction that follows it. UNIQUE(idempotencyKey) is the database's own guard.
  function Admit(t: Tables, sub: Submission, existing: Option<nat>, days: nat, ttl: int): (r: (Tables, Reply))
    requires existing.Some? ==> existing.value < |t.requests|
    ensures r.1.Refused? ==> r.0 == t
  {
    var row := RowAt(t.balances, sub.key);
    if !Covers(row, days) then (t, Refused(Insufficient))
    else if RetiredKeyTaken(t.requests, existing) then (t, Refused(UniqueViolation))
    else
      var kept := Retire(t.requests, existing);
      if FindByKey(kept, sub.idempotencyKey).Some? then (t, Refused(UniqueViolation))
      else
        var t' := t.(requests := kept + [FreshRequest(sub, days, ttl)]);
        (SetBalance(t', sub.key, Reserve(row, days)), Accepted(|t.requests|))
  }

  // submit with a warm row, or one the pre-warm has made warm.
  function Submit(t: Tables, sub: Submission, ttl: int): (Tables, Reply) {
    match Screen(t.requests, sub)
    case Replay(id) => (t, Accepted(id))
    case Refuse(why) => (t, Refused(why))
    case Proceed(existing, days) => Admit(t, sub, existing, days, ttl)
  }

  // ---- Leaving PENDING and PENDING_SYNC -----------------------------------------------------------------

  // Drop the reservation of a PENDING request. `held` is the entity the caller loaded and now saves.
  function ReleaseAs(t: Tables, id: nat, held: Request, status: RequestStatus): Tables
    requires id < |t.requests|
  {
    var t' := SetBalance(t, held.key, Release(RowAt(t.balances, held.key), held.days));
    SaveRequest(t', id, held.(status := status))
  }

  // Give the days of a PENDING_SYNC request back and void its FILE row.
  function RestoreAs(t: Tables, id: nat, held: Request, status: RequestStatus): Tables
    requires id < |t.requests|
  {
    var t' := SetBalance(t, held.key, Restore(RowAt(t.balances, held.key), held.days));
    SaveRequest(VoidFiles(t', id), id, held.(status := status))
  }

  // Give the days back and ask HCM to do the same.
  function RestoreAndReverse(t: Tables, id: nat, held: Request): Tables
    requires id < |t.requests|
  {
    var t' := SetBalance(t, held.key, Restore(RowAt(t.balances, held.key), held.days));
    SaveRequest(Enqueue(t', id, held, Reverse), id, held.(status := Cancelled))
  }

  function CommitForSync(t: Tables, id: nat, held: Request, now: int): Tables
    requires id < |t.requests|
  {
    var t' := SetBalance(t, held.key, Commit(RowAt(t.balances, held.key), held.days));
    var r := held.(committedAt := Some(now), status := PendingSync);
    SaveRequest(Enqueue(t', id, r, File), id, r)
  }

  function Reject(t: Tables, id: nat): (Tables, Reply) {
    if id >= |t.requests| then (t, Refused(NotFound))
    else
      var r := t.requests[id];
      if r.status == Pending then (ReleaseAs(t, id, r, Rejected), Accepted(id))
      else if r.status == PendingSync then (RestoreAs(t, id, r, Rejected), Accepted(id))
      else (t, Refused(WrongStatus(r.status)))
  }

  function Expire(t: Tables, id: nat): (Tables, Reply) {
    if id >= |t.requests| then (t, Refused(NotFound))
    else
      var r := t.requests[id];
      if r.status == Pending then (VoidFiles(ReleaseAs(t, id, r, Expired), id), Accepted(id))
      else if r.status == PendingSync then (RestoreAs(t, id, r, Expired), Accepted(id))
      else (t, Refused(WrongStatus(r.status)))
  }

  // The first FILE row of the request, as `findOne` returns it.
  predicate FileSent(outbox: seq<OutboxRow>, id: nat) {
    exists o ::
      && 0 <= o < |outbox| && outbox[o].aggregateId == id && outbox[o].operation == File && outbox[o].status == Sent
      && forall p :: 0 <= p < o ==> outbox[p].aggregateId != id || outbox[p].operation != File
  }

  function Cancel(t: Tables, id: nat): (Tables, Reply) {
    if id >= |t.requests| then (t, Refused(NotFound))
    else
      var r := t.requests[id];
      match r.status
      case Cancelled => (t, Accepted(id))
      case Pending => (VoidFiles(ReleaseAs(t, id, r, Cancelled), id), Accepted(id))
      case PendingSync =>
        (if FileSent(t.outbox, id) then RestoreAndReverse(t, id, r) else RestoreAs(t, id, r, Cancelled), Accepted(id))
      case Approved => (RestoreAndReverse(t, id, r), Accepted(id))
      case _ => (t, Refused(WrongStatus(r.status)))
  }

  // ---- Dispatch -----------------------------------------------------------------------------------------

  // Transaction 1: count the attempt and capture the row and its request.
  function BeginDispatch(t: Tables, o: nat): (Tables, Option<(OutboxRow, Request)>) {
    if o >= |t.outbox| || t.outbox[o].status != Queued then (t, None)
    else if t.outbox[o].aggregateId >= |t.requests| then
      (t.(outbox := t.outbox[o := t.outbox[o].(status := Failed)]), None)
    else
      var row := t.outbox[o].(attempts := t.outbox[o].attempts + 1);
      (t.(outbox := t.outbox[o := row]), Some((row, t.requests[row.aggregateId])))
  }

  // Saving an entity writes all its columns, so a captured entity can bring back an idempotency key that the
  // row has since given up. UNIQUE then aborts the transaction.
  predicate SaveClashes(requests: seq<Request>, id: nat, r: Request) {
    exists j :: 0 <= j < |requests| && j != id && requests[j].idempotencyKey == r.idempotencyKey
  }

  // Transaction 2: write back what HCM said, onto the entities captured by transaction 1. `result` is the
  // acknowledgement instant, or None for a call that did not end well.
  function EndDispatch(t: Tables, o: nat, row: OutboxRow, held: Request, result: Option<int>, maxAttempts: nat): Tables
    requires o < |t.outbox| && row.aggregateId < |t.requests|
  {
    var id := row.aggregateId;
    if result.Some? then
      if SaveClashes(t.requests, id, held) then t
      else
        var r := held.(hcmAckAt := result, status := if row.operation == File then Approved else held.status);
        SaveRequest(t.(outbox := t.outbox[o := row.(status := Sent)]), id, r)
    else if row.attempts < maxAttempts then t.(outbox := t.outbox[o := row])
    else if row.operation == File then
      if SaveClashes(t.requests, id, held) then t
      else
        var t1 := SetBalance(t, held.key, Restore(RowAt(t.balances, held.key), held.days));
        var t2 := t1.(outbox := t1.outbox[o := row.(status := Failed)]);
        Enqueue(SaveRequest(t2, id, held.(status := Rejected)), id, held, Reverse)
    else t.(outbox := t.outbox[o := row.(status := Failed)])
  }

  // ---- Reconcile ----------------------------------------------------------------------------------------

  // APPROVED or PENDING_SYNC, not acknowledged by `asOf`.
  function UnackedDays(r: Request, k: BalanceKey, asOf: int): int {
    if r.key == k && (r.status == Approved || r.status == PendingSync) && (r.hcmAckAt.None? || r.hcmAckAt.value > asOf)
    then r.days else 0
  }

  function ReservedDays(r: Request, k: BalanceKey): int {
    if r.key == k && r.status == Pending then r.days else 0
  }

  // A PENDING REVERSE row joined to its CANCELLED request.
  function ReversalDays(requests: seq<Request>, row: OutboxRow, k: BalanceKey): int {
    if row.operation == Reverse && row.status == Queued && row.aggregateId < |requests|
       && requests[row.aggregateId].key == k && requests[row.aggregateId].status == Cancelled
    then requests[row.aggregateId].days else 0
  }

  function UnackedColumn(requests: seq<Request>, k: BalanceKey, asOf: int): seq<int> {
    seq(|requests|, i requires 0 <= i < |requests| => UnackedDays(requests[i], k, asOf))
  }

  function ReservedColumn(requests: seq<Request>, k: BalanceKey): seq<int> {
    seq(|requests|, i requires 0 <= i < |requests| => ReservedDays(requests[i], k))
  }

  function ReversalColumn(requests: seq<Request>, outbox: seq<OutboxRow>, k: BalanceKey): seq<int> {
    seq(|outbox|, o requires 0 <= o < |outbox| => ReversalDays(requests, outbox[o], k))
  }

  function ReconciledAvailable(t: Tables, k: BalanceKey, value: int, asOf: int): int {
    value - Sum(UnackedColumn(t.requests, k, asOf)) + Sum(ReversalColumn(t.requests, t.outbox, k))
  }

  function ReconciledRow(t: Tables, k: BalanceKey, value: int, asOf: int): Balance {
    var available := ReconciledAvailable(t, k, value, asOf);
    Balance(available, Sum(ReservedColumn(t.requests, k)), available < 0 || RowAt(t.balances, k).needsReview,
        Some(asOf))
  }

  function ReconcileEvent(t: Tables, k: BalanceKey, value: int, asOf: int): ReconEvent {
    var before := RowAt(t.balances, k);
    var after := ReconciledRow(t, k, value, asOf);
    var adjusted :=
      || Sum(UnackedColumn(t.requests, k, asOf)) != 0
      || Sum(ReversalColumn(t.requests, t.outbox, k)) != 0
      || after.available != before.available
      || after.reserved != before.reserved;
    ReconEvent(Some(k), before.available, value,
               if after.available < 0 then FlaggedNegative else if adjusted then Replayed else NoChange)
  }

  function Reconcile(t: Tables, k: BalanceKey, value: int, asOf: int): Tables {
    SetBalance(t, k, ReconciledRow(t, k, value, asOf)).(events := t.events + [ReconcileEvent(t, k, value, asOf)])
  }
}
