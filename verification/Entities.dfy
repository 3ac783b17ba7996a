// The rows of the service's five tables and the values that travel to and from the HCM.
//
// Row ids are positions: request `i` is `requests[i]`, outbox row `o` is `outbox[o]`. The source draws
// UUIDs for both and for `hcmIdempotencyKey`; positions are what "a fresh id" means here, and oldest-first
// order (`createdAt ASC`) is position order. Days are civil day numbers (module Calendar says why that
// loses nothing), instants are integers.
module Entities {

  datatype Option<+T> = None | Some(value: T)

  // (employeeId, locationId): the primary key of a balance and the key of its lock.
  datatype BalanceKey = BalanceKey(employeeId: string, locationId: string)

  datatype RequestStatus = Draft | Pending | PendingSync | Approved | Rejected | Cancelled | Expired {
    predicate Terminal() {
      this == Rejected || this == Cancelled || this == Expired
    }

    predicate Active() {
      this == Draft || this == Pending || this == PendingSync || this == Approved
    }
  }

  datatype Operation = File | Reverse

  // `Queued` is OutboxStatus.PENDING.
  datatype RowStatus = Queued | Sent | Failed | Voided

  // `${hcmIdempotencyKey}:${operation}`
  datatype HcmKey = HcmKey(request: nat, operation: Operation)

  datatype Command = Command(key: BalanceKey, days: nat, startDay: int, endDay: int, idempotencyKey: HcmKey)

  datatype Request = Request(
    key: BalanceKey,
    startDay: int,
    endDay: int,
    days: nat,
    status: RequestStatus,
    idempotencyKey: string,
    expiresAt: int,
    committedAt: Option<int>,
    hcmAckAt: Option<int>)

  datatype OutboxRow = OutboxRow(
    aggregateId: nat,
    operation: Operation,
    payload: Command,
    status: RowStatus,
    attempts: nat)

  datatype Balance = Balance(available: int, reserved: int, needsReview: bool, lastHcmAsOf: Option<int>)

  const ZERO_BALANCE := Balance(0, 0, false, None)

  datatype Resolution = Replayed | FlaggedNegative | NoChange | StaleRejected

  // `about` is None for the '*' / '*' sentinel of a rejected batch.
  datatype ReconEvent = ReconEvent(about: Option<BalanceKey>, localValue: int, hcmValue: int, resolution: Resolution)

  datatype BatchLogEntry = BatchLogEntry(sequence: int, asOf: int)

  datatype Tables = Tables(
    requests: seq<Request>,
    outbox: seq<OutboxRow>,
    balances: map<BalanceKey, Balance>,
    events: seq<ReconEvent>,
    batchLog: seq<BatchLogEntry>)

  // Why a call was refused; every refusal leaves the tables as they were.
  datatype Refusal =
    | NotFound
    | WrongStatus(status: RequestStatus)
    | KeyReuse
    | Overlap
    | InvalidRange
    | NoBusinessDays
    | PastRange
    | Insufficient
    | UniqueViolation

  datatype Reply = Accepted(id: nat) | Refused(why: Refusal)
}
