// One request seen from all sides (its row, its outbox rows, what HCM did and said for it) as an automaton of
// its own: the moves it can make, and what each move does to the three figures of its balance.
module Automaton {
  import opened Entities
  import opened MockHcm
  import opened OutboxTable
  import opened Lifecycle

  // `filed` / `reversed`: when the FILE / REVERSE moved the HCM balance. The idempotency key of the request is
  // blanked: no move depends on it.
  datatype View = View(
    req: Request,
    rows: seq<OutboxRow>,
    filed: Option<int>,
    fileAnswer: Option<Answer>,
    reversed: Option<int>,
    reverseAnswer: Option<Answer>)

  function Bare(r: Request): Request {
    r.(idempotencyKey := "")
  }

  datatype Delta = Delta(available: int, reserved: int, hcm: int)

  datatype Move =
    | Released(to: RequestStatus)
    | Committed(now: int)
    | Restored(to: RequestStatus)
    | Undone
    | Counted(p: nat)
    | FileHeard(answer: Answer, landed: bool)
    | ReverseHeard(at: int, landed: bool)
    | FileAcked(at: int)
    | ReverseAcked(at: int)
    | FileGivenUp
    | ReverseGivenUp

  predicate FileQueued(v: View) {
    |v.rows| == 1 && v.rows[0].operation == File && v.rows[0].status == Queued
  }

  predicate ReverseQueued(v: View) {
    |v.rows| == 2 && v.rows[1].operation == Reverse && v.rows[1].status == Queued
  }

  predicate Fits(v: View, m: Move) {
    match m
    case Released(to) => v.req.status == Pending && to.Terminal()
    case Committed(_) => v.req.status == Pending
    case Restored(to) => v.req.status == PendingSync && to.Terminal()
    case Undone => v.req.status == Approved
    case Counted(p) => p < |v.rows| && v.rows[p].status == Queued
    case FileHeard(answer, landed) => FileQueued(v) && v.fileAnswer.None? && (landed ==> answer.Acked?)
    case ReverseHeard(_, landed) => ReverseQueued(v) && v.reverseAnswer.None? && (v.filed.Some? ==> landed)
    case FileAcked(at) => FileQueued(v) && v.fileAnswer == Some(Acked(at))
    case ReverseAcked(at) => ReverseQueued(v) && v.reverseAnswer == Some(Acked(at))
    case FileGivenUp => FileQueued(v)
    case ReverseGivenUp => ReverseQueued(v)
  }

  function WithStatus(v: View, to: RequestStatus): View {
    v.(req := v.req.(status := to))
  }

  // The view after a move of request `id`.
  function After(v: View, id: nat, m: Move): View
    requires Fits(v, m)
  {
    match m
    case Released(to) => WithStatus(v, to)
    case Committed(now) =>
      var r := v.req.(committedAt := Some(now), status := PendingSync);
      v.(req := r, rows := v.rows + [BuildRow(id, v.req, File)])
    case Restored(to) => WithStatus(v, to).(rows := VoidQueuedFiles(v.rows, id))
    case Undone => WithStatus(v, Cancelled).(rows := v.rows + [BuildRow(id, v.req, Reverse)])
    case Counted(p) => v.(rows := v.rows[p := v.rows[p].(attempts := v.rows[p].attempts + 1)])
    case FileHeard(answer, landed) =>
      v.(fileAnswer := Some(answer), filed := if landed then Some(answer.at) else v.filed)
    case ReverseHeard(at, landed) =>
      v.(reverseAnswer := Some(Acked(at)), reversed := if landed then Some(at) else v.reversed)
    case FileAcked(at) =>
      v.(req := v.req.(status := Approved, hcmAckAt := Some(at)), rows := [v.rows[0].(status := Sent)])
    case ReverseAcked(at) =>
      v.(req := v.req.(hcmAckAt := Some(at)), rows := [v.rows[0], v.rows[1].(status := Sent)])
    case FileGivenUp =>
      WithStatus(v, Rejected).(rows := [v.rows[0].(status := Failed), BuildRow(id, v.req, Reverse)])
    case ReverseGivenUp => v.(rows := [v.rows[0], v.rows[1].(status := Failed)])
  }

  // What a move adds to `available`, to `reserved` and to the HCM balance.
  function Amounts(v: View, m: Move): Delta {
    var days: int := v.req.days;
    match m
    case Released(_) => Delta(0, -days, 0)
    case Committed(_) => Delta(-days, -days, 0)
    case Restored(_) => Delta(days, 0, 0)
    case Undone => Delta(days, 0, 0)
    case FileHeard(_, landed) => Delta(0, 0, if landed then -days else 0)
    case ReverseHeard(_, landed) => Delta(0, 0, if landed then days else 0)
    case FileGivenUp => Delta(days, 0, 0)
    case _ => Delta(0, 0, 0)
  }

  // ---- Outbox and status go together --------------------------------------------------------------------

  predicate RowFor(row: OutboxRow, id: nat, r: Request, op: Operation) {
    row.aggregateId == id && row.operation == op && row.payload == BuildCommand(id, r, op)
  }

  predicate Untouched(v: View) {
    v.filed.None? && v.fileAnswer.None? && NotReversed(v)
  }

  predicate NotReversed(v: View) {
    v.reversed.None? && v.reverseAnswer.None?
  }

  // The HCM record of one request: a key that moved the balance was acknowledged at that instant; a REVERSE is
  // never refused, and one that was heard after its FILE landed has landed too.
  predicate HcmRecordOk(v: View) {
    && (v.filed.Some? ==> v.fileAnswer == Some(Acked(v.filed.value)))
    && (v.reversed.Some? ==> v.reverseAnswer == Some(Acked(v.reversed.value)))
    && (v.reverseAnswer.Some? ==> v.reverseAnswer.value.Acked?)
    && (v.filed.Some? && v.reverseAnswer.Some? ==> v.reversed.Some?)
  }

  // The rows a request of each status can have.
  predicate Coupled(v: View, id: nat) {
    && v.req.days >= 1
    && HcmRecordOk(v)
    && (forall p :: 0 <= p < |v.rows| ==> RowFor(v.rows[p], id, v.req, if p == 0 then File else Reverse))
    && match v.req.status
       case Draft => false
       case Pending => v.rows == [] && v.req.hcmAckAt.None? && v.req.committedAt.None? && Untouched(v)
       case PendingSync =>
         FileQueued(v) && v.req.hcmAckAt.None? && v.req.committedAt.Some? && NotReversed(v)
       case Approved =>
         && |v.rows| == 1 && v.rows[0].status == Sent && NotReversed(v)
         && v.req.hcmAckAt.Some? && v.fileAnswer == Some(Acked(v.req.hcmAckAt.value))
       case Rejected =>
         || NeverFiled(v)
         || FileVoided(v)
         || (|v.rows| == 2 && v.rows[0].status == RowStatus.Failed && ReverseSettled(v, None))
       case Cancelled =>
         || NeverFiled(v)
         || FileVoided(v)
         || (|v.rows| == 2 && v.rows[0].status == Sent && v.fileAnswer.Some? && v.fileAnswer.value.Acked?
             && ReverseSettled(v, Some(v.fileAnswer.value.at)))
       case Expired => NeverFiled(v) || FileVoided(v)
  }

  predicate NeverFiled(v: View) {
    v.rows == [] && v.req.hcmAckAt.None? && Untouched(v)
  }

  predicate FileVoided(v: View) {
    |v.rows| == 1 && v.rows[0].status == RowStatus.Voided && v.req.hcmAckAt.None? && NotReversed(v)
  }

  // The REVERSE row is never voided. `hcmAckAt` is the REVERSE's instant once that row is SENT, and until then
  // what the FILE left there.
  predicate ReverseSettled(v: View, fileAckAt: Option<int>)
    requires |v.rows| == 2
  {
    && v.rows[1].status != RowStatus.Voided
    && if v.rows[1].status == Sent then v.req.hcmAckAt.Some? && v.reverseAnswer == Some(Acked(v.req.hcmAckAt.value))
       else v.req.hcmAckAt == fileAckAt
  }

  // Moves keep the coupling.
  lemma MoveKeepsCoupling(v: View, id: nat, m: Move)
    requires Coupled(v, id) && Fits(v, m)
    ensures Coupled(After(v, id, m), id)
  {
  }

  // Which rows a queued row can be: the only row of a PENDING_SYNC request, or the second of a terminal one.
  lemma QueuedRowPosition(v: View, id: nat, p: nat)
    requires Coupled(v, id) && p < |v.rows| && v.rows[p].status == Queued
    ensures p == 0 ==> FileQueued(v) && v.rows[p].operation == File && v.req.status == PendingSync
    ensures p != 0 ==> p == 1 && ReverseQueued(v) && v.rows[p].operation == Reverse && v.req.status.Terminal()
  {
  }

  // A terminal status is never left.
  lemma TerminalIsAbsorbing(v: View, id: nat, m: Move)
    requires Coupled(v, id) && Fits(v, m) && v.req.status.Terminal()
    ensures After(v, id, m).req.status == v.req.status
  {
  }

  // ---- What a request contributes to the figures of its balance -----------------------------------------

  datatype Measure =
    | PendingDays
    | CommittedDays
    | InFlight
    | PostedAfter(asOf: int)
    | ReplayedDebit(asOf: int)
    | ReplayedCredit
    | ReplayError(asOf: int)
    | GivenUp

  function DaysIf(v: View, b: bool): int {
    if b then v.req.days else 0
  }

  // HCM still has to take the days of a committed request ...
  predicate Unlanded(v: View) {
    v.req.status == PendingSync && v.filed.None?
  }

  // ... or still has to give back the days of a reversed one.
  predicate Owed(v: View) {
    ReverseQueued(v) && v.filed.Some? && v.reversed.None?
  }

  predicate LandedAfter(at: Option<int>, asOf: int) {
    at.Some? && at.value > asOf
  }

  predicate LandedBy(at: Option<int>, asOf: int) {
    at.Some? && at.value <= asOf
  }

  // ... and never will, the REVERSE being given up.
  predicate Abandoned(v: View) {
    |v.rows| == 2 && v.rows[1].status == RowStatus.Failed && v.filed.Some? && v.reversed.None?
  }

  function Awaited(v: View): int {
    DaysIf(v, Unlanded(v)) - DaysIf(v, Owed(v))
  }

  // The days HCM took after `asOf`, less those it gave back after `asOf`.
  function Posted(v: View, asOf: int): int {
    DaysIf(v, LandedAfter(v.filed, asOf)) - DaysIf(v, LandedAfter(v.reversed, asOf))
  }

  function Credited(v: View): int {
    DaysIf(v, ReverseQueued(v) && v.req.status == Cancelled)
  }

  function Weight(m: Measure, v: View): int {
    match m
    case PendingDays => DaysIf(v, v.req.status == Pending)
    case CommittedDays => DaysIf(v, v.req.status == PendingSync || v.req.status == Approved)
    case InFlight => Awaited(v)
    case PostedAfter(asOf) => Posted(v, asOf)
    case ReplayedDebit(asOf) => UnackedDays(v.req, v.req.key, asOf)
    case ReplayedCredit => Credited(v)
    case ReplayError(asOf) =>
      Posted(v, asOf) - UnackedDays(v.req, v.req.key, asOf) + Credited(v) + Awaited(v)
    case GivenUp => DaysIf(v, Abandoned(v))
  }

  // A move changes `reserved` by exactly its change of PENDING days, and moves days between `available` and
  // the committed requests without making or losing any.
  lemma MoveConserves(v: View, id: nat, m: Move)
    requires Coupled(v, id) && Fits(v, m)
    ensures Amounts(v, m).reserved == Weight(PendingDays, After(v, id, m)) - Weight(PendingDays, v)
    ensures Amounts(v, m).available == Weight(CommittedDays, v) - Weight(CommittedDays, After(v, id, m))
    ensures Amounts(v, m).reserved <= Amounts(v, m).available
  {
  }

  // What a move adds to available - (HCM balance - days HCM has still to take + days it has still to give back).
  function Charge(v: View, m: Move): int {
    match m
    case Restored(_) => DaysIf(v, v.filed.Some?)
    case Undone => DaysIf(v, v.filed.None?)
    case FileAcked(_) => -DaysIf(v, v.filed.None?)
    case ReverseHeard(_, landed) => -DaysIf(v, landed && v.filed.None?)
    case ReverseGivenUp => DaysIf(v, Owed(v))
    case _ => 0
  }

  lemma ChargeIsExact(v: View, id: nat, m: Move)
    requires Coupled(v, id) && Fits(v, m)
    ensures var d := Amounts(v, m);
            Charge(v, m) == d.available - d.hcm + Weight(InFlight, After(v, id, m)) - Weight(InFlight, v)
  {
  }

  // Only giving up a REVERSE that is owed abandons days, and abandoned days stay abandoned.
  lemma GivingUpIsExact(v: View, id: nat, m: Move)
    requires Coupled(v, id) && Fits(v, m)
    ensures Weight(GivenUp, After(v, id, m)) - Weight(GivenUp, v) == if m.ReverseGivenUp? then Charge(v, m) else 0
  {
  }

  // A landing after `asOf` is exactly what winding the HCM balance back to `asOf` takes out again.
  lemma WindingBackIsExact(v: View, id: nat, m: Move, asOf: int)
    requires Coupled(v, id) && Fits(v, m)
    requires m.FileHeard? && m.landed ==> m.answer.at > asOf
    requires m.ReverseHeard? && m.landed ==> m.at > asOf
    ensures Amounts(v, m).hcm + Weight(PostedAfter(asOf), After(v, id, m)) == Weight(PostedAfter(asOf), v)
  {
  }

  // ---- What reconcile gets wrong, request by request ----------------------------------------------------

  // The days by which replaying a request on a snapshot of instant `asOf` misses the mark.
  function ErrorDays(v: View, asOf: int): int {
    match v.req.status
    // HCM has taken the days but the answer was lost: taken off twice.
    case PendingSync => -DaysIf(v, LandedBy(v.filed, asOf))
    // Acknowledged after the snapshot without a deduction.
    case Approved => -DaysIf(v, v.filed.None? && LandedAfter(v.req.hcmAckAt, asOf))
    case Draft => 0
    case Pending => 0
    case _ =>
      if |v.rows| < 2 then
        // Voided although it landed, and the snapshot is older than that.
        DaysIf(v, LandedAfter(v.filed, asOf))
      else if v.rows[1].status != Queued || (v.req.status != Cancelled && v.reversed.Some?) then
        // The snapshot lies between the deduction and its reversal.
        DaysIf(v, LandedAfter(v.filed, asOf)) - DaysIf(v, LandedAfter(v.reversed, asOf))
      else if v.req.status == Cancelled then
        // Only a snapshot with the deduction and without the reversal needs the credit.
        if v.reversed.Some? then DaysIf(v, LandedAfter(v.filed, asOf)) + DaysIf(v, v.reversed.value <= asOf)
        else DaysIf(v, !LandedBy(v.filed, asOf))
      else
        // A compensating REVERSE is not credited.
        -DaysIf(v, LandedBy(v.filed, asOf))
  }

  predicate Misread(v: View, asOf: int) {
    ErrorDays(v, asOf) != 0
  }

  lemma MisreadIffError(v: View, id: nat, asOf: int)
    requires Coupled(v, id)
    ensures Weight(ReplayError(asOf), v) == ErrorDays(v, asOf)
  {
  }
}
