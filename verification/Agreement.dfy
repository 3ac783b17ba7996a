// How far the local figure is from HCM's, and exactly which steps move it.
//
//   Drift = available - (HCM balance - committed days HCM has still to take + reversed days it has still to give back)
//
// Every step either adds a known charge to the drift of a balance or, where it overwrites `available`, sets it to
// a known value. Zero drift is the agreement the service is for.
module Agreement {
  import opened Entities
  import opened Sums
  import opened OutboxTable
  import opened MockHcm
  import opened HcmCall
  import opened Lifecycle
  import opened Machine
  import opened Automaton
  import opened Refinement
  import opened Invariant

  function Available(s: State, k: BalanceKey): int {
    RowAt(s.t.balances, k).available
  }

  function Drift(s: State, k: BalanceKey): int {
    Available(s, k) - BalanceAt(s.hcm, k) + Total(s, k, InFlight)
  }

  // The HCM balance with everything that landed after `asOf` taken back.
  function SnapshotAt(s: State, k: BalanceKey, asOf: int): int {
    BalanceAt(s.hcm, k) + Total(s, k, PostedAfter(asOf))
  }

  // ---- The laws a move obeys ----------------------------------------------------------------------------

  function IfSame(k: BalanceKey, k': BalanceKey, x: int): int {
    if k == k' then x else 0
  }

  lemma MoveFigures(s: State, s': State, i: nat, k: BalanceKey, m: Move, k': BalanceKey)
    requires Makes(s, s', i, k, m)
    ensures OnlyRequest(s, s', i, k) && i < |s.t.requests| && |s'.t.requests| == |s.t.requests|
    ensures Fits(ViewOf(s, i), m) && ViewOf(s', i) == After(ViewOf(s, i), i, m)
    ensures var d := Amounts(ViewOf(s, i), m);
            && Available(s', k') == Available(s, k') + IfSame(k, k', d.available)
            && RowAt(s'.t.balances, k').reserved == RowAt(s.t.balances, k').reserved + IfSame(k, k', d.reserved)
            && BalanceAt(s'.hcm, k') == BalanceAt(s.hcm, k') + IfSame(k, k', d.hcm)
  {
    hide ViewOf, Fits, After, Amounts, BalanceAt;
  }

  lemma MoveDrift(s: State, s': State, i: nat, k: BalanceKey, m: Move, k': BalanceKey)
    requires Inv(s) && Makes(s, s', i, k, m)
    ensures i < |s.t.requests|
    ensures Drift(s', k') == Drift(s, k') + IfSame(k, k', Charge(ViewOf(s, i), m))
  {
    hide Makes, OnlyRequest, RowsOk, HcmKeysOk, WarmOk, LandedOk, BooksOk, KeysOk, SectionsOk, Coupled, Fits, After,
      Amounts, Charge,
      Weight, Total, ViewOf, Available, BalanceAt;
    MoveFigures(s, s', i, k, m, k');
    ChargeIsExact(ViewOf(s, i), i, m);
    TotalAfterMove(s, s', i, k, InFlight, k');
  }

  lemma MoveConservesDays(s: State, s': State, i: nat, k: BalanceKey, m: Move, k': BalanceKey)
    requires Inv(s) && Makes(s, s', i, k, m)
    ensures Available(s', k') + Total(s', k', CommittedDays) == Available(s, k') + Total(s, k', CommittedDays)
    ensures Available(s', k') - RowAt(s'.t.balances, k').reserved >= Available(s, k') - RowAt(s.t.balances, k').reserved
  {
    hide Makes, OnlyRequest, RowsOk, HcmKeysOk, WarmOk, LandedOk, BooksOk, KeysOk, SectionsOk, Coupled, Fits, After,
      Amounts,
      Weight, Total, ViewOf, Available, BalanceAt;
    MoveFigures(s, s', i, k, m, k');
    MoveConserves(ViewOf(s, i), i, m);
    TotalAfterMove(s, s', i, k, CommittedDays, k');
  }

  // The figures of a state that differs in sections only, or not at all.
  lemma SameFigures(s: State, s': State, k: BalanceKey)
    requires s'.t.requests == s.t.requests && s'.t.outbox == s.t.outbox
    requires s'.hcm.answers == s.hcm.answers && s'.hcm.effects == s.hcm.effects
    ensures forall m :: Total(s', k, m) == Total(s, k, m)
  {
    forall m ensures Total(s', k, m) == Total(s, k, m) {
      assert Column(s', k, m) == Column(s, k, m);
    }
  }

  // ---- Transactions ------------------------------------------------------------------------------------

  // Steps that overwrite `available` with a figure of HCM's: hydration, the refresh of approve, reconcile.
  predicate Overwrites(s: State, step: Step, k: BalanceKey) {
    match step
    case HydrateStep(k', refresh) => k' == k && k in s.sections && s.sections[k] == Hydrating && refresh.Reached?
    case ApproveStep(id, now, today, refresh) => Snapshots(s, step, k)
    case ReconcileStep(k', _, _) => k' == k && Free(s, k)
    case _ => false
  }

  predicate Snapshots(s: State, step: Step, k: BalanceKey)
    requires step.ApproveStep?
  {
    && step.id < |s.t.requests| && s.t.requests[step.id].key == k && Free(s, k)
    && s.t.requests[step.id].status == Pending
    && s.t.requests[step.id].startDay >= step.today
    && step.refresh.Reached?
  }

  predicate Landed(s: State, id: nat, op: Operation) {
    HcmKey(id, op) in s.hcm.effects
  }

  function DaysOf(s: State, id: nat): int
    requires id < |s.t.requests|
  {
    s.t.requests[id].days
  }

  // A PENDING_SYNC request is dropped although its FILE has landed, or an APPROVED one is reversed although its
  // FILE never did.
  predicate LeavesWrongly(s: State, id: nat, k: BalanceKey, cancel: bool) {
    && id < |s.t.requests| && s.t.requests[id].key == k && Free(s, k)
    && ((s.t.requests[id].status == PendingSync && Landed(s, id, File))
        || (cancel && s.t.requests[id].status == Approved && !Landed(s, id, File)))
  }

  // A first REVERSE reaches an HCM that credits it without a FILE to undo.
  predicate ReversesNothing(s: State, k: BalanceKey, script: seq<Delivery>) {
    && k in s.sections && s.sections[k].Dispatching?
    && var row := s.sections[k].row;
       && row.operation == Reverse && row.aggregateId < |s.t.requests|
       && HcmKey(row.aggregateId, Reverse) !in s.hcm.answers && !Landed(s, row.aggregateId, File)
       && MovesOnReverse(s.hcm, row.payload) && Arrives(script, s.config.maxAttempts)
  }

  // HCM acknowledged a FILE it did not apply ...
  predicate AcksNothing(s: State, k: BalanceKey) {
    && k in s.sections && s.sections[k].Answered?
    && var Answered(o, row, held, result) := s.sections[k];
       && row.operation == File && result.Some? && row.aggregateId < |s.t.requests|
       && !SaveClashes(s.t.requests, row.aggregateId, held) && !Landed(s, row.aggregateId, File)
  }

  // ... or a REVERSE that HCM still owes is given up.
  predicate AbandonsReverse(s: State, k: BalanceKey) {
    && k in s.sections && s.sections[k].Answered?
    && var Answered(o, row, held, result) := s.sections[k];
       && row.operation == Reverse && result.None? && row.aggregateId < |s.t.requests|
       && row.attempts >= s.config.maxAttempts
       && Landed(s, row.aggregateId, File) && !Landed(s, row.aggregateId, Reverse)
  }

  // What a step adds to the drift of k when it does not overwrite k's figure.
  function StepCharge(s: State, step: Step, k: BalanceKey): int {
    match step
    case RejectStep(id) => if LeavesWrongly(s, id, k, false) then DaysOf(s, id) else 0
    case ExpireStep(id) => if LeavesWrongly(s, id, k, false) then DaysOf(s, id) else 0
    case CancelStep(id) => if LeavesWrongly(s, id, k, true) then DaysOf(s, id) else 0
    case CallStep(k', script) =>
      if k' == k && ReversesNothing(s, k, script) then -DaysOf(s, s.sections[k].row.aggregateId) else 0
    case EndStep(k') =>
      if k' == k && AcksNothing(s, k) then -DaysOf(s, s.sections[k].row.aggregateId)
      else if k' == k && AbandonsReverse(s, k) then DaysOf(s, s.sections[k].row.aggregateId)
      else 0
    case OutsideChange(k', delta) => if k' == k then -delta else 0
    case _ => 0
  }

  predicate Transactional(s: State, step: Step) {
    || step.RejectStep? || step.CancelStep? || step.ExpireStep? || step.DecideStep?
    || step.BeginStep? || step.CallStep? || step.EndStep?
    || (step.ApproveStep? && (step.id < |s.t.requests| ==> !Snapshots(s, step, s.t.requests[step.id].key)))
  }

  // The other steps, submit aside, are about balance rows, sections and readers: no request, row or HCM record.
  predicate Clerical(s: State, step: Step) {
    !Transactional(s, step) && !step.SubmitStep?
  }

  ghost predicate SameRecords(s: State, s': State) {
    && s'.t.requests == s.t.requests && s'.t.outbox == s.t.outbox
    && s'.hcm.answers == s.hcm.answers && s'.hcm.effects == s.hcm.effects
  }

  lemma RefreshKeepsRecords(s: State, id: nat, now: int, today: int, refresh: Refresh)
    requires id < |s.t.requests| ==> Snapshots(s, ApproveStep(id, now, today, refresh), s.t.requests[id].key)
    ensures SameRecords(s, DoApprove(s, id, now, today, refresh))
  {
  }

  lemma ReadersKeepRecords(s: State, k: BalanceKey, refresh: Refresh)
    ensures SameRecords(s, DoPeek(s, k)) && SameRecords(s, DoLook(s, k)) && SameRecords(s, DoHydrate(s, k, refresh))
  {
  }

  lemma ClericalKeepsRecords(s: State, step: Step)
    requires Clerical(s, step)
    ensures SameRecords(s, Apply(s, step))
  {
    hide DoSubmit, DoApprove, DoDecide, DoBegin, DoCall, DoEnd, DoPeek, DoLook, DoHydrate, Reject, Cancel, Expire,
      ReconciledRow, ReconcileEvent, RowAt, BalanceAt;
    match step
    case PeekStep(k) => ReadersKeepRecords(s, k, Unreachable);
    case LookStep(k) => ReadersKeepRecords(s, k, Unreachable);
    case HydrateStep(k, refresh) => ReadersKeepRecords(s, k, refresh);
    case ApproveStep(id, now, today, refresh) => RefreshKeepsRecords(s, id, now, today, refresh);
    case _ =>
  }

  lemma ClericalKeepsFigures(s: State, step: Step, k: BalanceKey)
    requires Clerical(s, step) && !Overwrites(s, step, k)
    ensures var (b, b') := (RowAt(s.t.balances, k), RowAt(Apply(s, step).t.balances, k));
            b'.available == b.available && b'.reserved == b.reserved && b'.lastHcmAsOf == b.lastHcmAsOf
  {
    hide DoSubmit, DoDecide, DoBegin, DoCall, DoEnd, Reject, Cancel, Expire, ReconciledRow, ReconcileEvent, Provision,
      BalanceAt, ApplySnapshot;
  }

  lemma ClericalKeepsHcm(s: State, step: Step, k: BalanceKey)
    requires Clerical(s, step) && (step.OutsideChange? ==> step.key != k)
    ensures BalanceAt(Apply(s, step).hcm, k) == BalanceAt(s.hcm, k)
  {
    hide DoSubmit, DoDecide, DoBegin, DoCall, DoEnd, Reject, Cancel, Expire, ReconciledRow, ReconcileEvent, RowAt,
      ApplySnapshot;
  }

  // The step is one move of a request, or leaves tables and HCM alone; the charge to k is the charge of the move.
  ghost predicate Transacts(s: State, step: Step, moved: bool, i: nat, key: BalanceKey, m: Move, k: BalanceKey) {
    && (if moved then Makes(s, Apply(s, step), i, key, m) else Apply(s, step).t == s.t && Apply(s, step).hcm == s.hcm)
    && (moved ==> i < |s.t.requests| && s.t.requests[i].key == key)
    && StepCharge(s, step, k) == if moved && key == k then Charge(ViewOf(s, i), m) else 0
  }

  lemma MakesItsKey(s: State, s': State, i: nat, k: BalanceKey, m: Move)
    requires Makes(s, s', i, k, m)
    ensures i < |s.t.requests| && s.t.requests[i].key == k
  {
  }

  function LeaveTables(t: Tables, id: nat, to: RequestStatus): Tables {
    match to
    case Rejected => Reject(t, id).0
    case Cancelled => Cancel(t, id).0
    case _ => Expire(t, id).0
  }

  lemma LeavesOrStays(t: Tables, id: nat, to: RequestStatus)
    requires to.Terminal() && LeaveTables(t, id, to) == t
    ensures id < |t.requests| ==> t.requests[id].status != Pending && t.requests[id].status != PendingSync
    ensures id < |t.requests| && to == Cancelled ==> t.requests[id].status != Approved
  {
    if id < |t.requests| {
      assert LeaveTables(t, id, to).requests[id].status == t.requests[id].status;
    }
  }

  lemma OnlyCancelUndoes(t: Tables, id: nat, to: RequestStatus)
    requires to.Terminal() && LeaveTables(t, id, to) != t
    ensures id < |t.requests| && (t.requests[id].status == Approved ==> to == Cancelled)
  {
  }

  lemma LeaveTransacts(s: State, step: Step, id: nat, to: RequestStatus, k: BalanceKey)
      returns (moved: bool, key: BalanceKey, m: Move)
    requires Inv(s) && to.Terminal()
    requires Apply(s, step) == Locked(s, id, LeaveTables(s.t, id, to))
    requires StepCharge(s, step, k) == if LeavesWrongly(s, id, k, to == Cancelled) then DaysOf(s, id) else 0
    ensures Transacts(s, step, moved, id, key, m, k)
  {
    hide Inv, Makes, Reject, Cancel, Expire, Apply, StepCharge;
    moved, key, m := false, BalanceKey("", ""), Undone;
    var t' := LeaveTables(s.t, id, to);
    if t' == s.t {
      LeavesOrStays(s.t, id, to);
    } else if id < |s.t.requests| && Free(s, s.t.requests[id].key) {
      OnlyCancelUndoes(s.t, id, to);
      LeaveMakes(s, id, t', to);
      moved, key, m := true, s.t.requests[id].key, LeaveMove(s.t.requests[id], to).value;
    }
  }

  lemma ApproveTransacts(s: State, step: Step, k: BalanceKey) returns (moved: bool, key: BalanceKey, m: Move)
    requires Inv(s) && step.ApproveStep? && Transactional(s, step)
    ensures Transacts(s, step, moved, step.id, key, m, k)
  {
    hide Inv, Makes;
    var ApproveStep(id, now, today, refresh) := step;
    moved, key, m := false, BalanceKey("", ""), Undone;
    if id < |s.t.requests| && Free(s, s.t.requests[id].key) && s.t.requests[id].status == Pending {
      var r := s.t.requests[id];
      IsReady(s, id, r);
      moved, key := true, r.key;
      if r.startDay < today {
        ReleaseMakes(s, id, r, Rejected, false);
        m := Released(Rejected);
      } else {
        CommitMakes(s, id, r, now);
        m := Committed(now);
      }
    }
  }

  lemma CallTransacts(s: State, step: Step, k: BalanceKey) returns (moved: bool, i: nat, m: Move)
    requires Inv(s) && step.CallStep?
    ensures Transacts(s, step, moved, i, step.key, m, k)
  {
    hide Inv, Makes, Explains, Arrives, MovesOnReverse, Send;
    moved, i, m := false, 0, Undone;
    if step.key in s.sections && s.sections[step.key].Dispatching? {
      moved, m := CallStepMakes(s, step.key, step.script);
      i := s.sections[step.key].row.aggregateId;
      if moved {
        MakesItsKey(s, Apply(s, step), i, step.key, m);
      }
    }
  }

  lemma EndTransacts(s: State, step: Step, k: BalanceKey) returns (moved: bool, i: nat, m: Move)
    requires Inv(s) && step.EndStep?
    ensures Transacts(s, step, moved, i, step.key, m, k)
  {
    hide Inv, Makes, DoEnd, SaveClashes;
    moved, i, m := false, 0, Undone;
    if step.key in s.sections && s.sections[step.key].Answered? {
      moved, m := EndStepMakes(s, step.key);
      i := s.sections[step.key].row.aggregateId;
      if moved {
        MakesItsKey(s, Apply(s, step), i, step.key, m);
        AnsweredReverseIsQueued(s, step.key);
      }
    } else {
      EndDoesNothing(s, step.key);
    }
  }

  lemma CallDoesNothing(s: State, k: BalanceKey, script: seq<Delivery>)
    ensures !(k in s.sections && s.sections[k].Dispatching?) ==> DoCall(s, k, script) == s
  {
  }

  lemma EndDoesNothing(s: State, k: BalanceKey)
    requires !(k in s.sections && s.sections[k].Answered?)
    ensures DoEnd(s, k) == s
  {
  }

  lemma AnsweredReverseIsQueued(s: State, k: BalanceKey)
    requires Inv(s) && k in s.sections && s.sections[k].Answered?
    ensures s.sections[k].row.aggregateId < |s.t.requests|
    ensures s.sections[k].row.operation == Reverse ==> ReverseQueued(ViewOf(s, s.sections[k].row.aggregateId))
  {
    hide BooksOk, KeysOk, WarmOk, LandedOk;
    assert SectionOk(s, k, s.sections[k]);
    QueuedRowOf(s, s.sections[k].rowId);
  }

  lemma StepTransacts(s: State, step: Step, k: BalanceKey) returns (moved: bool, i: nat, key: BalanceKey, m: Move)
    requires Inv(s) && Transactional(s, step)
    ensures Transacts(s, step, moved, i, key, m, k)
  {
    hide Inv, Makes, Reject, Cancel, Expire, LeavesWrongly, ReversesNothing, AcksNothing, AbandonsReverse, DoCall,
      DoEnd;
    moved, i, key, m := false, 0, BalanceKey("", ""), Undone;
    match step
    case RejectStep(id) => i := id; moved, key, m := LeaveTransacts(s, step, id, Rejected, k);
    case CancelStep(id) => i := id; moved, key, m := LeaveTransacts(s, step, id, Cancelled, k);
    case ExpireStep(id) => i := id; moved, key, m := LeaveTransacts(s, step, id, Expired, k);
    case ApproveStep(id, _, _, _) => i := id; moved, key, m := ApproveTransacts(s, step, k);
    case DecideStep(k', now) =>
      if DoDecide(s, k', now) != s {
        DecideMakes(s, k', now);
        moved, i, key, m := true, s.sections[k'].id, k', DecideMove(s, k', now);
        MakesItsKey(s, DoDecide(s, k', now), i, key, m);
      }
    case BeginStep(o) =>
      if DoBegin(s, o) != s {
        var p := BeginStepMakes(s, o);
        moved, i, key, m := true, s.t.outbox[o].aggregateId, s.t.requests[s.t.outbox[o].aggregateId].key, Counted(p);
      }
    case CallStep(k', _) => key := k'; moved, i, m := CallTransacts(s, step, k);
    case EndStep(k') => key := k'; moved, i, m := EndTransacts(s, step, k);
  }

  // ---- The drift law ------------------------------------------------------------------------------------

  // The figure an overwriting step leaves, as a drift.
  function DriftSet(s: State, step: Step, k: BalanceKey): int
  {
    match step
    case ReconcileStep(_, value, asOf) => value - SnapshotAt(s, k, asOf) + Total(s, k, ReplayError(asOf))
    case _ => Total(s, k, InFlight)
  }

  function DriftAfter(s: State, step: Step, k: BalanceKey): int {
    if Overwrites(s, step, k) then DriftSet(s, step, k) else Drift(s, k) + StepCharge(s, step, k)
  }

  // A submit adds a PENDING request, which weighs on no figure but `reserved`.
  lemma AdmitFigures(s: State, sub: Submission, existing: Option<nat>, days: nat, k: BalanceKey)
    requires RowsOk(s) && HcmKeysOk(s)
    requires existing.Some? ==> existing.value < |s.t.requests|
    requires Admit(s.t, sub, existing, days, s.config.ttl).1.Accepted?
    ensures var s' := s.(t := Admit(s.t, sub, existing, days, s.config.ttl).0);
            && Available(s', k) == Available(s, k)
            && forall m :: m != PendingDays ==> Total(s', k, m) == Total(s, k, m)
  {
    hide Total, RetiredKey;
    var s' := s.(t := Admit(s.t, sub, existing, days, s.config.ttl).0);
    AdmitViews(s, sub, existing, days);
    forall m | m != PendingDays ensures Total(s', k, m) == Total(s, k, m) {
      TotalAfterAdmit(s, s', m, k);
    }
  }

  lemma SubmitFigures(s: State, sub: Submission, k: BalanceKey)
    requires Inv(s)
    ensures DoSubmit(s, sub).hcm == s.hcm && Available(DoSubmit(s, sub), k) == Available(s, k)
    ensures forall m :: m != PendingDays ==> Total(DoSubmit(s, sub), k, m) == Total(s, k, m)
    ensures Drift(DoSubmit(s, sub), k) == Drift(s, k)
  {
    hide Admit, RequestsOk, WarmOk, LandedOk, BooksOk, KeysOk, SectionsOk, Total;
    if DoSubmit(s, sub).t == s.t {
      SameFigures(s, DoSubmit(s, sub), k);
    } else {
      var Proceed(existing, days) := Screen(s.t.requests, sub);
      AdmitFigures(s, sub, existing, days, k);
    }
  }

  // Reconcile's sums are totals over the requests.
  lemma ReversalColumnAppend(requests: seq<Request>, outbox: seq<OutboxRow>, row: OutboxRow, k: BalanceKey)
    ensures Sum(ReversalColumn(requests, outbox + [row], k)) ==
        Sum(ReversalColumn(requests, outbox, k)) + ReversalDays(requests, row, k)
  {
    assert ReversalColumn(requests, outbox + [row], k) ==
      ReversalColumn(requests, outbox, k) + [ReversalDays(requests, row, k)];
    SumAppend(ReversalColumn(requests, outbox, k), ReversalDays(requests, row, k));
  }

  lemma AggregateAppend(requests: seq<Request>, outbox: seq<OutboxRow>, row: OutboxRow, k: BalanceKey)
    requires row.aggregateId < |requests|
    ensures Sum(AggregateColumn(requests, outbox + [row], k)) ==
        Sum(AggregateColumn(requests, outbox, k)) + ReversalDays(requests, row, k)
  {
    hide ReversalDays;
    var before, id, d := AggregateColumn(requests, outbox, k), row.aggregateId, ReversalDays(requests, row, k);
    forall j | 0 <= j < |requests|
      ensures Sum(ReversalColumn(requests, RowsOf(outbox + [row], j), k)) == before[j] + if j == id then d else 0
    {
      RowsAfterAppend(outbox, row, j);
      ReversalColumnAppend(requests, RowsOf(outbox, j), row, k);
      assert RowsOf(outbox, j) + [] == RowsOf(outbox, j);
    }
    assert AggregateColumn(requests, outbox + [row], k) == before[id := before[id] + d];
    SumUpdate(before, id, before[id] + d);
  }

  // Summing over the join of outbox rows with requests is summing, request by request, over its rows.
  lemma {:induction false} JoinByAggregate(requests: seq<Request>, outbox: seq<OutboxRow>, k: BalanceKey)
    requires forall o :: 0 <= o < |outbox| ==> outbox[o].aggregateId < |requests|
    ensures Sum(ReversalColumn(requests, outbox, k)) == Sum(AggregateColumn(requests, outbox, k))
  {
    hide ReversalDays;
    if outbox == [] {
      SumZero(AggregateColumn(requests, outbox, k));
    } else {
      var n := |outbox| - 1;
      JoinByAggregate(requests, outbox[..n], k);
      assert outbox == outbox[..n] + [outbox[n]];
      ReversalColumnAppend(requests, outbox[..n], outbox[n], k);
      AggregateAppend(requests, outbox[..n], outbox[n], k);
    }
  }

  function AggregateColumn(requests: seq<Request>, outbox: seq<OutboxRow>, k: BalanceKey): seq<int> {
    seq(|requests|, i requires 0 <= i < |requests| => Sum(ReversalColumn(requests, RowsOf(outbox, i), k)))
  }

  lemma CreditOfOneRequest(s: State, i: nat, k: BalanceKey)
    requires i < |s.t.requests| && Coupled(ViewOf(s, i), i)
    ensures Sum(ReversalColumn(s.t.requests, RowsOf(s.t.outbox, i), k)) == Share(s, k, ReplayedCredit, i)
  {
    var rows := RowsOf(s.t.outbox, i);
    assert rows == ViewOf(s, i).rows;
    if |rows| == 1 {
      ReversalColumnAppend(s.t.requests, [], rows[0], k);
      assert rows == [] + [rows[0]];
    } else if |rows| == 2 {
      ReversalColumnAppend(s.t.requests, [], rows[0], k);
      ReversalColumnAppend(s.t.requests, [rows[0]], rows[1], k);
      assert [rows[0]] == [] + [rows[0]];
      assert rows == [rows[0]] + [rows[1]];
    }
  }

  lemma ReconcileSums(s: State, k: BalanceKey, asOf: int)
    requires RequestsOk(s) && RowsOk(s)
    ensures Sum(UnackedColumn(s.t.requests, k, asOf)) == Total(s, k, ReplayedDebit(asOf))
    ensures Sum(ReversalColumn(s.t.requests, s.t.outbox, k)) == Total(s, k, ReplayedCredit)
  {
    assert UnackedColumn(s.t.requests, k, asOf) == Column(s, k, ReplayedDebit(asOf));
    JoinByAggregate(s.t.requests, s.t.outbox, k);
    forall i | 0 <= i < |s.t.requests|
      ensures AggregateColumn(s.t.requests, s.t.outbox, k)[i] == Column(s, k, ReplayedCredit)[i]
    {
      CreditOfOneRequest(s, i, k);
    }
    assert AggregateColumn(s.t.requests, s.t.outbox, k) == Column(s, k, ReplayedCredit);
  }

  lemma ReplayErrorOfOneRequest(s: State, k: BalanceKey, asOf: int, i: nat)
    requires i < |s.t.requests|
    ensures Share(s, k, ReplayError(asOf), i) + Share(s, k, ReplayedDebit(asOf), i)
         == Share(s, k, PostedAfter(asOf), i) + Share(s, k, ReplayedCredit, i) + Share(s, k, InFlight, i)
  {
  }

  lemma ReplayErrorSplits(s: State, k: BalanceKey, asOf: int)
    ensures Total(s, k, ReplayError(asOf))
         == Total(s, k, PostedAfter(asOf)) - Total(s, k, ReplayedDebit(asOf)) + Total(s, k, ReplayedCredit) +
             Total(s, k, InFlight)
  {
    hide Weight, ViewOf, Sum;
    var posted, debit := Column(s, k, PostedAfter(asOf)), Column(s, k, ReplayedDebit(asOf));
    var credit, flight, error := Column(s, k, ReplayedCredit), Column(s, k, InFlight), Column(s, k, ReplayError(asOf));
    var n := |s.t.requests|;
    var a := seq(n, i requires 0 <= i < n => posted[i] + credit[i]);
    var b := seq(n, i requires 0 <= i < n => a[i] + flight[i]);
    SumPlus(posted, credit, a);
    SumPlus(a, flight, b);
    forall i | 0 <= i < n ensures b[i] == error[i] + debit[i] {
      ReplayErrorOfOneRequest(s, k, asOf, i);
    }
    SumPlus(error, debit, b);
  }

  lemma ReconcileDrift(s: State, k: BalanceKey, value: int, asOf: int, k': BalanceKey)
    requires Inv(s) && Free(s, k)
    ensures Drift(Apply(s, ReconcileStep(k, value, asOf)), k') == DriftAfter(s, ReconcileStep(k, value, asOf), k')
  {
    hide RequestsOk, RowsOk, HcmKeysOk, WarmOk, LandedOk, BooksOk, KeysOk, SectionsOk, Total, UnackedColumn,
      ReversalColumn, ReservedColumn, Sum;
    var s' := Apply(s, ReconcileStep(k, value, asOf));
    SameFigures(s, s', k');
    ReconcileSums(s, k, asOf);
    ReplayErrorSplits(s, k, asOf);
  }

  lemma SnapshotDrift(s: State, k: BalanceKey, asOf: int, k': BalanceKey)
    ensures Drift(TakeSnapshot(s, k, asOf), k') == if k == k' then Total(s, k, InFlight) else Drift(s, k')
  {
    SameFigures(s, TakeSnapshot(s, k, asOf), k');
  }

  lemma HydrateDrift(s: State, k: BalanceKey, refresh: Refresh, k': BalanceKey)
    ensures Drift(DoHydrate(s, k, refresh), k')
         == if k == k' && k in s.sections && s.sections[k] == Hydrating && refresh.Reached? then Total(s, k, InFlight)
             else Drift(s, k')
  {
    hide Total, TakeSnapshot, Drift;
    var s' := DoHydrate(s, k, refresh);
    if k in s.sections && s.sections[k] == Hydrating && refresh.Reached? {
      SnapshotDrift(s, k, refresh.asOf, k');
      SectionsAreNoFigures(TakeSnapshot(s, k, refresh.asOf), s', k');
    } else {
      SectionsAreNoFigures(s, s', k');
    }
  }

  lemma SectionsAreNoFigures(s: State, s': State, k: BalanceKey)
    requires s'.t == s.t && s'.hcm == s.hcm
    ensures Drift(s', k) == Drift(s, k)
  {
    SameFigures(s, s', k);
  }

  // Every step, on every balance, moves the drift by its charge or sets it, and by nothing else.
  lemma StepDrift(s: State, step: Step, k: BalanceKey)
    requires Inv(s)
    ensures Drift(Apply(s, step), k) == DriftAfter(s, step, k)
  {
    hide Inv, Drift, Apply, DriftSet, LeavesWrongly, ReversesNothing, AcksNothing, AbandonsReverse;
    if Transactional(s, step) {
      TransactDrift(s, step, k);
    } else if step.SubmitStep? {
      SubmitDrift(s, step, k);
    } else if Overwrites(s, step, k) {
      OverwriteDrift(s, step, k);
    } else {
      ClericalDrift(s, step, k);
    }
  }

  lemma TransactDrift(s: State, step: Step, k: BalanceKey)
    requires Inv(s) && Transactional(s, step)
    ensures Drift(Apply(s, step), k) == Drift(s, k) + StepCharge(s, step, k)
  {
    hide Inv, Drift, Makes, Apply, StepCharge, Transactional, Charge;
    var moved, i, key, m := StepTransacts(s, step, k);
    if moved {
      MoveDrift(s, Apply(s, step), i, key, m, k);
    } else {
      SectionsAreNoFigures(s, Apply(s, step), k);
    }
  }

  lemma SubmitDrift(s: State, step: Step, k: BalanceKey)
    requires Inv(s) && step.SubmitStep?
    ensures Drift(Apply(s, step), k) == Drift(s, k)
  {
    hide Inv, DoSubmit, Drift;
    SubmitFigures(s, step.sub, k);
  }

  lemma OverwriteDrift(s: State, step: Step, k: BalanceKey)
    requires Inv(s) && Overwrites(s, step, k)
    ensures Drift(Apply(s, step), k) == DriftSet(s, step, k)
  {
    hide Inv, Drift, Total, SnapshotAt, DoSubmit, DoApprove, DoDecide, DoBegin, DoCall, DoEnd, DoHydrate, Reject,
      Cancel,
      Expire, Lifecycle.Reconcile;
    match step
    case HydrateStep(_, refresh) => HydrateDrift(s, k, refresh, k);
    case ApproveStep(_, _, _, _) => ApproveDrift(s, step, k);
    case ReconcileStep(_, value, asOf) => ReconcileDrift(s, k, value, asOf, k);
  }

  lemma ClericalDrift(s: State, step: Step, k: BalanceKey)
    requires Clerical(s, step) && !Overwrites(s, step, k)
    ensures Drift(Apply(s, step), k) == Drift(s, k) - if step.OutsideChange? && step.key == k then step.delta else 0
  {
    hide Apply, Total;
    ClericalKeepsRecords(s, step);
    ClericalKeepsFigures(s, step, k);
    SameFigures(s, Apply(s, step), k);
    if step.OutsideChange? && step.key == k {
      OutsideDrift(s, k, step.delta, k);
    } else {
      ClericalKeepsHcm(s, step, k);
    }
  }

  lemma OutsideDrift(s: State, k: BalanceKey, delta: int, k': BalanceKey)
    ensures Drift(Apply(s, OutsideChange(k, delta)), k') == Drift(s, k') - IfSame(k, k', delta)
  {
    hide Weight;
    var s' := Apply(s, OutsideChange(k, delta));
    TotalOfSameViews(s, s', InFlight, k');
  }

  lemma ApproveDrift(s: State, step: Step, k: BalanceKey)
    requires step.ApproveStep? && Snapshots(s, step, k)
    ensures Drift(Apply(s, step), k) == Total(s, k, InFlight)
  {
    hide Total, Provision, ApplySnapshot;
    var s1 := TakeSnapshot(s, k, step.refresh.asOf);
    SnapshotDrift(s, k, step.refresh.asOf, k);
    SameFigures(s1, Apply(s, step), k);
  }
}
