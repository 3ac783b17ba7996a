// The whole service as a state machine: the tables, the HCM, and who is half-way through a critical section of
// the per-balance lock.
//
// A step is what runs between two points where another actor or a crash can come in. Approve is two steps
// (refresh, then decide), a dispatch is three (transaction 1, HCM call, transaction 2); the entity objects a
// half-way actor has already loaded live in its `Section`. A step whose lock is taken, or that the source
// refuses, leaves the state as it is, so every sequence of steps is a run.
module Machine {
  import opened Entities
  import opened MockHcm
  import opened HcmCall
  import opened Lifecycle

  datatype Section =
    | Refreshed(id: nat, held: Request)
    | Dispatching(rowId: nat, row: OutboxRow, held: Request)
    | Answered(rowId: nat, row: OutboxRow, held: Request, result: Option<int>)
    | SelfWait // the holder waits for the lock it holds
    | Hydrating // getBalance has looked again under the lock and still finds the balance cold

  datatype Config = Config(maxAttempts: nat, ttl: int)

  // `readers` are the calls of getBalance that found their balance cold and now wait for its lock.
  datatype State = State(
    t: Tables, hcm: Hcm, sections: map<BalanceKey, Section>, readers: multiset<BalanceKey>, config: Config)

  datatype Refresh = Reached(asOf: int) | Unreachable

  datatype Step =
    | PeekStep(key: BalanceKey)
    | LookStep(key: BalanceKey)
    | HydrateStep(key: BalanceKey, refresh: Refresh)
    | SubmitStep(sub: Submission)
    | ApproveStep(id: nat, now: int, today: int, refresh: Refresh)
    | DecideStep(key: BalanceKey, now: int)
    | RejectStep(id: nat)
    | CancelStep(id: nat)
    | ExpireStep(id: nat)
    | BeginStep(rowId: nat)
    | CallStep(key: BalanceKey, script: seq<Delivery>)
    | EndStep(key: BalanceKey)
    | ReconcileStep(key: BalanceKey, value: int, asOf: int)
    | ResolveReview(key: BalanceKey)
    | OutsideChange(key: BalanceKey, delta: int)
    | Abort(key: BalanceKey)
    | Crash

  predicate Free(s: State, k: BalanceKey) {
    k !in s.sections
  }

  predicate Warm(t: Tables, k: BalanceKey) {
    k in t.balances && t.balances[k].lastHcmAsOf.Some?
  }

  function Enter(s: State, k: BalanceKey, section: Section): State {
    s.(sections := s.sections[k := section])
  }

  function Leave(s: State, k: BalanceKey): State {
    s.(sections := s.sections - {k})
  }

  // GET /hcm/balance followed by applyHcmSnapshot.
  function TakeSnapshot(s: State, k: BalanceKey, asOf: int): State {
    var b := ApplySnapshot(RowAt(s.t.balances, k), BalanceAt(s.hcm, k), asOf);
    s.(hcm := Provision(s.hcm, k), t := SetBalance(s.t, k, b))
  }

  // getBalance: a look without the lock, which settles a warm balance ...
  function DoPeek(s: State, k: BalanceKey): State {
    if Warm(s.t, k) then s else s.(readers := s.readers + multiset{k})
  }

  // ... a second look under the lock, by when another reader may have hydrated it ...
  function DoLook(s: State, k: BalanceKey): State {
    if k !in s.readers || !Free(s, k) then s
    else
      var s' := s.(readers := s.readers - multiset{k});
      if Warm(s.t, k) then s' else Enter(s', k, Hydrating)
  }

  // ... and the HCM read. When HCM cannot be reached the answer is a zero row that is not stored.
  function DoHydrate(s: State, k: BalanceKey, refresh: Refresh): State {
    if Free(s, k) || s.sections[k] != Hydrating then s
    else if refresh.Reached? then Leave(TakeSnapshot(s, k, refresh.asOf), k)
    else Leave(s, k)
  }

  // The three without interruption.
  function Read(s: State, k: BalanceKey, refresh: Refresh): State {
    if Warm(s.t, k) || !Free(s, k) || refresh.Unreachable? then s else TakeSnapshot(s, k, refresh.asOf)
  }

  // submit reads the balance again while it holds the lock: on a cold row that read asks for the same lock.
  predicate SubmitBlocksItself(s: State, sub: Submission) {
    Screen(s.t.requests, sub).Proceed? && !Warm(s.t, sub.key)
  }

  function DoSubmit(s: State, sub: Submission): State {
    if !Free(s, sub.key) then s
    else if SubmitBlocksItself(s, sub) then Enter(s, sub.key, SelfWait)
    else s.(t := Submit(s.t, sub, s.config.ttl).0)
  }

  function DoApprove(s: State, id: nat, now: int, today: int, refresh: Refresh): State {
    if id >= |s.t.requests| || !Free(s, s.t.requests[id].key) || s.t.requests[id].status != Pending then s
    else
      var r := s.t.requests[id];
      if r.startDay < today then s.(t := ReleaseAs(s.t, id, r, Rejected))
      else
        match refresh
        case Unreachable => s.(t := CommitForSync(s.t, id, r, now))
        case Reached(asOf) => Enter(TakeSnapshot(s, r.key, asOf), r.key, Refreshed(id, r))
  }

  function DoDecide(s: State, k: BalanceKey, now: int): State {
    if Free(s, k) || !s.sections[k].Refreshed? || s.sections[k].id >= |s.t.requests| then s
    else
      var Refreshed(id, held) := s.sections[k];
      var t' := if Covers(RowAt(s.t.balances, k), held.days) then CommitForSync(s.t, id, held, now)
                else ReleaseAs(s.t, id, held, Rejected);
      Leave(s.(t := t'), k)
  }

  // A transaction of one request under its lock.
  function Locked(s: State, id: nat, t': Tables): State {
    if id < |s.t.requests| && Free(s, s.t.requests[id].key) then s.(t := t') else s
  }

  function DoBegin(s: State, o: nat): State {
    if o >= |s.t.outbox| || s.t.outbox[o].aggregateId >= |s.t.requests|
       || !Free(s, s.t.requests[s.t.outbox[o].aggregateId].key) then s
    else
      match BeginDispatch(s.t, o)
      case (t', None) => s.(t := t')
      case (t', Some((row, held))) => Enter(s.(t := t'), held.key, Dispatching(o, row, held))
  }

  function DoCall(s: State, k: BalanceKey, script: seq<Delivery>): State {
    if Free(s, k) || !s.sections[k].Dispatching? then s
    else
      var Dispatching(o, row, held) := s.sections[k];
      var (h', result) := Send(s.hcm, row.payload, row.operation, script, s.config.maxAttempts);
      Enter(s.(hcm := h'), k, Answered(o, row, held, result))
  }

  function DoEnd(s: State, k: BalanceKey): State {
    if Free(s, k) || !s.sections[k].Answered? then s
    else
      var Answered(o, row, held, result) := s.sections[k];
      if o >= |s.t.outbox| || row.aggregateId >= |s.t.requests| then s
      else Leave(s.(t := EndDispatch(s.t, o, row, held, result, s.config.maxAttempts)), k)
  }

  function Apply(s: State, step: Step): State {
    match step
    case PeekStep(k) => DoPeek(s, k)
    case LookStep(k) => DoLook(s, k)
    case HydrateStep(k, refresh) => DoHydrate(s, k, refresh)
    case SubmitStep(sub) => DoSubmit(s, sub)
    case ApproveStep(id, now, today, refresh) => DoApprove(s, id, now, today, refresh)
    case DecideStep(k, now) => DoDecide(s, k, now)
    case RejectStep(id) => Locked(s, id, Reject(s.t, id).0)
    case CancelStep(id) => Locked(s, id, Cancel(s.t, id).0)
    case ExpireStep(id) => Locked(s, id, Expire(s.t, id).0)
    case BeginStep(o) => DoBegin(s, o)
    case CallStep(k, script) => DoCall(s, k, script)
    case EndStep(k) => DoEnd(s, k)
    case ReconcileStep(k, value, asOf) => if Free(s, k) then s.(t := Lifecycle.Reconcile(s.t, k, value, asOf)) else s
    case ResolveReview(k) =>
      if Free(s, k) then s.(t := SetBalance(s.t, k, RowAt(s.t.balances, k).(needsReview := false))) else s
    case OutsideChange(k, delta) => s.(hcm := s.hcm.(balances := s.hcm.balances[k := BalanceAt(s.hcm, k) + delta]))
    // An exception leaves the critical section of k; a section that waits for itself gets no further.
    case Abort(k) => if k in s.sections && s.sections[k] != SelfWait then Leave(s, k) else s
    case Crash => s.(sections := map[], readers := multiset{})
  }

  function Run(s: State, steps: seq<Step>): State
    decreases |steps|
  {
    if steps == [] then s else Run(Apply(s, steps[0]), steps[1..])
  }

  // A fresh database beside any HCM that has not yet heard from this service.
  predicate Initial(s: State) {
    && s.t == Tables([], [], map[], [], [])
    && s.sections == map[]
    && s.readers == multiset{}
    && s.hcm.answers == map[]
    && s.hcm.effects == map[]
  }

  // Apply, case by case, for proofs about one kind of step.
  lemma ReaderStepsAre(s: State, k: BalanceKey, refresh: Refresh)
    ensures Apply(s, PeekStep(k)) == DoPeek(s, k) && Apply(s, LookStep(k)) == DoLook(s, k)
    ensures Apply(s, HydrateStep(k, refresh)) == DoHydrate(s, k, refresh)
  {
  }

  lemma SubmitStepIs(s: State, sub: Submission)
    ensures Apply(s, SubmitStep(sub)) == DoSubmit(s, sub)
  {
  }

  lemma ApproveStepIs(s: State, id: nat, now: int, today: int, refresh: Refresh)
    ensures Apply(s, ApproveStep(id, now, today, refresh)) == DoApprove(s, id, now, today, refresh)
  {
  }

  lemma DecideStepIs(s: State, k: BalanceKey, now: int)
    ensures Apply(s, DecideStep(k, now)) == DoDecide(s, k, now)
  {
  }

  lemma CancelStepIs(s: State, id: nat)
    ensures Apply(s, CancelStep(id)) == Locked(s, id, Cancel(s.t, id).0)
  {
  }

  lemma ReconcileStepIs(s: State, k: BalanceKey, value: int, asOf: int)
    ensures Apply(s, ReconcileStep(k, value, asOf))
         == if Free(s, k) then s.(t := Lifecycle.Reconcile(s.t, k, value, asOf)) else s
  {
  }

  lemma AbortIs(s: State, k: BalanceKey)
    ensures Apply(s, Abort(k)) == if k in s.sections && s.sections[k] != SelfWait then Leave(s, k) else s
  {
  }

  lemma CrashIs(s: State)
    ensures Apply(s, Crash) == s.(sections := map[], readers := multiset{})
  {
  }

  lemma BeginStepIs(s: State, o: nat)
    ensures Apply(s, BeginStep(o)) == DoBegin(s, o)
  {
  }

  lemma CallStepIs(s: State, k: BalanceKey, script: seq<Delivery>)
    ensures Apply(s, CallStep(k, script)) == DoCall(s, k, script)
  {
  }

  lemma EndStepIs(s: State, k: BalanceKey)
    ensures Apply(s, EndStep(k)) == DoEnd(s, k)
  {
  }

  lemma ReadIsThreeSteps(s: State, k: BalanceKey, refresh: Refresh)
    requires Free(s, k)
    ensures Read(s, k, refresh) == if Warm(s.t, k) then DoPeek(s, k) else DoHydrate(DoLook(DoPeek(s, k), k), k, refresh)
  {
    assert s.readers + multiset{k} - multiset{k} == s.readers;
    assert s.sections[k := Hydrating] - {k} == s.sections;
  }
}
