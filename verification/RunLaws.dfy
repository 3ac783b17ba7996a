// Conservation of days, terminal states, hydration and the dispatcher's captured entities, over whole runs.
module RunLaws {
  import opened Entities
  import opened OutboxTable
  import opened MockHcm
  import opened HcmCall
  import opened Lifecycle
  import opened Machine
  import opened Automaton
  import opened Refinement
  import opened Invariant
  import opened Agreement

  // ---- Conservation -------------------------------------------------------------------------------------

  // The days of a balance: what is available and what its approved requests have taken.
  function Entitlement(s: State, k: BalanceKey): int {
    Available(s, k) + Total(s, k, CommittedDays)
  }

  predicate Solvent(s: State, k: BalanceKey) {
    RowAt(s.t.balances, k).reserved <= Available(s, k)
  }

  lemma AdmitStaysSolvent(s: State, sub: Submission, k: BalanceKey)
    requires Solvent(s, k)
    ensures Solvent(DoSubmit(s, sub), k)
  {
    hide Screen, Retire, RetiredKeyTaken;
  }

  // No step but one that takes over a figure of HCM's makes or loses a day, or reserves more than there is.
  lemma StepConserves(s: State, step: Step, k: BalanceKey)
    requires Inv(s) && !Overwrites(s, step, k)
    ensures Entitlement(Apply(s, step), k) == Entitlement(s, k)
    ensures Solvent(s, k) ==> Solvent(Apply(s, step), k)
  {
    hide Inv, Makes, Submit, Screen, DoSubmit, Total, Apply, StepCharge, Snapshots;
    var s' := Apply(s, step);
    if Transactional(s, step) {
      var moved, i, key, m := StepTransacts(s, step, k);
      if moved {
        MoveConservesDays(s, s', i, key, m, k);
      } else {
        SameFigures(s, s', k);
      }
    } else {
      OtherStepConserves(s, step, k);
    }
  }

  lemma OtherStepConserves(s: State, step: Step, k: BalanceKey)
    requires Inv(s) && !Overwrites(s, step, k) && !Transactional(s, step)
    ensures Entitlement(Apply(s, step), k) == Entitlement(s, k)
    ensures Solvent(s, k) ==> Solvent(Apply(s, step), k)
  {
    hide Inv, DoSubmit, Total;
    if step.SubmitStep? {
      SubmitFigures(s, step.sub, k);
      if Solvent(s, k) {
        AdmitStaysSolvent(s, step.sub, k);
      }
    } else {
      hide Apply;
      ClericalKeepsRecords(s, step);
      ClericalKeepsFigures(s, step, k);
      SameFigures(s, Apply(s, step), k);
    }
  }

  ghost predicate NoOverwrite(s: State, steps: seq<Step>, k: BalanceKey)
    decreases |steps|
  {
    steps == [] || (!Overwrites(s, steps[0], k) && NoOverwrite(Apply(s, steps[0]), steps[1..], k))
  }

  lemma {:induction false} RunConserves(s: State, steps: seq<Step>, k: BalanceKey)
    requires Inv(s) && NoOverwrite(s, steps, k)
    ensures Entitlement(Run(s, steps), k) == Entitlement(s, k)
    ensures Solvent(s, k) ==> Solvent(Run(s, steps), k)
    decreases |steps|
  {
    hide Inv, Apply, Entitlement, Solvent, Overwrites;
    if steps != [] {
      StepKeepsInv(s, steps[0]);
      StepConserves(s, steps[0], k);
      RunConserves(Apply(s, steps[0]), steps[1..], k);
    }
  }

  // The floors of release and commit never clip: a PENDING request's days are always in `reserved`.
  lemma FloorsNeverClip(s: State, id: nat)
    requires Inv(s) && id < |s.t.requests| && s.t.requests[id].status == Pending
    ensures var r := s.t.requests[id];
            var b := RowAt(s.t.balances, r.key);
            Release(b, r.days).reserved == b.reserved - r.days && Commit(b, r.days).reserved == b.reserved - r.days
  {
    PendingIsReserved(s, id);
  }

  // An approve that refreshed and went through leaves enough for every other reservation and once more for its
  // own days, which the check counted twice; it refuses although the balance would do in the gap between.
  lemma DecideCountsItselfTwice(s: State, k: BalanceKey, now: int)
    requires Inv(s) && k in s.sections && s.sections[k].Refreshed?
    ensures var id := s.sections[k].id;
            var days := s.sections[k].held.days;
            var s' := DoDecide(s, k, now);
            && id < |s'.t.requests|
            && (s'.t.requests[id].status == PendingSync <==> Available(s, k) - RowAt(s.t.balances, k).reserved >= days)
            && (s'.t.requests[id].status == PendingSync ==> Available(s', k) >= RowAt(s'.t.balances, k).reserved + days)
            && (s'.t.requests[id].status == PendingSync || s'.t.requests[id].status == Rejected)
  {
    hide RequestsOk, RowsOk, HcmKeysOk, WarmOk, LandedOk, KeysOk;
    assert SectionOk(s, k, s.sections[k]);
    PendingIsReserved(s, s.sections[k].id);
  }

  // ---- Terminal states ----------------------------------------------------------------------------------

  // What a request can no longer lose once it is terminal, and never changes at all.
  ghost predicate Settled(s: State, s': State, i: nat) {
    && i < |s.t.requests| <= |s'.t.requests|
    && s'.t.requests[i].key == s.t.requests[i].key
    && s'.t.requests[i].days == s.t.requests[i].days
    && s'.t.requests[i].startDay == s.t.requests[i].startDay
    && s'.t.requests[i].endDay == s.t.requests[i].endDay
    && s'.t.requests[i].expiresAt == s.t.requests[i].expiresAt
    && (s.t.requests[i].status.Terminal() ==> s'.t.requests[i].status == s.t.requests[i].status)
  }

  lemma MoveKeepsIdentity(v: View, id: nat, m: Move)
    requires Fits(v, m)
    ensures var (r, r') := (v.req, After(v, id, m).req);
            && r'.key == r.key && r'.days == r.days && r'.startDay == r.startDay && r'.endDay == r.endDay
            && r'.expiresAt == r.expiresAt
  {
  }

  lemma MoveSettles(s: State, s': State, j: nat, k: BalanceKey, m: Move, i: nat)
    requires Inv(s) && Makes(s, s', j, k, m) && i < |s.t.requests|
    ensures Settled(s, s', i)
  {
    hide RowsOk, HcmKeysOk, WarmOk, LandedOk, BooksOk, KeysOk, SectionsOk, Amounts, Coupled, Fits, After, RowsOf,
      BalanceAt, RowAt;
    if i == j {
      MoveKeepsIdentity(ViewOf(s, i), i, m);
      if s.t.requests[i].status.Terminal() {
        TerminalIsAbsorbing(ViewOf(s, i), i, m);
      }
      assert ViewOf(s', i).req == Bare(s'.t.requests[i]);
      assert ViewOf(s, i).req == Bare(s.t.requests[i]);
    }
  }

  lemma StepSettles(s: State, step: Step, i: nat)
    requires Inv(s) && i < |s.t.requests|
    ensures Settled(s, Apply(s, step), i)
  {
    hide Inv, Makes, Apply, StepCharge, Snapshots, Settled;
    if Transactional(s, step) {
      var moved, j, key, m := StepTransacts(s, step, BalanceKey("", ""));
      if moved {
        MoveSettles(s, Apply(s, step), j, key, m, i);
      } else {
        SameSettles(s, Apply(s, step), i);
      }
    } else {
      OtherStepSettles(s, step, i);
    }
  }

  lemma SameSettles(s: State, s': State, i: nat)
    requires i < |s.t.requests| && s'.t.requests == s.t.requests
    ensures Settled(s, s', i)
  {
  }

  lemma OtherStepSettles(s: State, step: Step, i: nat)
    requires Inv(s) && i < |s.t.requests| && !Transactional(s, step)
    ensures Settled(s, Apply(s, step), i)
  {
    hide Inv, ReconciledRow, ReconcileEvent, Admit, Settled;
    match step
    case SubmitStep(sub) => SubmitSettles(s, sub, i);
    case _ => SameSettles(s, Apply(s, step), i);
  }

  lemma SubmitSettles(s: State, sub: Submission, i: nat)
    requires i < |s.t.requests|
    ensures Settled(s, DoSubmit(s, sub), i)
  {
    hide WorkDays.WorkingDays, RetiredKey;
  }

  // Over any run: the key, dates, days and deadline of a request never change, and a terminal status is for good.
  lemma {:induction false} RunSettles(s: State, steps: seq<Step>, i: nat)
    requires Inv(s) && i < |s.t.requests|
    ensures Settled(s, Run(s, steps), i)
    decreases |steps|
  {
    hide Inv, Apply;
    if steps != [] {
      StepKeepsInv(s, steps[0]);
      StepSettles(s, steps[0], i);
      RunSettles(Apply(s, steps[0]), steps[1..], i);
    }
  }

  // Whenever a FILE is about to be posted its request is PENDING_SYNC, and a REVERSE only follows a terminal
  // status: no post goes out for a request that has moved on.
  lemma PostsMatchStatus(s: State, k: BalanceKey)
    requires Inv(s) && k in s.sections && (s.sections[k].Dispatching? || s.sections[k].Answered?)
    ensures var row := s.sections[k].row;
            && row.aggregateId < |s.t.requests|
            && (var (c, r) := (row.payload, s.t.requests[row.aggregateId]);
                && c.key == r.key && c.days == r.days && c.startDay == r.startDay && c.endDay == r.endDay
                && c.idempotencyKey == HcmKey(row.aggregateId, row.operation))
            && (row.operation == File ==> s.t.requests[row.aggregateId].status == PendingSync)
            && (row.operation == Reverse ==> s.t.requests[row.aggregateId].status.Terminal())
            && Bare(s.sections[k].held) == Bare(s.t.requests[row.aggregateId])
  {
    hide BooksOk, KeysOk, WarmOk, LandedOk, HcmKeysOk;
    assert SectionOk(s, k, s.sections[k]);
    QueuedRowOf(s, s.sections[k].rowId);
  }

  // ---- Hydration ----------------------------------------------------------------------------------------

  predicate Hydrates(s: State, step: Step, k: BalanceKey) {
    step.HydrateStep? && step.key == k && step.refresh.Reached? && k in s.sections && s.sections[k] == Hydrating
  }

  lemma WarmStays(s: State, step: Step, k: BalanceKey)
    requires Inv(s) && Warm(s.t, k)
    ensures Warm(Apply(s, step).t, k)
  {
    hide Inv, Makes, Apply, StepCharge, Snapshots;
    var s' := Apply(s, step);
    if Transactional(s, step) {
      var moved, i, key, m := StepTransacts(s, step, k);
      if moved {
        WarmthOfMove(s, s', i, key, m, k);
      }
    } else {
      OtherStepStaysWarm(s, step, k);
    }
  }

  // A look at a warm balance does not ask for the lock.
  lemma WarmLookIsFree(s: State, step: Step, k: BalanceKey)
    requires Inv(s) && Warm(s.t, k)
    ensures Apply(s, PeekStep(k)) == s
    ensures Apply(s, step).readers[k] <= s.readers[k]
  {
    hide Inv, RowAt, Submit, Screen, ReleaseAs, CommitForSync, Reject, Cancel, Expire, Lifecycle.Reconcile,
      BeginDispatch, EndDispatch, HcmCall.Send, MockHcm.Provision, ApplySnapshot, Covers;
  }

  // Once a balance has been read, over any run: it stays warm, no getBalance queues for its lock any more, and no
  // holder of its lock waits for itself or hydrates it again.
  lemma {:induction false} WarmForGood(s: State, steps: seq<Step>, k: BalanceKey)
    requires Inv(s) && Warm(s.t, k)
    ensures Warm(Run(s, steps).t, k) && Run(s, steps).readers[k] <= s.readers[k]
    ensures k in Run(s, steps).sections ==>
              Run(s, steps).sections[k] != SelfWait && Run(s, steps).sections[k] != Hydrating
    decreases |steps|
  {
    hide Inv, Apply, Warm;
    if steps == [] {
      if k in s.sections && (s.sections[k] == SelfWait || s.sections[k] == Hydrating) {
        HeldColdOnly(s, k);
      }
    } else {
      StepKeepsInv(s, steps[0]);
      WarmStays(s, steps[0], k);
      WarmLookIsFree(s, steps[0], k);
      WarmForGood(Apply(s, steps[0]), steps[1..], k);
    }
  }

  lemma WarmthOfMove(s: State, s': State, i: nat, key: BalanceKey, m: Move, k: BalanceKey)
    requires Makes(s, s', i, key, m) && Warm(s.t, k)
    ensures Warm(s'.t, k)
  {
    hide ViewOf, Fits, After, Amounts, BalanceAt;
    assert RowAt(s'.t.balances, k).lastHcmAsOf == RowAt(s.t.balances, k).lastHcmAsOf;
  }

  lemma OtherStepStaysWarm(s: State, step: Step, k: BalanceKey)
    requires Inv(s) && Warm(s.t, k) && !Transactional(s, step)
    ensures Warm(Apply(s, step).t, k)
  {
    hide Inv, Screen, Retire, RetiredKeyTaken, ReconciledAvailable, ReconcileEvent;
  }

  function Hydrations(s: State, steps: seq<Step>, k: BalanceKey): nat
    decreases |steps|
  {
    if steps == [] then 0
    else (if Hydrates(s, steps[0], k) then 1 else 0) + Hydrations(Apply(s, steps[0]), steps[1..], k)
  }

  lemma HydrationWarms(s: State, step: Step, k: BalanceKey)
    requires Inv(s) && Hydrates(s, step, k)
    ensures !Warm(s.t, k) && Warm(Apply(s, step).t, k)
  {
    hide RequestsOk, RowsOk, HcmKeysOk, WarmOk, LandedOk, BooksOk, KeysOk;
    assert SectionOk(s, k, s.sections[k]);
  }

  // However many readers found the balance cold and queued for its lock, one HCM read hydrates it.
  lemma {:induction false} HydratedAtMostOnce(s: State, steps: seq<Step>, k: BalanceKey)
    requires Inv(s)
    ensures Hydrations(s, steps, k) <= if Warm(s.t, k) then 0 else 1
    decreases |steps|
  {
    hide Inv, Apply, Hydrates, Warm;
    if steps != [] {
      StepKeepsInv(s, steps[0]);
      if Warm(s.t, k) {
        WarmStays(s, steps[0], k);
      }
      if Hydrates(s, steps[0], k) {
        HydrationWarms(s, steps[0], k);
      }
      HydratedAtMostOnce(Apply(s, steps[0]), steps[1..], k);
    }
  }

  // ---- A submit that waits for itself -------------------------------------------------------------------

  // A submit on a cold row that passes the earlier checks takes the lock for good: no step but a crash changes
  // the balance or frees its key.
  lemma {:induction false} SelfWaitIsForGood(s: State, steps: seq<Step>, k: BalanceKey)
    requires k in s.sections && s.sections[k] == SelfWait
    requires forall n :: 0 <= n < |steps| ==> !steps[n].Crash?
    requires Inv(s)
    ensures k in Run(s, steps).sections && Run(s, steps).sections[k] == SelfWait
    ensures RowAt(Run(s, steps).t.balances, k) == RowAt(s.t.balances, k)
    decreases |steps|
  {
    hide Inv, Apply;
    if steps != [] {
      assert !steps[0].Crash?;
      StepKeepsInv(s, steps[0]);
      SelfWaitStep(s, steps[0], k);
      assert forall n :: 0 <= n < |steps[1..]| ==> steps[1..][n] == steps[n + 1];
      SelfWaitIsForGood(Apply(s, steps[0]), steps[1..], k);
    }
  }

  ghost predicate KeepsWaiting(s: State, s': State, k: BalanceKey) {
    && k in s'.sections && s'.sections[k] == SelfWait
    && RowAt(s'.t.balances, k) == RowAt(s.t.balances, k)
  }

  lemma SubmitKeepsWaiting(s: State, sub: Submission, k: BalanceKey)
    requires k in s.sections && s.sections[k] == SelfWait
    ensures KeepsWaiting(s, DoSubmit(s, sub), k)
  {
    hide Screen, Retire, RetiredKeyTaken;
  }

  lemma ApproveKeepsWaiting(s: State, id: nat, now: int, today: int, refresh: Refresh, k: BalanceKey)
    requires k in s.sections && s.sections[k] == SelfWait
    ensures KeepsWaiting(s, DoApprove(s, id, now, today, refresh), k)
  {
    hide BuildRow, MockHcm.Provision, MockHcm.BalanceAt, Lifecycle.Release, Lifecycle.Commit, ApplySnapshot;
  }

  lemma DecideKeepsWaiting(s: State, key: BalanceKey, now: int, k: BalanceKey)
    requires Inv(s) && k in s.sections && s.sections[k] == SelfWait
    ensures KeepsWaiting(s, DoDecide(s, key, now), k)
  {
    hide BuildRow, RequestsOk, RowsOk, HcmKeysOk, WarmOk, LandedOk, BooksOk, KeysOk;
    if key in s.sections {
      assert SectionOk(s, key, s.sections[key]);
    }
  }

  lemma EndKeepsWaiting(s: State, key: BalanceKey, k: BalanceKey)
    requires Inv(s) && k in s.sections && s.sections[k] == SelfWait
    ensures KeepsWaiting(s, DoEnd(s, key), k)
  {
    hide BuildRow, SaveClashes, RequestsOk, RowsOk, HcmKeysOk, WarmOk, LandedOk, BooksOk, KeysOk;
    if key in s.sections {
      assert SectionOk(s, key, s.sections[key]);
    }
  }

  lemma ReadersKeepWaiting(s: State, key: BalanceKey, refresh: Refresh, k: BalanceKey)
    requires k in s.sections && s.sections[k] == SelfWait
    ensures KeepsWaiting(s, DoPeek(s, key), k) && KeepsWaiting(s, DoLook(s, key), k)
    ensures KeepsWaiting(s, DoHydrate(s, key, refresh), k)
  {
    hide ApplySnapshot, MockHcm.Provision, MockHcm.BalanceAt;
  }

  lemma CallKeepsWaiting(s: State, key: BalanceKey, script: seq<HcmCall.Delivery>, k: BalanceKey)
    requires k in s.sections && s.sections[k] == SelfWait
    ensures KeepsWaiting(s, DoCall(s, key, script), k)
  {
    hide HcmCall.Send;
  }

  lemma LeaveKeepsWaiting(s: State, id: nat, k: BalanceKey)
    requires k in s.sections && s.sections[k] == SelfWait
    ensures KeepsWaiting(s, Locked(s, id, Reject(s.t, id).0), k)
    ensures KeepsWaiting(s, Locked(s, id, Cancel(s.t, id).0), k)
    ensures KeepsWaiting(s, Locked(s, id, Expire(s.t, id).0), k)
  {
    hide BuildRow, VoidQueuedFiles, FileSent, Lifecycle.Release, Lifecycle.Restore;
  }

  lemma BeginKeepsWaiting(s: State, o: nat, k: BalanceKey)
    requires k in s.sections && s.sections[k] == SelfWait
    ensures KeepsWaiting(s, DoBegin(s, o), k)
  {
  }

  lemma SelfWaitStep(s: State, step: Step, k: BalanceKey)
    requires Inv(s) && k in s.sections && s.sections[k] == SelfWait && !step.Crash?
    ensures KeepsWaiting(s, Apply(s, step), k)
  {
    hide Inv, DoPeek, DoLook, DoHydrate, DoSubmit, DoApprove, DoDecide, DoBegin, DoCall, DoEnd, Reject, Cancel, Expire,
      Locked, ReconciledRow, ReconcileEvent;
    match step
    case PeekStep(key) => ReadersKeepWaiting(s, key, Unreachable, k);
    case LookStep(key) => ReadersKeepWaiting(s, key, Unreachable, k);
    case HydrateStep(key, refresh) => ReadersKeepWaiting(s, key, refresh, k);
    case CallStep(key, script) => CallKeepsWaiting(s, key, script, k);
    case RejectStep(id) => LeaveKeepsWaiting(s, id, k);
    case CancelStep(id) => LeaveKeepsWaiting(s, id, k);
    case ExpireStep(id) => LeaveKeepsWaiting(s, id, k);
    case BeginStep(o) => BeginKeepsWaiting(s, o, k);
    case SubmitStep(sub) => SubmitKeepsWaiting(s, sub, k);
    case ApproveStep(id, now, today, refresh) => ApproveKeepsWaiting(s, id, now, today, refresh, k);
    case DecideStep(key, now) => DecideKeepsWaiting(s, key, now, k);
    case EndStep(key) => EndKeepsWaiting(s, key, k);
    case _ =>
  }
}
