// What the laws of Invariant and Agreement say about whole runs.
module Guarantees {
  import opened Entities
  import opened Sums
  import opened MockHcm
  import opened HcmCall
  import opened Lifecycle
  import opened Machine
  import opened Automaton
  import opened Refinement
  import opened Invariant
  import opened Agreement

  // ---- Agreement with HCM -------------------------------------------------------------------------------

  // What a snapshot of instant `asOf` gets wrong, request by request.
  function ErrorColumn(s: State, k: BalanceKey, asOf: int): seq<int> {
    seq(|s.t.requests|, i requires 0 <= i < |s.t.requests| =>
      if s.t.requests[i].key == k then ErrorDays(ViewOf(s, i), asOf) else 0)
  }

  function MisreadDays(s: State, k: BalanceKey, asOf: int): int {
    Sum(ErrorColumn(s, k, asOf))
  }

  lemma ReplayErrorIsMisreadDays(s: State, k: BalanceKey, asOf: int)
    requires Inv(s)
    ensures Total(s, k, ReplayError(asOf)) == MisreadDays(s, k, asOf)
  {
    hide ErrorDays, Weight, Coupled, RowsOk, HcmKeysOk, WarmOk, LandedOk, BooksOk, KeysOk, SectionsOk;
    forall i | 0 <= i < |s.t.requests| ensures Column(s, k, ReplayError(asOf))[i] == ErrorColumn(s, k, asOf)[i] {
      MisreadIffError(ViewOf(s, i), i, asOf);
    }
    assert Column(s, k, ReplayError(asOf)) == ErrorColumn(s, k, asOf);
  }

  // The conditions, all checkable before the step, under which a step keeps the two figures in agreement.
  predicate Clean(s: State, step: Step, k: BalanceKey) {
    match step
    case RejectStep(id) => !LeavesWrongly(s, id, k, false)
    case ExpireStep(id) => !LeavesWrongly(s, id, k, false)
    case CancelStep(id) => !LeavesWrongly(s, id, k, true)
    case CallStep(k', script) => k' == k ==> !ReversesNothing(s, k, script)
    case EndStep(k') => k' == k ==> !AcksNothing(s, k) && !AbandonsReverse(s, k)
    case ApproveStep(_, _, _, _) => Snapshots(s, step, k) ==> Total(s, k, InFlight) == 0
    case ReconcileStep(k', value, asOf) =>
      k' == k && Free(s, k) ==> value == SnapshotAt(s, k, asOf) - MisreadDays(s, k, asOf)
    case OutsideChange(k', delta) => k' == k ==> delta == 0
    case _ => true
  }

  // A balance once read from HCM agrees with it, days under way counted.
  predicate Agrees(s: State, k: BalanceKey) {
    Warm(s.t, k) ==> Drift(s, k) == 0
  }

  lemma ChargedRequestHasDays(s: State, id: nat)
    requires Inv(s) && id < |s.t.requests|
    ensures DaysOf(s, id) >= 1
  {
    assert Coupled(ViewOf(s, id), id);
  }

  lemma ColdHasNoRequests(s: State, k: BalanceKey, m: Measure)
    requires Inv(s) && !Warm(s.t, k)
    ensures Total(s, k, m) == 0
  {
    SumZero(Column(s, k, m));
  }

  lemma ChargeIsZeroIffClean(s: State, step: Step, k: BalanceKey)
    requires Inv(s) && !Overwrites(s, step, k)
    ensures StepCharge(s, step, k) == 0 <==> Clean(s, step, k)
  {
    hide Inv, Drift, Total;
    match step
    case RejectStep(id) => if LeavesWrongly(s, id, k, false) { ChargedRequestHasDays(s, id); }
    case ExpireStep(id) => if LeavesWrongly(s, id, k, false) { ChargedRequestHasDays(s, id); }
    case CancelStep(id) => if LeavesWrongly(s, id, k, true) { ChargedRequestHasDays(s, id); }
    case CallStep(k', script) =>
      if k' == k && ReversesNothing(s, k, script) { ChargedRequestHasDays(s, s.sections[k].row.aggregateId); }
    case EndStep(k') =>
      if k' == k && (AcksNothing(s, k) || AbandonsReverse(s, k)) { ChargedRequestHasDays(s,
        s.sections[k].row.aggregateId); }
    case _ =>
  }

  // A step from agreement ends in agreement exactly when it is clean.
  lemma AgreementIffClean(s: State, step: Step, k: BalanceKey)
    requires Inv(s) && Drift(s, k) == 0
    ensures Drift(Apply(s, step), k) == 0 <==> Clean(s, step, k)
  {
    hide Inv, Drift, Apply, Total, SnapshotAt, Snapshots;
    StepDrift(s, step, k);
    if Overwrites(s, step, k) {
      OverwriteIsZeroIffClean(s, step, k);
    } else {
      ChargeIsZeroIffClean(s, step, k);
    }
  }

  lemma OverwriteIsZeroIffClean(s: State, step: Step, k: BalanceKey)
    requires Inv(s) && Overwrites(s, step, k)
    ensures DriftSet(s, step, k) == 0 <==> Clean(s, step, k)
  {
    hide Inv, Total, SnapshotAt, MisreadDays;
    if step.HydrateStep? {
      HeldColdOnly(s, k);
      ColdHasNoRequests(s, k, InFlight);
    } else if step.ReconcileStep? {
      ReplayErrorIsMisreadDays(s, k, step.asOf);
    }
  }

  // Every step of the run is clean, as far as balance k is concerned and known.
  ghost predicate CleanRun(s: State, steps: seq<Step>, k: BalanceKey)
    decreases |steps|
  {
    steps == [] ||
    (  && (Warm(s.t, k) || steps[0].ReconcileStep? ==> Clean(s, steps[0], k))
       && CleanRun(Apply(s, steps[0]), steps[1..], k))
  }

  lemma RefreshedIsWarm(s: State, step: Step, k: BalanceKey)
    requires Inv(s) && Overwrites(s, step, k)
    ensures step.ApproveStep? ==> Warm(s.t, k)
  {
    hide RequestsOk, RowsOk, HcmKeysOk, LandedOk, BooksOk, KeysOk, SectionsOk;
  }

  // A balance becomes warm only by being overwritten with a figure of HCM's.
  lemma WarmsByOverwriting(s: State, step: Step, k: BalanceKey)
    requires Inv(s) && !Warm(s.t, k) && Warm(Apply(s, step).t, k)
    ensures Overwrites(s, step, k) && !step.ApproveStep?
  {
    if Transactional(s, step) {
      hide Inv, Apply, StepCharge;
      var moved, i, key, m := StepTransacts(s, step, k);
      if moved {
        MakesKeepsWarmth(s, Apply(s, step), i, key, m, k);
      }
    } else if step.SubmitStep? {
      hide Inv;
      SubmitKeepsWarmth(s, step.sub, k);
    } else if !Overwrites(s, step, k) {
      hide Inv, Apply;
      ClericalKeepsFigures(s, step, k);
    } else {
      RefreshedIsWarm(s, step, k);
    }
  }

  lemma SubmitKeepsWarmth(s: State, sub: Submission, k: BalanceKey)
    ensures RowAt(DoSubmit(s, sub).t.balances, k).lastHcmAsOf == RowAt(s.t.balances, k).lastHcmAsOf
  {
    hide Screen, Retire, RetiredKeyTaken;
  }

  lemma MakesKeepsWarmth(s: State, s': State, i: nat, key: BalanceKey, m: Move, k: BalanceKey)
    requires Makes(s, s', i, key, m)
    ensures RowAt(s'.t.balances, k).lastHcmAsOf == RowAt(s.t.balances, k).lastHcmAsOf
  {
  }

  lemma CleanStepKeepsAgreement(s: State, step: Step, k: BalanceKey)
    requires Inv(s) && Agrees(s, k)
    requires Warm(s.t, k) || step.ReconcileStep? ==> Clean(s, step, k)
    ensures Agrees(Apply(s, step), k)
  {
    hide Inv, Apply, Clean, Drift, Total;
    if Warm(s.t, k) {
      AgreementIffClean(s, step, k);
    } else if Warm(Apply(s, step).t, k) {
      WarmsByOverwriting(s, step, k);
      StepDrift(s, step, k);
      if !step.ReconcileStep? {
        CleanUnlessReconcile(s, step, k);
      }
      OverwriteIsZeroIffClean(s, step, k);
    }
  }

  lemma CleanUnlessReconcile(s: State, step: Step, k: BalanceKey)
    requires Overwrites(s, step, k) && !step.ApproveStep? && !step.ReconcileStep?
    ensures Clean(s, step, k)
  {
  }

  lemma {:induction false} CleanRunKeepsAgreement(s: State, steps: seq<Step>, k: BalanceKey)
    requires Inv(s) && Agrees(s, k) && CleanRun(s, steps, k)
    ensures Inv(Run(s, steps)) && Agrees(Run(s, steps), k)
    decreases |steps|
  {
    hide Inv, Apply, Clean, Agrees, Warm;
    if steps != [] {
      StepKeepsInv(s, steps[0]);
      CleanStepKeepsAgreement(s, steps[0], k);
      CleanRunKeepsAgreement(Apply(s, steps[0]), steps[1..], k);
    }
  }

  lemma InitiallyAgrees(s: State, k: BalanceKey)
    requires Initial(s)
    ensures Agrees(s, k)
  {
  }

  lemma NoneInFlight(s: State, k: BalanceKey)
    requires forall i :: 0 <= i < |s.t.requests| ==>
               var v := ViewOf(s, i); v.req.key == k ==> !Unlanded(v) && !Owed(v)
    ensures Total(s, k, InFlight) == 0
  {
    hide Unlanded, Owed;
    SumZero(Column(s, k, InFlight));
  }

  // After any clean run, with nothing under way, the local figure is HCM's.
  lemma SettledBalancesAreEqual(s: State, steps: seq<Step>, k: BalanceKey)
    requires Initial(s) && CleanRun(s, steps, k)
    requires Warm(Run(s, steps).t, k)
    requires forall i :: 0 <= i < |Run(s, steps).t.requests| ==>
               var v := ViewOf(Run(s, steps), i); v.req.key == k ==> !Unlanded(v) && !Owed(v)
    ensures Available(Run(s, steps), k) == BalanceAt(Run(s, steps).hcm, k)
  {
    hide Inv, Run, CleanRun, Coupled, ViewOf, Unlanded, Owed, BalanceAt, RowAt;
    InitialInv(s);
    InitiallyAgrees(s, k);
    CleanRunKeepsAgreement(s, steps, k);
    NoneInFlight(Run(s, steps), k);
  }

  // ---- An HCM that keeps its contract -------------------------------------------------------------------

  // Whatever FILE it acknowledged it has applied; a REVERSE without a FILE moves nothing.
  ghost predicate HonestHcm(h: Hcm) {
    && h.reverseNeedsFile
    && forall hk :: hk in h.answers && hk.operation == File && h.answers[hk].Acked? ==> hk in h.effects
  }

  // No post meets the silent-insufficient scenario.
  predicate NotSilent(step: Step) {
    step.CallStep? ==> forall d :: d in step.script && d.Delivered? ==> !d.silent
  }

  lemma PostKeepsHonesty(h: Hcm, c: Command, op: Operation, at: int)
    requires HonestHcm(h) && c.idempotencyKey.operation == op
    ensures HonestHcm(Post(h, c, op, at, false).0)
  {
  }

  lemma StepKeepsHonesty(s: State, step: Step)
    requires Inv(s) && HonestHcm(s.hcm) && NotSilent(step)
    ensures HonestHcm(Apply(s, step).hcm)
  {
    if step.CallStep? && step.key in s.sections && s.sections[step.key].Dispatching? {
      hide Inv, HonestHcm, Send, Post;
      var row := s.sections[step.key].row;
      var at, silent := SendIsOnePost(s.hcm, row.payload, row.operation, step.script, s.config.maxAttempts);
      var _, _ := CallStepMakes(s, step.key, step.script);
      if Arrives(step.script, s.config.maxAttempts) {
        PostKeepsHonesty(s.hcm, row.payload, row.operation, at);
      }
    } else {
      hide Inv, Submit, Screen, ReleaseAs, CommitForSync, Reject, Cancel, Expire, BeginDispatch, EndDispatch, Send,
        Lifecycle.Reconcile;
    }
  }

  // With such an HCM three things can break the agreement from inside: a request is dropped although its FILE has
  // landed, a REVERSE that is still owed is given up, and approve refreshes while days are under way.
  predicate HonestClean(s: State, step: Step, k: BalanceKey) {
    match step
    case RejectStep(id) => !DropsLanded(s, id, k)
    case ExpireStep(id) => !DropsLanded(s, id, k)
    case CancelStep(id) => !DropsLanded(s, id, k)
    case EndStep(k') => k' == k ==> !AbandonsReverse(s, k)
    case ApproveStep(_, _, _, _) => Snapshots(s, step, k) ==> Total(s, k, InFlight) == 0
    case ReconcileStep(k', value, asOf) =>
      k' == k && Free(s, k) ==> value == SnapshotAt(s, k, asOf) - MisreadDays(s, k, asOf)
    case OutsideChange(k', delta) => k' == k ==> delta == 0
    case _ => true
  }

  predicate DropsLanded(s: State, id: nat, k: BalanceKey) {
    && id < |s.t.requests| && s.t.requests[id].key == k && Free(s, k)
    && s.t.requests[id].status == PendingSync && Landed(s, id, File)
  }

  lemma HonestAcks(s: State, k: BalanceKey)
    requires Inv(s) && HonestHcm(s.hcm)
    ensures !AcksNothing(s, k)
  {
    if k in s.sections && s.sections[k].Answered? {
      assert SectionOk(s, k, s.sections[k]);
    }
  }

  lemma HonestApprovals(s: State, id: nat)
    requires Inv(s) && HonestHcm(s.hcm) && id < |s.t.requests| && s.t.requests[id].status == Approved
    ensures Landed(s, id, File)
  {
    assert Coupled(ViewOf(s, id), id);
  }

  lemma HonestReversals(s: State, k: BalanceKey, script: seq<Delivery>)
    requires Inv(s) && HonestHcm(s.hcm)
    ensures !ReversesNothing(s, k, script)
  {
    hide HonestHcm;
    if k in s.sections && s.sections[k].Dispatching? {
      var _, _ := CallStepMakes(s, k, script);
      assert HonestHcm(s.hcm) ==> s.hcm.reverseNeedsFile by { HonestNeedsFile(s.hcm); }
    }
  }

  lemma HonestNeedsFile(h: Hcm)
    requires HonestHcm(h)
    ensures h.reverseNeedsFile
  {
  }

  lemma CleanIffHonestClean(s: State, step: Step, k: BalanceKey)
    requires Inv(s) && HonestHcm(s.hcm)
    ensures Clean(s, step, k) <==> HonestClean(s, step, k)
  {
    hide Inv, HonestHcm, Total, SnapshotAt, AcksNothing, AbandonsReverse, ReversesNothing;
    HonestAcks(s, k);
    match step
    case CancelStep(id) => if id < |s.t.requests| && s.t.requests[id].status == Approved { HonestApprovals(s, id); }
    case CallStep(_, script) => HonestReversals(s, k, script);
    case _ =>
  }

  // ---- Reconciliation by acknowledgement time -----------------------------------------------------------

  // Posts made in this step reach HCM after `asOf`.
  predicate PostsAfter(step: Step, asOf: int) {
    step.CallStep? ==> forall d :: d in step.script && d.Delivered? ==> d.at > asOf
  }

  function OutsideDelta(step: Step, k: BalanceKey): int {
    if step.OutsideChange? && step.key == k then step.delta else 0
  }

  function OutsideSum(steps: seq<Step>, k: BalanceKey): int {
    if steps == [] then 0 else OutsideDelta(steps[0], k) + OutsideSum(steps[1..], k)
  }

  lemma MoveWindsBack(s: State, s': State, i: nat, key: BalanceKey, m: Move, k: BalanceKey, asOf: int)
    requires Inv(s) && Makes(s, s', i, key, m)
    requires m.FileHeard? && m.landed && m.answer.Acked? ==> m.answer.at > asOf
    requires m.ReverseHeard? && m.landed ==> m.at > asOf
    ensures SnapshotAt(s', k, asOf) == SnapshotAt(s, k, asOf)
  {
    hide Makes, OnlyRequest, RowsOk, HcmKeysOk, WarmOk, LandedOk, BooksOk, KeysOk, SectionsOk, Coupled, After, Amounts,
      Weight, Total, ViewOf, Available, BalanceAt;
    MoveFigures(s, s', i, key, m, k);
    WindingBackIsExact(ViewOf(s, i), i, m, asOf);
    TotalAfterMove(s, s', i, key, PostedAfter(asOf), k);
  }

  lemma QuietHcmMove(s: State, s': State, i: nat, key: BalanceKey, m: Move)
    requires Inv(s) && Makes(s, s', i, key, m) && s'.hcm == s.hcm
    ensures !(m.FileHeard? && m.landed) && !(m.ReverseHeard? && m.landed)
  {
    hide OnlyRequest, RowsOk, HcmKeysOk, WarmOk, LandedOk, BooksOk, KeysOk, SectionsOk, After;
    MakesItsKey(s, s', i, key, m);
    assert Coupled(ViewOf(s, i), i);
  }

  lemma OnlyCallsReachHcm(s: State, step: Step)
    requires !step.CallStep? && !step.OutsideChange?
    ensures Apply(s, step).hcm.answers == s.hcm.answers && Apply(s, step).hcm.effects == s.hcm.effects
    ensures forall k :: BalanceAt(Apply(s, step).hcm, k) == BalanceAt(s.hcm, k)
    ensures Transactional(s, step) ==> Apply(s, step).hcm == s.hcm
  {
    if Clerical(s, step) {
      hide Apply;
      ClericalKeepsRecords(s, step);
      forall k ensures BalanceAt(Apply(s, step).hcm, k) == BalanceAt(s.hcm, k) {
        ClericalKeepsHcm(s, step, k);
      }
    } else if step.ApproveStep? {
      hide Apply, BalanceAt;
      ApproveStepIs(s, step.id, step.now, step.today, step.refresh);
      ApproveLeavesHcm(s, step);
    } else {
      hide DoApprove, DoPeek, DoLook, DoHydrate, BalanceAt, Submit, Screen, ReleaseAs, CommitForSync, Reject, Cancel,
        Expire, BeginDispatch, EndDispatch, Lifecycle.Reconcile;
    }
  }

  lemma ApproveLeavesHcm(s: State, step: Step)
    requires step.ApproveStep? && Transactional(s, step)
    ensures DoApprove(s, step.id, step.now, step.today, step.refresh).hcm == s.hcm
  {
    hide ReleaseAs, CommitForSync;
  }

  lemma CallWindsBack(s: State, step: Step, k: BalanceKey, asOf: int)
    requires Inv(s) && step.CallStep? && PostsAfter(step, asOf)
    ensures SnapshotAt(Apply(s, step), k, asOf) == SnapshotAt(s, k, asOf)
  {
    hide Inv, Makes, Send, SnapshotAt;
    if step.key in s.sections && s.sections[step.key].Dispatching? {
      var heard, m := CallStepMakes(s, step.key, step.script);
      if heard {
        MoveWindsBack(s, Apply(s, step), s.sections[step.key].row.aggregateId, step.key, m, k, asOf);
      } else {
        SameSnapshot(s, Apply(s, step), k, asOf);
      }
    }
  }

  lemma SameSnapshot(s: State, s': State, k: BalanceKey, asOf: int)
    requires s'.t.requests == s.t.requests && s'.t.outbox == s.t.outbox
    requires s'.hcm.answers == s.hcm.answers && s'.hcm.effects == s.hcm.effects
    ensures SnapshotAt(s', k, asOf) == SnapshotAt(s, k, asOf) + BalanceAt(s'.hcm, k) - BalanceAt(s.hcm, k)
  {
    SameFigures(s, s', k);
  }

  // Winding back gives the same figure at every later state: it is the balance HCM had at `asOf`, plus what was
  // changed from outside since.
  lemma StepWindsBack(s: State, step: Step, k: BalanceKey, asOf: int)
    requires Inv(s) && PostsAfter(step, asOf)
    ensures SnapshotAt(Apply(s, step), k, asOf) == SnapshotAt(s, k, asOf) + OutsideDelta(step, k)
  {
    hide Inv, Makes, SnapshotAt, Apply, StepCharge, Snapshots, PostsAfter;
    var s' := Apply(s, step);
    if step.CallStep? {
      CallWindsBack(s, step, k, asOf);
    } else if step.OutsideChange? {
      OutsideStep(s, step);
      SameSnapshot(s, s', k, asOf);
    } else {
      OnlyCallsReachHcm(s, step);
      if Transactional(s, step) {
        var moved, i, key, m := StepTransacts(s, step, k);
        if moved {
          QuietHcmMove(s, s', i, key, m);
          MoveWindsBack(s, s', i, key, m, k, asOf);
        } else {
          SameSnapshot(s, s', k, asOf);
        }
      } else {
        OtherStepWindsBack(s, step, k, asOf);
      }
    }
  }

  lemma OutsideStep(s: State, step: Step)
    requires step.OutsideChange?
    ensures var s' := Apply(s, step);
            && s'.t == s.t && s'.hcm.answers == s.hcm.answers && s'.hcm.effects == s.hcm.effects
            && forall k :: BalanceAt(s'.hcm, k) == BalanceAt(s.hcm, k) + OutsideDelta(step, k)
  {
  }

  lemma OtherStepWindsBack(s: State, step: Step, k: BalanceKey, asOf: int)
    requires Inv(s) && !Transactional(s, step) && !step.OutsideChange?
    ensures SnapshotAt(Apply(s, step), k, asOf) == SnapshotAt(s, k, asOf)
  {
    hide Inv, DoSubmit, Total;
    if step.SubmitStep? {
      SubmitFigures(s, step.sub, k);
    } else {
      hide Apply;
      ClericalKeepsRecords(s, step);
      ClericalKeepsHcm(s, step, k);
      SameSnapshot(s, Apply(s, step), k, asOf);
    }
  }

  ghost predicate AllPostAfter(steps: seq<Step>, asOf: int) {
    forall n :: 0 <= n < |steps| ==> PostsAfter(steps[n], asOf)
  }

  lemma {:induction false} RunWindsBack(s: State, steps: seq<Step>, k: BalanceKey, asOf: int)
    requires Inv(s) && AllPostAfter(steps, asOf)
    ensures Inv(Run(s, steps))
    ensures SnapshotAt(Run(s, steps), k, asOf) == SnapshotAt(s, k, asOf) + OutsideSum(steps, k)
    decreases |steps|
  {
    hide Inv, Apply, SnapshotAt, PostsAfter, OutsideDelta;
    if steps != [] {
      assert PostsAfter(steps[0], asOf);
      StepKeepsInv(s, steps[0]);
      StepWindsBack(s, steps[0], k, asOf);
      assert forall n :: 0 <= n < |steps[1..]| ==> steps[1..][n] == steps[n + 1];
      RunWindsBack(Apply(s, steps[0]), steps[1..], k, asOf);
    }
  }

  // Nothing has landed at HCM after `asOf` yet: this is the instant the snapshot is taken.
  ghost predicate TakenAt(s: State, k: BalanceKey, asOf: int) {
    forall i :: 0 <= i < |s.t.requests| && s.t.requests[i].key == k ==>
      !LandedAfter(ViewOf(s, i).filed, asOf) && !LandedAfter(ViewOf(s, i).reversed, asOf)
  }

  lemma ReconcileLeaves(s: State, k: BalanceKey, value: int, asOf: int)
    requires Inv(s) && Free(s, k)
    ensures Drift(Apply(s, ReconcileStep(k, value, asOf)), k)
         == value - SnapshotAt(s, k, asOf) + MisreadDays(s, k, asOf)
  {
    hide Inv, SnapshotAt, Total, Drift, Apply, MisreadDays;
    StepDrift(s, ReconcileStep(k, value, asOf), k);
    ReplayErrorIsMisreadDays(s, k, asOf);
  }

  // A snapshot taken in state s and delivered any number of steps later leaves exactly the days it misreads, and
  // whatever changed outside in between.
  lemma ReconcileByAck(s: State, steps: seq<Step>, k: BalanceKey, asOf: int)
    requires Inv(s) && TakenAt(s, k, asOf) && AllPostAfter(steps, asOf)
    requires Free(Run(s, steps), k)
    ensures Drift(Apply(Run(s, steps), ReconcileStep(k, BalanceAt(s.hcm, k), asOf)), k)
         == MisreadDays(Run(s, steps), k, asOf) - OutsideSum(steps, k)
  {
    SnapshotIsNow(s, k, asOf);
    hide Inv, Run, SnapshotAt, Total, Drift, Apply, MisreadDays, OutsideSum, TakenAt;
    RunWindsBack(s, steps, k, asOf);
    ReconcileLeaves(Run(s, steps), k, BalanceAt(s.hcm, k), asOf);
  }

  // Reconciling on a stale base gives the figure of the current HCM balance, days under way counted, if and only
  // if the misread days and the outside changes cancel out.
  lemma ReconcileAgreesIff(s: State, steps: seq<Step>, k: BalanceKey, asOf: int)
    requires Inv(s) && TakenAt(s, k, asOf) && AllPostAfter(steps, asOf)
    requires Free(Run(s, steps), k)
    ensures Drift(Apply(Run(s, steps), ReconcileStep(k, BalanceAt(s.hcm, k), asOf)), k) == 0
       <==> MisreadDays(Run(s, steps), k, asOf) == OutsideSum(steps, k)
  {
    hide Inv, Run, Drift, Apply, MisreadDays, OutsideSum, TakenAt, AllPostAfter;
    ReconcileByAck(s, steps, k, asOf);
  }

  lemma SnapshotIsNow(s: State, k: BalanceKey, asOf: int)
    requires TakenAt(s, k, asOf)
    ensures SnapshotAt(s, k, asOf) == BalanceAt(s.hcm, k)
  {
    SumZero(Column(s, k, PostedAfter(asOf)));
  }

  // So it is right when no request of the balance is misread ...
  lemma ReconcileIsSound(s: State, steps: seq<Step>, k: BalanceKey, asOf: int)
    requires Inv(s) && TakenAt(s, k, asOf) && AllPostAfter(steps, asOf) && OutsideSum(steps, k) == 0
    requires Free(Run(s, steps), k)
    requires forall i :: 0 <= i < |Run(s, steps).t.requests| && Run(s, steps).t.requests[i].key == k ==>
               !Misread(ViewOf(Run(s, steps), i), asOf)
    ensures Drift(Apply(Run(s, steps), ReconcileStep(k, BalanceAt(s.hcm, k), asOf)), k) == 0
  {
    hide Drift, Apply, ErrorDays, Inv, TakenAt, AllPostAfter;
    ReconcileAgreesIff(s, steps, k, asOf);
    SumZero(ErrorColumn(Run(s, steps), k, asOf));
  }

  // ... and off by that request's days when exactly one is.
  lemma ReconcileMissesOne(s: State, k: BalanceKey, asOf: int, i: nat)
    requires Inv(s) && Free(s, k) && i < |s.t.requests| && s.t.requests[i].key == k && Misread(ViewOf(s, i), asOf)
    requires forall j :: 0 <= j < |s.t.requests| && j != i && s.t.requests[j].key == k ==> !Misread(ViewOf(s, j), asOf)
    ensures Drift(Apply(s, ReconcileStep(k, SnapshotAt(s, k, asOf), asOf)), k) == ErrorDays(ViewOf(s, i), asOf) != 0
  {
    hide Inv, ErrorDays, Apply, Drift, SnapshotAt, Total;
    ReconcileLeaves(s, k, SnapshotAt(s, k, asOf), asOf);
    var c := ErrorColumn(s, k, asOf);
    SumZero(c[i := 0]);
    SumUpdate(c, i, 0);
  }

  // What the design assumes of each request: acknowledged means applied and the other way round, an unmatched
  // REVERSE moves nothing, HCM's clock moves forward, and a cancelled request's last acknowledgement is no later
  // than the snapshot.
  predicate AckedMeansApplied(v: View, asOf: int) {
    && (v.filed.Some? <==> v.req.status == Approved || (v.req.status == Cancelled && |v.rows| == 2))
    && (v.reversed.Some? <==> v.filed.Some? && |v.rows| == 2 && v.rows[1].status == Sent)
    && (v.filed.Some? && v.reversed.Some? ==> v.filed.value <= v.reversed.value)
    && (v.req.status == Cancelled ==> v.req.hcmAckAt.None? || v.req.hcmAckAt.value <= asOf)
  }

  lemma AckedMeansAppliedIsEnough(v: View, id: nat, asOf: int)
    requires Coupled(v, id) && AckedMeansApplied(v, asOf)
    ensures !Misread(v, asOf)
  {
  }
}
