// The cap on attempts and on posts, over every interleaving: exactly which steps take a row past `maxAttempts`,
// and what a row can cost as long as none of them happens.
module Attempts {
  import opened Entities
  import HcmClient
  import MockHcm
  import opened HcmCall
  import opened Lifecycle
  import opened Machine
  import opened Automaton
  import opened Invariant
  import opened Agreement
  import opened Dispatch

  predicate InDispatch(s: State, k: BalanceKey) {
    k in s.sections && (s.sections[k].Dispatching? || s.sections[k].Answered?)
  }

  predicate HeldBy(s: State, o: nat, k: BalanceKey) {
    InDispatch(s, k) && s.sections[k].rowId == o
  }

  predicate Held(s: State, o: nat) {
    exists k :: k in s.sections && HeldBy(s, o, k)
  }

  // No row was tried more than `max` times, and a queued row nobody is dispatching has a try left.
  ghost predicate Budget(s: State) {
    forall o :: 0 <= o < |s.t.outbox| ==>
      && s.t.outbox[o].attempts <= s.config.maxAttempts
      && (s.t.outbox[o].status == Queued && !Held(s, o) ==> s.t.outbox[o].attempts < s.config.maxAttempts)
  }

  // Transaction 2 of the section of k is rolled back by UNIQUE(idempotencyKey).
  predicate Aborted(s: State, k: BalanceKey)
    requires k in s.sections && s.sections[k].Answered?
  {
    var Answered(o, row, held, result) := s.sections[k];
    SaveClashes(s.t.requests, row.aggregateId, held)
    && (result.Some? || (row.operation == File && row.attempts >= s.config.maxAttempts))
  }

  // A row on its last try goes back to being queued: its dispatch crashes or ends in an exception, or its
  // transaction 2 is rolled back.
  predicate Overruns(s: State, step: Step) {
    match step
    case Crash =>
      exists k :: k in s.sections && InDispatch(s, k) && s.sections[k].row.attempts == s.config.maxAttempts
    case Abort(k) => InDispatch(s, k) && s.sections[k].row.attempts == s.config.maxAttempts
    case EndStep(k) =>
      k in s.sections && s.sections[k].Answered? && s.sections[k].row.attempts == s.config.maxAttempts && Aborted(s, k)
    case _ => false
  }

  // ---- What a step does to the rows -----------------------------------------------------------------------

  predicate SameOrVoided(a: OutboxRow, b: OutboxRow) {
    b == a || b == a.(status := Voided)
  }

  predicate RowsKept(before: seq<OutboxRow>, after: seq<OutboxRow>) {
    && |before| <= |after|
    && (forall o :: 0 <= o < |before| ==> SameOrVoided(before[o], after[o]))
    && (forall o :: |before| <= o < |after| ==> after[o].attempts == 0)
  }

  lemma LeaveKeepsRows(t: Tables, id: nat)
    ensures RowsKept(t.outbox, Reject(t, id).0.outbox)
    ensures RowsKept(t.outbox, Cancel(t, id).0.outbox)
    ensures RowsKept(t.outbox, Expire(t, id).0.outbox)
  {
    hide FileSent, RowAt, Lifecycle.Release, Lifecycle.Restore;
  }

  lemma ApproveKeepsRows(s: State, id: nat, now: int, today: int, refresh: Refresh)
    ensures RowsKept(s.t.outbox, DoApprove(s, id, now, today, refresh).t.outbox)
  {
    hide RowAt, Lifecycle.Release, Lifecycle.Commit;
  }

  lemma DecideKeepsRows(s: State, k: BalanceKey, now: int)
    ensures RowsKept(s.t.outbox, DoDecide(s, k, now).t.outbox)
  {
    hide RowAt, Lifecycle.Release, Lifecycle.Commit, Covers;
  }

  lemma SubmitKeepsRows(s: State, sub: Submission)
    ensures DoSubmit(s, sub).t.outbox == s.t.outbox
  {
    hide Screen, RowAt, Covers, Retire, RetiredKeyTaken;
  }

  // Only transactions 1 and 2 of a dispatch touch the attempts or the outcome of a row.
  lemma OthersKeepRows(s: State, step: Step)
    requires !step.BeginStep? && !step.EndStep?
    ensures RowsKept(s.t.outbox, Apply(s, step).t.outbox)
  {
    if Clerical(s, step) {
      hide Apply;
      ClericalKeepsRecords(s, step);
    } else {
      hide DoSubmit, DoApprove, DoDecide, DoCall, Reject, Cancel, Expire, Lifecycle.Reconcile, RowsKept;
      match step
      case SubmitStep(sub) => SubmitKeepsRows(s, sub); NothingKeepsRows(s.t.outbox);
      case ApproveStep(id, now, today, refresh) => ApproveKeepsRows(s, id, now, today, refresh);
      case DecideStep(k, now) => DecideKeepsRows(s, k, now);
      case RejectStep(id) => LeaveKeepsRows(s.t, id); NothingKeepsRows(s.t.outbox);
      case CancelStep(id) => LeaveKeepsRows(s.t, id); NothingKeepsRows(s.t.outbox);
      case ExpireStep(id) => LeaveKeepsRows(s.t, id); NothingKeepsRows(s.t.outbox);
      case CallStep(k, script) => CallKeepsRows(s, k, script); NothingKeepsRows(s.t.outbox);
    }
  }

  lemma NothingKeepsRows(outbox: seq<OutboxRow>)
    ensures RowsKept(outbox, outbox)
  {
  }

  lemma CallKeepsRows(s: State, k: BalanceKey, script: seq<Delivery>)
    ensures DoCall(s, k, script).t == s.t
  {
    hide Send;
  }

  // Whoever is in the middle of a dispatch stays where it is.
  ghost predicate SameDispatches(s: State, s': State) {
    forall k :: InDispatch(s, k) || InDispatch(s', k) ==>
      k in s.sections && k in s'.sections && s'.sections[k] == s.sections[k]
  }

  // The step of somebody else: not part of a dispatch, and neither an exception nor a crash.
  predicate Elsewhere(step: Step) {
    !step.BeginStep? && !step.CallStep? && !step.EndStep? && !step.Abort? && !step.Crash?
  }

  lemma SameSections(s: State, s': State)
    requires s'.sections == s.sections
    ensures SameDispatches(s, s')
  {
  }

  lemma OneOtherSection(s: State, s': State, k: BalanceKey)
    requires s'.sections - {k} == s.sections - {k} && !InDispatch(s, k) && !InDispatch(s', k)
    ensures SameDispatches(s, s')
  {
    forall k' | InDispatch(s, k') || InDispatch(s', k')
      ensures k' in s.sections && k' in s'.sections && s'.sections[k'] == s.sections[k']
    {
      assert k' in s.sections - {k} <==> k' in s'.sections - {k};
      assert (s.sections - {k})[k'] == (s'.sections - {k})[k'];
    }
  }

  lemma OthersKeepDispatches(s: State, step: Step)
    requires Elsewhere(step)
    ensures SameDispatches(s, Apply(s, step))
  {
    hide SameDispatches, DoApprove, DoSubmit, DoDecide, DoPeek, DoLook, DoHydrate, Reject, Cancel, Expire,
      Lifecycle.Reconcile, RowAt, MockHcm.BalanceAt;
    match step
    case PeekStep(k) => PeekKeepsDispatches(s, k);
    case LookStep(k) => LookKeepsDispatches(s, k);
    case HydrateStep(k, refresh) => HydrateKeepsDispatches(s, k, refresh);
    case SubmitStep(sub) => SubmitKeepsDispatches(s, sub);
    case ApproveStep(id, now, today, refresh) => ApproveKeepsDispatches(s, id, now, today, refresh);
    case DecideStep(k, now) => DecideKeepsDispatches(s, k, now);
    case _ => SameSections(s, Apply(s, step));
  }

  lemma PeekKeepsDispatches(s: State, k: BalanceKey)
    ensures SameDispatches(s, DoPeek(s, k))
  {
    hide SameDispatches, Warm;
    SameSections(s, DoPeek(s, k));
  }

  lemma LookKeepsDispatches(s: State, k: BalanceKey)
    ensures SameDispatches(s, DoLook(s, k))
  {
    hide SameDispatches, Warm;
    if DoLook(s, k).sections == s.sections {
      SameSections(s, DoLook(s, k));
    } else {
      OneOtherSection(s, DoLook(s, k), k);
    }
  }

  lemma HydrateKeepsDispatches(s: State, k: BalanceKey, refresh: Refresh)
    ensures SameDispatches(s, DoHydrate(s, k, refresh))
  {
    hide SameDispatches, RowAt, ApplySnapshot, MockHcm.Provision;
    if DoHydrate(s, k, refresh) == s {
      SameSections(s, s);
    } else {
      OneOtherSection(s, DoHydrate(s, k, refresh), k);
    }
  }

  lemma SubmitKeepsDispatches(s: State, sub: Submission)
    ensures SameDispatches(s, DoSubmit(s, sub))
  {
    hide SameDispatches, Submit, SubmitBlocksItself;
    if DoSubmit(s, sub).sections == s.sections {
      SameSections(s, DoSubmit(s, sub));
    } else {
      OneOtherSection(s, DoSubmit(s, sub), sub.key);
    }
  }

  lemma ApproveKeepsDispatches(s: State, id: nat, now: int, today: int, refresh: Refresh)
    ensures SameDispatches(s, DoApprove(s, id, now, today, refresh))
  {
    hide SameDispatches, ReleaseAs, CommitForSync, RowAt, ApplySnapshot, MockHcm.Provision;
    var s' := DoApprove(s, id, now, today, refresh);
    if s'.sections == s.sections {
      SameSections(s, s');
    } else {
      OneOtherSection(s, s', s.t.requests[id].key);
    }
  }

  lemma DecideKeepsDispatches(s: State, k: BalanceKey, now: int)
    ensures SameDispatches(s, DoDecide(s, k, now))
  {
    hide SameDispatches, CommitForSync, ReleaseAs, Covers;
    if DoDecide(s, k, now) == s {
      SameSections(s, s);
    } else {
      OneOtherSection(s, DoDecide(s, k, now), k);
    }
  }

  // A call hands its row on to transaction 2.
  lemma CallKeepsHolders(s: State, k: BalanceKey, script: seq<Delivery>)
    ensures forall k', o: nat :: HeldBy(DoCall(s, k, script), o, k') <==> HeldBy(s, o, k')
    ensures forall o: nat :: Calling(DoCall(s, k, script), o) ==>
              exists k' :: k' != k && k' in s.sections && s.sections[k'].Dispatching? && HeldBy(s, o, k')
  {
    hide Send;
  }

  // ---- The budget, step by step ---------------------------------------------------------------------------

  lemma HolderOf(s: State, o: nat, k: BalanceKey)
    requires Inv(s) && HeldBy(s, o, k)
    ensures o < |s.t.outbox| && s.t.outbox[o] == s.sections[k].row && s.t.outbox[o].status == Queued
    ensures s.t.outbox[o].aggregateId < |s.t.requests| && s.t.requests[s.t.outbox[o].aggregateId].key == k
  {
    hide RequestsOk, RowsOk, HcmKeysOk, WarmOk, LandedOk, BooksOk, KeysOk;
    assert SectionOk(s, k, s.sections[k]);
    assert Bare(s.sections[k].held).key == k;
  }

  lemma OthersKeepBudget(s: State, step: Step)
    requires Inv(s) && Budget(s) && s.config.maxAttempts >= 1
    requires Elsewhere(step) || step.CallStep?
    ensures Budget(Apply(s, step))
  {
    hide Inv, Apply;
    OthersKeepRows(s, step);
    if step.CallStep? {
      CallKeepsHeld(s, step);
    } else {
      OthersKeepDispatches(s, step);
    }
    ConfigStays(s, step);
    var s' := Apply(s, step);
    forall o | 0 <= o < |s'.t.outbox|
      ensures s'.t.outbox[o].attempts <= s'.config.maxAttempts
      ensures s'.t.outbox[o].status == Queued && !Held(s', o) ==> s'.t.outbox[o].attempts < s'.config.maxAttempts
    {
      if o < |s.t.outbox| {
        assert SameOrVoided(s.t.outbox[o], s'.t.outbox[o]);
        if Held(s, o) {
          var k :| k in s.sections && HeldBy(s, o, k);
          assert HeldBy(s', o, k);
        }
      }
    }
  }

  lemma CallKeepsHeld(s: State, step: Step)
    requires step.CallStep?
    ensures forall k, o: nat :: HeldBy(Apply(s, step), o, k) <==> HeldBy(s, o, k)
  {
    hide DoCall;
    CallKeepsHolders(s, step.key, step.script);
  }

  lemma ConfigStays(s: State, step: Step)
    ensures Apply(s, step).config == s.config
  {
    hide Screen, Submit, Reject, Cancel, Expire, ReleaseAs, CommitForSync, Send, Lifecycle.Reconcile, ApplySnapshot,
      MockHcm.Provision, Covers, RowAt, Warm, BeginDispatch, EndDispatch;
  }

  lemma BeginKeepsBudget(s: State, o: nat)
    requires Inv(s) && Budget(s)
    ensures Budget(DoBegin(s, o))
  {
    hide Inv;
    var s' := DoBegin(s, o);
    if s' != s {
      BeginIsOneTry(s, o);
      forall p | 0 <= p < |s'.t.outbox| && p != o && s'.t.outbox[p].status == Queued && Held(s, p) ensures Held(s', p) {
        var k :| k in s.sections && HeldBy(s, p, k);
        assert HeldBy(s', p, k);
      }
    }
  }

  lemma BeginIsOneTry(s: State, o: nat)
    requires Inv(s) && DoBegin(s, o) != s
    ensures o < |s.t.outbox| && s.t.outbox[o].status == Queued && s.t.outbox[o].aggregateId < |s.t.requests|
    ensures var row := s.t.outbox[o].(attempts := s.t.outbox[o].attempts + 1);
            var s' := DoBegin(s, o);
            && s'.t.outbox == s.t.outbox[o := row] && s'.config == s.config && s'.hcm == s.hcm
            && !Held(s, o) && Held(s', o)
            && (forall k, p: nat :: HeldBy(s, p, k) ==> HeldBy(s', p, k))
            && (forall k, p: nat :: HeldBy(s', p, k) ==> HeldBy(s, p, k) || p == o)
            && s.t.requests[row.aggregateId].key in s'.sections
            && s'.sections[s.t.requests[row.aggregateId].key].Dispatching?
  {
    hide Inv;
    if Held(s, o) {
      var k :| k in s.sections && HeldBy(s, o, k);
      HolderOf(s, o, k);
    }
    assert HeldBy(DoBegin(s, o), o, s.t.requests[s.t.outbox[o].aggregateId].key);
  }

  lemma EndLeavesSection(s: State, k: BalanceKey)
    requires Inv(s) && k in s.sections && s.sections[k].Answered?
    ensures forall k', p: nat :: HeldBy(DoEnd(s, k), p, k') <==> HeldBy(s, p, k') && k' != k
    ensures DoEnd(s, k).config == s.config
    ensures var Answered(o, row, held, result) := s.sections[k];
            && o < |s.t.outbox| && s.t.outbox[o] == row && row.status == Queued && row.aggregateId < |s.t.requests|
            && DoEnd(s, k).t == EndDispatch(s.t, o, row, held, result, s.config.maxAttempts)
  {
    HolderOf(s, s.sections[k].rowId, k);
    hide Inv, EndDispatch;
  }

  lemma EndDispatchRows(t: Tables, o: nat, row: OutboxRow, held: Request, result: Option<int>, max: nat)
    requires o < |t.outbox| && t.outbox[o] == row && row.status == Queued && row.aggregateId < |t.requests|
    ensures var after := EndDispatch(t, o, row, held, result, max).outbox;
            && |t.outbox| <= |after|
            && SameCommand(t.outbox, after, o) && after[o].attempts == row.attempts
            && (after[o].status == Queued <==>
                  if result.None? && row.attempts < max then true
                  else SaveClashes(t.requests, row.aggregateId, held) && (result.Some? || row.operation == File))
            && (forall p :: 0 <= p < |t.outbox| && p != o ==> after[p] == t.outbox[p])
            && (forall p :: |t.outbox| <= p < |after| ==> after[p].attempts == 0)
  {
    hide SaveClashes, RowAt, Lifecycle.Restore;
  }

  // Transaction 2: the row is settled, or it is as it was.
  lemma EndSettlesRow(s: State, k: BalanceKey)
    requires Inv(s) && k in s.sections && s.sections[k].Answered?
    ensures var (o, row, s') := (s.sections[k].rowId, s.sections[k].row, DoEnd(s, k));
            && o < |s.t.outbox| <= |s'.t.outbox| && s'.config == s.config
            && SameCommand(s.t.outbox, s'.t.outbox, o)
            && s'.t.outbox[o].attempts == row.attempts == s.t.outbox[o].attempts
            && (s'.t.outbox[o].status == Queued <==>
                  Aborted(s, k) || (s.sections[k].result.None? && row.attempts < s.config.maxAttempts))
            && (forall p :: 0 <= p < |s.t.outbox| && p != o ==> s'.t.outbox[p] == s.t.outbox[p])
            && (forall p :: |s.t.outbox| <= p < |s'.t.outbox| ==> s'.t.outbox[p].attempts == 0)
  {
    var Answered(o, row, held, result) := s.sections[k];
    EndLeavesSection(s, k);
    hide Inv, DoEnd, SaveClashes, EndDispatch;
    EndDispatchRows(s.t, o, row, held, result, s.config.maxAttempts);
  }

  lemma HeldByOneKey(s: State, o: nat, k: BalanceKey, k': BalanceKey)
    requires Inv(s) && HeldBy(s, o, k) && HeldBy(s, o, k')
    ensures k == k'
  {
    hide Inv;
    HolderOf(s, o, k);
    HolderOf(s, o, k');
  }

  lemma EndKeepsBudgetIff(s: State, k: BalanceKey)
    requires Inv(s) && Budget(s) && s.config.maxAttempts >= 1
    ensures Budget(DoEnd(s, k)) <==> !Overruns(s, EndStep(k))
  {
    hide Inv, DoEnd, Aborted;
    var s' := DoEnd(s, k);
    if k in s.sections && s.sections[k].Answered? {
      EndSettlesRow(s, k);
      EndLeavesSection(s, k);
      var o := s.sections[k].rowId;
      assert HeldBy(s, o, k);
      forall k' | k' in s'.sections ensures !HeldBy(s', o, k') {
        if HeldBy(s', o, k') {
          HeldByOneKey(s, o, k, k');
        }
      }
      assert !Held(s', o);
      forall p | 0 <= p < |s.t.outbox| && p != o && Held(s, p) ensures Held(s', p) {
        var k' :| k' in s.sections && HeldBy(s, p, k');
        assert HeldBy(s', p, k');
      }
    } else {
      EndDoesNothing(s, k);
    }
  }

  lemma CrashKeepsBudgetIff(s: State)
    requires Inv(s) && Budget(s)
    ensures Budget(Apply(s, Crash)) <==> !Overruns(s, Crash)
  {
    hide Inv;
    var s' := Apply(s, Crash);
    if Overruns(s, Crash) {
      var k :| k in s.sections && InDispatch(s, k) && s.sections[k].row.attempts == s.config.maxAttempts;
      HolderOf(s, s.sections[k].rowId, k);
      assert s'.t.outbox[s.sections[k].rowId].status == Queued && !Held(s', s.sections[k].rowId);
    } else {
      forall o | 0 <= o < |s.t.outbox| && s.t.outbox[o].status == Queued
        ensures s.t.outbox[o].attempts < s.config.maxAttempts
      {
        if Held(s, o) {
          var k :| k in s.sections && HeldBy(s, o, k);
          HolderOf(s, o, k);
        }
      }
    }
  }

  lemma AbortFreesOne(s: State, k: BalanceKey)
    requires Inv(s)
    ensures var s' := Apply(s, Abort(k));
            && s'.t == s.t && s'.hcm == s.hcm && s'.config == s.config
            && (forall k', p: nat :: HeldBy(s', p, k') <==> HeldBy(s, p, k') && k' != k)
            && (forall k' :: InDispatch(s', k') ==> k' != k && InDispatch(s, k') && s'.sections[k'] == s.sections[k'])
            && (forall k' :: k' != k && k' in s.sections ==> k' in s'.sections && s'.sections[k'] == s.sections[k'])
  {
    hide Apply, Inv;
    AbortIs(s, k);
  }

  lemma AbortKeepsBudgetIff(s: State, k: BalanceKey)
    requires Inv(s) && Budget(s)
    ensures Budget(Apply(s, Abort(k))) <==> !Overruns(s, Abort(k))
  {
    hide Inv, Apply;
    AbortFreesOne(s, k);
    var s' := Apply(s, Abort(k));
    forall o: nat | o < |s.t.outbox| && Held(s, o) && !HeldBy(s, o, k) ensures Held(s', o) {
      var k' :| k' in s.sections && HeldBy(s, o, k');
      assert HeldBy(s', o, k');
    }
    if InDispatch(s, k) {
      var o := s.sections[k].rowId;
      HolderOf(s, o, k);
      forall k' | k' in s'.sections ensures !HeldBy(s', o, k') {
        if HeldBy(s', o, k') {
          HeldByOneKey(s, o, k, k');
        }
      }
      assert !Held(s', o);
    }
  }

  // A step loses the budget exactly when it overruns.
  lemma BudgetKeptIff(s: State, step: Step)
    requires Inv(s) && Budget(s) && s.config.maxAttempts >= 1
    ensures Budget(Apply(s, step)) <==> !Overruns(s, step)
  {
    hide Inv, Budget, DoBegin, DoEnd;
    match step
    case BeginStep(o) => BeginKeepsBudget(s, o);
    case EndStep(k) => EndKeepsBudgetIff(s, k);
    case Abort(k) => AbortKeepsBudgetIff(s, k);
    case Crash => CrashKeepsBudgetIff(s);
    case _ => hide Apply; OthersKeepBudget(s, step);
  }

  // ---- The budget over runs -------------------------------------------------------------------------------

  ghost predicate NeverOverruns(s: State, steps: seq<Step>)
    decreases |steps|
  {
    steps == [] || (!Overruns(s, steps[0]) && NeverOverruns(Apply(s, steps[0]), steps[1..]))
  }

  ghost predicate BudgetThroughout(s: State, steps: seq<Step>)
    decreases |steps|
  {
    Budget(s) && (steps == [] || BudgetThroughout(Apply(s, steps[0]), steps[1..]))
  }

  lemma {:induction false} BudgetThroughoutIff(s: State, steps: seq<Step>)
    requires Inv(s) && Budget(s) && s.config.maxAttempts >= 1
    ensures BudgetThroughout(s, steps) <==> NeverOverruns(s, steps)
    decreases |steps|
  {
    hide Inv, Budget, Apply, Overruns;
    if steps != [] {
      StepKeepsInv(s, steps[0]);
      BudgetKeptIff(s, steps[0]);
      ConfigStays(s, steps[0]);
      if Budget(Apply(s, steps[0])) {
        BudgetThroughoutIff(Apply(s, steps[0]), steps[1..]);
      }
    }
  }

  lemma {:induction false} BudgetAtTheEnd(s: State, steps: seq<Step>)
    requires BudgetThroughout(s, steps)
    ensures Budget(Run(s, steps))
    decreases |steps|
  {
    hide Apply, Budget;
    if steps != [] {
      BudgetAtTheEnd(Apply(s, steps[0]), steps[1..]);
    }
  }

  // From a fresh database, over every interleaving: rows stay within their attempts all the way exactly when no
  // step overruns; and whenever nobody is dispatching, each queued row then has a try left.
  lemma AttemptsStayCappedIff(s: State, steps: seq<Step>)
    requires Initial(s) && s.config.maxAttempts >= 1
    ensures BudgetThroughout(s, steps) <==> NeverOverruns(s, steps)
    ensures NeverOverruns(s, steps) && Run(s, steps).sections == map[] ==>
              WithinBudget(Run(s, steps).t.outbox, s.config.maxAttempts)
  {
    hide Inv, Run, Overruns, Apply;
    InitialInv(s);
    BudgetThroughoutIff(s, steps);
    if NeverOverruns(s, steps) {
      BudgetAtTheEnd(s, steps);
      RunKeepsConfig(s, steps);
    }
  }

  lemma {:induction false} RunKeepsConfig(s: State, steps: seq<Step>)
    ensures Run(s, steps).config == s.config
    decreases |steps|
  {
    hide Apply;
    if steps != [] {
      ConfigStays(s, steps[0]);
      RunKeepsConfig(Apply(s, steps[0]), steps[1..]);
    }
  }

  // ---- Posts, whoever else is at work ---------------------------------------------------------------------

  // The HTTP posts that a step sends for row o.
  function PostsOfStep(s: State, step: Step, o: nat): nat {
    if step.CallStep? && step.key in s.sections && s.sections[step.key].Dispatching? &&
      s.sections[step.key].rowId == o then
      var row := s.sections[step.key].row;
      HcmClient.Posts(Wire(s.hcm, row.payload, row.operation, step.script), s.config.maxAttempts)
    else 0
  }

  function PostsInRun(s: State, steps: seq<Step>, o: nat): nat
    decreases |steps|
  {
    if steps == [] then 0 else PostsOfStep(s, steps[0], o) + PostsInRun(Apply(s, steps[0]), steps[1..], o)
  }

  function Tries(s: State, o: nat): nat {
    if o < |s.t.outbox| then s.t.outbox[o].attempts else 0
  }

  predicate Calling(s: State, o: nat) {
    exists k :: k in s.sections && s.sections[k].Dispatching? && HeldBy(s, o, k)
  }

  // The attempts of row o, but for one whose call is still to be made ...
  function CallsMade(s: State, o: nat): int {
    Tries(s, o) - if Calling(s, o) then 1 else 0
  }

  // ... and the posts they pay for.
  function Paid(s: State, o: nat): int {
    s.config.maxAttempts * CallsMade(s, o)
  }

  lemma OtherStepPays(s: State, step: Step, o: nat)
    requires Elsewhere(step)
    ensures Paid(Apply(s, step), o) == Paid(s, o)
  {
    hide Apply;
    var s' := Apply(s, step);
    OthersKeepRows(s, step);
    OthersKeepDispatches(s, step);
    ConfigStays(s, step);
    if o < |s.t.outbox| {
      assert SameOrVoided(s.t.outbox[o], s'.t.outbox[o]);
    }
    if Calling(s, o) {
      var k :| k in s.sections && s.sections[k].Dispatching? && HeldBy(s, o, k);
      assert HeldBy(s', o, k);
    }
    if Calling(s', o) {
      var k :| k in s'.sections && s'.sections[k].Dispatching? && HeldBy(s', o, k);
      assert HeldBy(s, o, k);
    }
  }

  lemma BeginPays(s: State, o': nat, o: nat)
    requires Inv(s)
    ensures Paid(DoBegin(s, o'), o) >= Paid(s, o)
  {
    hide Inv, DoBegin;
    var s' := DoBegin(s, o');
    if s' != s {
      BeginIsOneTry(s, o');
      if o != o' && Calling(s', o) {
        var k :| k in s'.sections && s'.sections[k].Dispatching? && HeldBy(s', o, k);
        assert HeldBy(s, o, k);
        BeginKeepsSections(s, o', k);
      }
      Monotone(s.config.maxAttempts, CallsMade(s, o), CallsMade(s', o));
    }
  }

  lemma BeginKeepsSections(s: State, o: nat, k: BalanceKey)
    ensures k in s.sections ==> k in DoBegin(s, o).sections && DoBegin(s, o).sections[k] == s.sections[k]
  {
  }

  lemma Monotone(max: nat, m: int, n: int)
    requires m <= n
    ensures max * m <= max * n
  {
  }

  lemma EndPays(s: State, k: BalanceKey, o: nat)
    requires Inv(s)
    ensures Paid(DoEnd(s, k), o) == Paid(s, o)
  {
    hide Inv, DoEnd;
    var s' := DoEnd(s, k);
    if k in s.sections && s.sections[k].Answered? {
      EndSettlesRow(s, k);
      EndKeepsSections(s, k);
      if Calling(s, o) {
        var k' :| k' in s.sections && s.sections[k'].Dispatching? && HeldBy(s, o, k');
        assert k' in s'.sections && s'.sections[k'].Dispatching? && HeldBy(s', o, k');
      }
    } else {
      EndDoesNothing(s, k);
    }
  }

  lemma EndKeepsSections(s: State, k: BalanceKey)
    requires k in s.sections && s.sections[k].Answered?
    ensures DoEnd(s, k).sections == s.sections || DoEnd(s, k).sections == s.sections - {k}
  {
    hide EndDispatch;
  }

  lemma CallPosts(s: State, step: Step, o: nat)
    ensures PostsOfStep(s, step, o) <= s.config.maxAttempts
    ensures PostsOfStep(s, step, o) > 0 ==>
              step.CallStep? && step.key in s.sections && s.sections[step.key].Dispatching? && HeldBy(s, o, step.key)
  {
    hide Wire;
  }

  lemma CallEndsCalling(s: State, k: BalanceKey, script: seq<Delivery>, o: nat)
    requires Inv(s) && HeldBy(s, o, k) && s.sections[k].Dispatching?
    ensures Calling(s, o) && !Calling(DoCall(s, k, script), o)
  {
    hide Inv, DoCall;
    CallKeepsHolders(s, k, script);
    if Calling(DoCall(s, k, script), o) {
      var k' :| k' != k && k' in s.sections && s.sections[k'].Dispatching? && HeldBy(s, o, k');
      HeldByOneKey(s, o, k', k);
    }
  }

  lemma CallPays(s: State, step: Step, o: nat)
    requires Inv(s) && step.CallStep?
    ensures Paid(Apply(s, step), o) >= Paid(s, o) + PostsOfStep(s, step, o)
  {
    hide Inv, DoCall, Apply, PostsOfStep, Calling, HeldBy;
    var s' := Apply(s, step);
    CallStepIs(s, step.key, step.script);
    CallKeepsRows(s, step.key, step.script);
    CallKeepsHolders(s, step.key, step.script);
    ConfigStays(s, step);
    CallPosts(s, step, o);
    if PostsOfStep(s, step, o) > 0 {
      CallEndsCalling(s, step.key, step.script, o);
    } else {
      CallingBefore(s, step.key, step.script, o);
    }
    Monotone(s.config.maxAttempts, CallsMade(s, o), CallsMade(s', o));
  }

  lemma CallingBefore(s: State, k: BalanceKey, script: seq<Delivery>, o: nat)
    ensures Calling(DoCall(s, k, script), o) ==> Calling(s, o)
  {
    hide DoCall;
    CallKeepsHolders(s, k, script);
  }

  lemma StepPays(s: State, step: Step, o: nat)
    requires Inv(s)
    ensures Paid(Apply(s, step), o) >= Paid(s, o) + PostsOfStep(s, step, o)
  {
    hide Inv, Apply, PostsOfStep;
    OnlyCallsPost(s, step, o);
    match step
    case BeginStep(o') => BeginPays(s, o', o); BeginStepIs(s, o');
    case CallStep(_, _) => CallPays(s, step, o);
    case EndStep(k) => EndPays(s, k, o); EndStepIs(s, k);
    case Abort(k) => AbortPays(s, k, o);
    case Crash => CrashPays(s, o);
    case _ => OtherStepPays(s, step, o);
  }

  lemma OnlyCallsPost(s: State, step: Step, o: nat)
    ensures !step.CallStep? ==> PostsOfStep(s, step, o) == 0
  {
  }

  lemma AbortPays(s: State, k: BalanceKey, o: nat)
    requires Inv(s)
    ensures Paid(Apply(s, Abort(k)), o) >= Paid(s, o)
  {
    hide Inv, Apply;
    AbortFreesOne(s, k);
    var s' := Apply(s, Abort(k));
    if Calling(s', o) {
      var k' :| k' in s'.sections && s'.sections[k'].Dispatching? && HeldBy(s', o, k');
      assert HeldBy(s, o, k') && s.sections[k'].Dispatching?;
    }
    Monotone(s.config.maxAttempts, CallsMade(s, o), CallsMade(s', o));
  }

  lemma CrashPays(s: State, o: nat)
    ensures Paid(Apply(s, Crash), o) >= Paid(s, o)
  {
    Monotone(s.config.maxAttempts, CallsMade(s, o), Tries(s, o));
  }

  lemma {:induction false} RunPays(s: State, steps: seq<Step>, o: nat)
    requires Inv(s)
    ensures Paid(Run(s, steps), o) >= Paid(s, o) + PostsInRun(s, steps, o)
    decreases |steps|
  {
    hide Inv, Apply, Paid, PostsOfStep;
    if steps != [] {
      StepKeepsInv(s, steps[0]);
      StepPays(s, steps[0], o);
      RunPays(Apply(s, steps[0]), steps[1..], o);
    }
  }

  // Over every interleaving, crashes included, a row costs at most `max` posts for each of its attempts; so at
  // most max * max of them as long as no step overruns.
  lemma PostsPerRowInRun(s: State, steps: seq<Step>, o: nat)
    requires Initial(s)
    ensures PostsInRun(s, steps, o) <= s.config.maxAttempts * Tries(Run(s, steps), o)
    ensures s.config.maxAttempts >= 1 && NeverOverruns(s, steps) ==>
              PostsInRun(s, steps, o) <= s.config.maxAttempts * s.config.maxAttempts
  {
    hide Inv, Run, PostsInRun, NeverOverruns, BudgetThroughout;
    var max, end := s.config.maxAttempts, Run(s, steps);
    InitialInv(s);
    RunPays(s, steps, o);
    RunKeepsConfig(s, steps);
    Monotone(max, CallsMade(end, o), Tries(end, o));
    if max >= 1 && NeverOverruns(s, steps) {
      AttemptsStayCappedIff(s, steps);
      BudgetAtTheEnd(s, steps);
      Monotone(max, Tries(end, o), max);
    }
  }

  // The premise of the laws about ticks, for any state at rest that was reached without an overrun.
  lemma TicksStayCapped(start: State, steps: seq<Step>, plans: seq<seq<seq<Delivery>>>, o: nat)
    requires Initial(start) && start.config.maxAttempts >= 1 && NeverOverruns(start, steps)
    requires Run(start, steps).sections == map[] && o < |Run(start, steps).t.outbox|
    ensures var (s, max) := (Run(start, steps), start.config.maxAttempts);
            && WithinBudget(Ticks(s.t, s.hcm, plans, max).0.outbox, max)
            && PostsInTicks(s.t, s.hcm, plans, max, o) <= max * max
  {
    hide Run, NeverOverruns, BudgetThroughout, Ticks, PostsInTicks, Inv;
    AttemptsStayCappedIff(start, steps);
    ReachableInv(start, steps);
    var s := Run(start, steps);
    InvIsSound(s);
    TicksKeepBudget(s.t, s.hcm, plans, start.config.maxAttempts);
    PostsPerRow(s.t, s.hcm, plans, start.config.maxAttempts, o);
  }

  lemma InvIsSound(s: State)
    requires Inv(s)
    ensures Sound(s.t)
  {
  }

  lemma StepKeepsCommand(s: State, step: Step, o: nat)
    requires Inv(s) && o < |s.t.outbox|
    ensures SameCommand(s.t.outbox, Apply(s, step).t.outbox, o)
  {
    hide Inv, Apply;
    match step
    case BeginStep(o') =>
      BeginStepIs(s, o');
      if DoBegin(s, o') != s {
        BeginIsOneTry(s, o');
      }
    case EndStep(k) =>
      EndStepIs(s, k);
      if k in s.sections && s.sections[k].Answered? {
        EndSettlesRow(s, k);
      } else {
        EndDoesNothing(s, k);
      }
    case _ =>
      OthersKeepRows(s, step);
      assert SameOrVoided(s.t.outbox[o], Apply(s, step).t.outbox[o]);
  }

  // ... all of the one command the row was written with.
  lemma {:induction false} RunKeepsCommand(s: State, steps: seq<Step>, o: nat)
    requires Inv(s) && o < |s.t.outbox|
    ensures SameCommand(s.t.outbox, Run(s, steps).t.outbox, o)
    decreases |steps|
  {
    hide Inv, Apply;
    if steps != [] {
      StepKeepsInv(s, steps[0]);
      StepKeepsCommand(s, steps[0], o);
      RunKeepsCommand(Apply(s, steps[0]), steps[1..], o);
    }
  }
}
