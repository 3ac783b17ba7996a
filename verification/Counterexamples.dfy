// What the design documents promise and the code does not keep, each as a run from a fresh database. One employee
// asks for one day, Monday 1970-01-05 (day 4); the laws say for all runs when such a thing happens.
module Counterexamples {
  import opened Entities
  import opened Sums
  import opened WorkDays
  import MockHcm
  import opened HcmCall
  import opened Lifecycle
  import opened Machine
  import opened Dispatch
  import Idempotency

  const K := BalanceKey("employee", "location")
  const MONDAY := 4
  const ASK := Submission(K, MONDAY, MONDAY, "key", 0, 0)

  function Request0(status: RequestStatus): Request {
    Request(K, MONDAY, MONDAY, 1, status, "key", 14, if status == Pending then None else Some(0), None)
  }

  function Row(op: Operation, status: RowStatus, attempts: nat): OutboxRow {
    OutboxRow(0, op, Command(K, 1, MONDAY, MONDAY, HcmKey(0, op)), status, attempts)
  }

  function Local(available: int, reserved: int): Balance {
    Balance(available, reserved, false, Some(0))
  }

  function Hcm0(balance: int): MockHcm.Hcm {
    MockHcm.Hcm(map[K := balance], map[], map[], false)
  }

  // The only request, its rows, its balance; nobody inside a critical section but as `sections` says.
  function At(r: Request, rows: seq<OutboxRow>, b: Balance, h: MockHcm.Hcm, sections: map<BalanceKey, Section>,
      max: nat): State {
    State.State(Tables([r], rows, map[K := b], [], []), h, sections, multiset{}, Config(max, 14))
  }

  // ---- From a fresh database to PENDING and PENDING_SYNC --------------------------------------------------

  // By a run from a fresh database; without a crash when `calm`.
  ghost predicate Reachable(s: State, calm: bool) {
    exists start: State, steps: seq<Step> ::
      Initial(start) && Run(start, steps) == s && forall step :: step in steps && calm ==> !step.Crash?
  }

  lemma Reach(s: State, calm: bool, step: Step)
    requires Reachable(s, calm)
    ensures Reachable(Apply(s, step), calm && !step.Crash?)
  {
    hide Apply;
    var start: State, steps: seq<Step> :|
      Initial(start) && Run(start, steps) == s && forall earlier :: earlier in steps && calm ==> !earlier.Crash?;
    RunsCompose(start, steps, [step]);
    assert [step][1..] == [] && Run(s, [step]) == Run(Apply(s, step), []);
  }

  lemma ReachFresh(s: State)
    requires Initial(s)
    ensures Reachable(s, true)
  {
    hide Apply;
    assert Run(s, []) == s;
  }

  lemma OneWorkingDay(day: int)
    requires day == MONDAY || day == MONDAY + 1
    ensures WorkingDays(day, day + 1, {}) == 1
  {
    assert WorkingDays(day, day, {}) == 0;
  }

  // A reader that HCM answers, and one that it does not.
  lemma Reads(s: State, k: BalanceKey, refresh: Refresh) returns (s': State)
    requires Reachable(s, true) && Free(s, k) && !Warm(s.t, k)
    ensures Reachable(s', true) && s' == Read(s, k, refresh)
  {
    hide Reachable, Apply, DoPeek, DoLook, DoHydrate, Read;
    ReaderStepsAre(s, k, refresh);
    ReaderStepsAre(DoPeek(s, k), k, refresh);
    ReaderStepsAre(DoLook(DoPeek(s, k), k), k, refresh);
    Reach(s, true, PeekStep(k));
    Reach(DoPeek(s, k), true, LookStep(k));
    Reach(DoLook(DoPeek(s, k), k), true, HydrateStep(k, refresh));
    ReadIsThreeSteps(s, k, refresh);
    s' := Read(s, k, refresh);
  }

  lemma Submits(s: State, sub: Submission) returns (s': State)
    requires Reachable(s, true)
    ensures Reachable(s', true) && s' == DoSubmit(s, sub)
  {
    hide Reachable, Apply, DoSubmit;
    SubmitStepIs(s, sub);
    Reach(s, true, SubmitStep(sub));
    s' := DoSubmit(s, sub);
  }

  lemma Approves(s: State, id: nat, refresh: Refresh) returns (s': State)
    requires Reachable(s, true)
    ensures Reachable(s', true) && s' == DoApprove(s, id, 0, 0, refresh)
  {
    hide Reachable, Apply, DoApprove;
    ApproveStepIs(s, id, 0, 0, refresh);
    Reach(s, true, ApproveStep(id, 0, 0, refresh));
    s' := DoApprove(s, id, 0, 0, refresh);
  }

  lemma Decides(s: State) returns (s': State)
    requires Reachable(s, true)
    ensures Reachable(s', true) && s' == DoDecide(s, K, 0)
  {
    hide Reachable, Apply, DoDecide;
    DecideStepIs(s, K, 0);
    Reach(s, true, DecideStep(K, 0));
    s' := DoDecide(s, K, 0);
  }

  lemma Cancels(s: State, calm: bool) returns (s': State)
    requires Reachable(s, calm)
    ensures Reachable(s', calm) && s' == Locked(s, 0, Cancel(s.t, 0).0)
  {
    hide Reachable, Apply, Locked;
    CancelStepIs(s, 0);
    Reach(s, calm, CancelStep(0));
    s' := Locked(s, 0, Cancel(s.t, 0).0);
  }

  lemma Crashes(s: State, calm: bool) returns (s': State)
    requires Reachable(s, calm)
    ensures Reachable(s', false) && s' == s.(sections := map[], readers := multiset{})
  {
    hide Reachable, Apply;
    CrashIs(s);
    Reach(s, calm, Crash);
    s' := s.(sections := map[], readers := multiset{});
  }

  lemma Ends(s: State) returns (s': State)
    requires Reachable(s, true)
    ensures Reachable(s', true) && s' == DoEnd(s, K)
  {
    hide Reachable, Apply, DoEnd;
    EndStepIs(s, K);
    Reach(s, true, EndStep(K));
    s' := DoEnd(s, K);
  }

  lemma ReachPending(hcmBalance: int, max: nat)
    requires hcmBalance >= 1
    ensures Reachable(At(Request0(Pending), [], Local(hcmBalance, 1), Hcm0(hcmBalance), map[], max), true)
  {
    OneWorkingDay(MONDAY);
    hide WorkingDays, Reachable;
    var s0 := State.State(Tables([], [], map[], [], []), Hcm0(hcmBalance), map[], multiset{}, Config(max, 14));
    ReachFresh(s0);
    var s1 := Reads(s0, K, Reached(0));
    assert s1.t.balances == map[K := Local(hcmBalance, 0)];
    assert Screen(s1.t.requests, ASK) == Proceed(None, 1);
    var s2 := Submits(s1, ASK);
    assert s2.t.requests == [Request0(Pending)];
    assert s2.t.balances == map[K := Local(hcmBalance, 1)];
  }

  // Approved while HCM was down; the FILE row is not tried yet.
  function Filed(hcmBalance: int, h: MockHcm.Hcm, max: nat): State {
    At(Request0(PendingSync), [Row(File, Queued, 0)], Local(hcmBalance - 1, 0), h, map[], max)
  }

  lemma ReachFiled(hcmBalance: int, max: nat)
    requires hcmBalance >= 1
    ensures Reachable(Filed(hcmBalance, Hcm0(hcmBalance), max), true)
  {
    hide Reachable;
    ReachPending(hcmBalance, max);
    var s := Approves(At(Request0(Pending), [], Local(hcmBalance, 1), Hcm0(hcmBalance), map[], max), 0, Unreachable);
    assert s.t.requests == [Request0(PendingSync)];
    assert s.t.outbox == [Row(File, Queued, 0)];
    assert s.t.balances == map[K := Local(hcmBalance - 1, 0)];
  }

  lemma FirstRow(attempts: nat)
    ensures [] + [Row(File, Queued, attempts)] == [Row(File, Queued, attempts)]
  {
  }

  // Transaction 1 of the last row ...
  lemma Begins(r: Request, rows: seq<OutboxRow>, op: Operation, n: nat, b: Balance, h: MockHcm.Hcm, max: nat,
      calm: bool)
      returns (s: State)
    requires r.key == K && Reachable(At(r, rows + [Row(op, Queued, n)], b, h, map[], max), calm)
    ensures Reachable(s, calm)
    ensures var row := Row(op, Queued, n + 1);
            s == At(r, rows + [row], b, h, map[K := Dispatching(|rows|, row, r)], max)
  {
    hide Reachable, Apply;
    var s0 := At(r, rows + [Row(op, Queued, n)], b, h, map[], max);
    BeginStepIs(s0, |rows|);
    Reach(s0, calm, BeginStep(|rows|));
    s := DoBegin(s0, |rows|);
    assert s.t.outbox == rows + [Row(op, Queued, n + 1)];
  }

  // ... and the call that follows it.
  lemma Calls(r: Request, rows: seq<OutboxRow>, op: Operation, n: nat, b: Balance, h: MockHcm.Hcm, max: nat,
      script: seq<Delivery>)
      returns (s: State)
    requires r.key == K && Reachable(At(r, rows + [Row(op, Queued, n)], b, h, map[], max), true)
    ensures Reachable(s, true)
    ensures var row := Row(op, Queued, n + 1);
            var (h', result) := Send(h, row.payload, op, script, max);
            s == At(r, rows + [row], b, h', map[K := Answered(|rows|, row, r, result)], max)
  {
    hide Reachable, Apply, Send;
    var s1 := Begins(r, rows, op, n, b, h, max, true);
    CallStepIs(s1, K, script);
    Reach(s1, true, CallStep(K, script));
    s := DoCall(s1, K, script);
    assert s.sections == map[K := s.sections[K]];
  }

  // The only FILE is applied and its answer lost.
  lemma LosesAnswer() returns (s: State)
    ensures Reachable(s, true) && s.t == Filed(5, s.hcm, 1).t.(outbox := [Row(File, Queued, 1)])
    ensures HcmKey(0, File) in s.hcm.effects && MockHcm.BalanceAt(s.hcm, K) == 4
  {
    var script := [Delivered(7, false, true)];
    ReachFiled(5, 1);
    AppliedUnheard();
    hide Reachable, Send;
    FirstRow(0);
    FirstRow(1);
    s := Calls(Request0(PendingSync), [], File, 0, Local(4, 0), Hcm0(5), 1, script);
  }

  lemma AppliedUnheard()
    ensures var (h, result) := Send(Hcm0(5), Row(File, Queued, 1).payload, File, [Delivered(7, false, true)], 1);
            result == None && HcmKey(0, File) in h.effects && MockHcm.BalanceAt(h, K) == 4
  {
  }

  // ---- The runs -------------------------------------------------------------------------------------------

  // A FILE is applied, its answer lost; then the request is cancelled. The row is voided and no REVERSE is ever
  // sent: nothing is under way and HCM is a day short for good.
  lemma CancelAfterLostAnswer() returns (s: State)
    ensures Reachable(s, false) && s.sections == map[]
    ensures |s.t.requests| == 1 && s.t.requests[0].status == Cancelled && s.t.outbox == [Row(File, Voided, 1)]
    ensures RowAt(s.t.balances, K).available == 5 && MockHcm.BalanceAt(s.hcm, K) == 4
  {
    hide Reachable;
    var s1 := LosesAnswer();
    var s2 := Crashes(s1, true);
    s := Cancels(s2, false);
  }

  // The same lost answer, then a batch that already shows the deduction: reconcile takes the day off once more.
  lemma ReconcileTakesLandedDayTwice() returns (s: State)
    ensures Reachable(s, false) && s.sections == map[]
    ensures |s.t.requests| == 1 && s.t.requests[0].status == PendingSync && HcmKey(0, File) in s.hcm.effects
    ensures RowAt(s.t.balances, K).available == 3 && MockHcm.BalanceAt(s.hcm, K) == 4
  {
    hide Reachable, Apply, ReconciledRow, ReconcileEvent;
    var s1 := LosesAnswer();
    var s2 := Crashes(s1, true);
    ReconcileStepIs(s2, K, 4, 7);
    Reach(s2, false, ReconcileStep(K, 4, 7));
    ReconciledTo3(s2.t);
    s := s2.(t := Lifecycle.Reconcile(s2.t, K, 4, 7));
  }

  lemma ReconciledTo3(t: Tables)
    requires t.requests == [Request0(PendingSync)] && t.outbox == [Row(File, Queued, 1)]
    ensures ReconciledRow(t, K, 4, 7).available == 3
  {
    OneDayUnacked(t.requests);
    NoDayReversed(t.requests, t.outbox);
    hide Sum, UnackedColumn, ReversalColumn, ReservedColumn, RowAt, Row, Request0;
  }

  lemma OneDayUnacked(requests: seq<Request>)
    requires requests == [Request0(PendingSync)]
    ensures Sum(UnackedColumn(requests, K, 7)) == 1
  {
    var column := UnackedColumn(requests, K, 7);
    assert column[0] == UnackedDays(Request0(PendingSync), K, 7) == 1;
    hide UnackedColumn, UnackedDays;
    assert column == [] + [1];
    SumAppend([], 1);
  }

  lemma NoDayReversed(requests: seq<Request>, outbox: seq<OutboxRow>)
    requires outbox == [Row(File, Queued, 1)]
    ensures Sum(ReversalColumn(requests, outbox, K)) == 0
  {
    var column := ReversalColumn(requests, outbox, K);
    assert column[0] == ReversalDays(requests, Row(File, Queued, 1), K) == 0;
    hide ReversalColumn, ReversalDays;
    SumZero(column);
  }

  // No answer lost: a FILE is acknowledged at 7, the request cancelled, its REVERSE not posted yet. A snapshot of
  // instant 6 does not know the deduction, but reconcile credits the REVERSE: 6 instead of the 4 + 1 of HCM's.
  lemma ReconcileCreditsWhatWasNotTaken() returns (s: State)
    ensures Reachable(s, true) && s.sections == map[]
    ensures s.t.requests == [GONE] && s.t.outbox == [Row(File, Sent, 1), Row(Reverse, Queued, 0)]
    ensures HcmKey(0, File) in s.hcm.effects && s.hcm.effects[HcmKey(0, File)] == 7
    ensures RowAt(s.t.balances, K).available == 6 && MockHcm.BalanceAt(s.hcm, K) == 4
  {
    var script := [Delivered(7, false, false)];
    ReachFiled(5, 1);
    FileIsApplied();
    hide Reachable, Send, Apply, ReconciledRow, ReconcileEvent;
    FirstRow(0);
    FirstRow(1);
    var s1 := Calls(Request0(PendingSync), [], File, 0, Local(4, 0), Hcm0(5), 1, script);
    UndoneReachable(s1);
    var rows := [Row(File, Sent, 1)] + [Row(Reverse, Queued, 0)];
    var s2 := At(GONE, rows, Local(5, 0), s1.hcm, map[], 1);
    ReconcileStepIs(s2, K, 5, 6);
    Reach(s2, true, ReconcileStep(K, 5, 6));
    ReconciledTo6(s2.t);
    s := s2.(t := Lifecycle.Reconcile(s2.t, K, 5, 6));
  }

  lemma ReconciledTo6(t: Tables)
    requires t.requests == [GONE] && t.outbox == [Row(File, Sent, 1)] + [Row(Reverse, Queued, 0)]
    ensures ReconciledRow(t, K, 5, 6).available == 6
  {
    NoDayUnacked(t.requests);
    OneDayReversed(t.requests, t.outbox);
    hide Sum, UnackedColumn, ReversalColumn, ReservedColumn, RowAt, Row;
  }

  lemma NoDayUnacked(requests: seq<Request>)
    requires requests == [GONE]
    ensures Sum(UnackedColumn(requests, K, 6)) == 0
  {
    var column := UnackedColumn(requests, K, 6);
    assert column[0] == UnackedDays(GONE, K, 6) == 0;
    hide UnackedColumn, UnackedDays;
    SumZero(column);
  }

  lemma OneDayReversed(requests: seq<Request>, outbox: seq<OutboxRow>)
    requires requests == [GONE] && outbox == [Row(File, Sent, 1)] + [Row(Reverse, Queued, 0)]
    ensures Sum(ReversalColumn(requests, outbox, K)) == 1
  {
    var column := ReversalColumn(requests, outbox, K);
    assert column[0] == ReversalDays(requests, Row(File, Sent, 1), K) == 0;
    assert column[1] == ReversalDays(requests, Row(Reverse, Queued, 0), K) == 1;
    hide ReversalColumn, ReversalDays;
    assert column == [0] + [1];
    SumZero([0]);
    SumAppend([0], 1);
  }

  // Every try of a FILE is lost; the compensating REVERSE reaches the mock, which credits a day it never took.
  lemma MockCreditsUnmatchedReverse() returns (s: State)
    ensures Reachable(s, true) && s.sections == map[]
    ensures |s.t.requests| == 1 && s.t.requests[0].status == Rejected
    ensures s.t.outbox == [Row(File, RowStatus.Failed, 1), Row(Reverse, Sent, 1)]
    ensures RowAt(s.t.balances, K).available == 5 && MockHcm.BalanceAt(s.hcm, K) == 6
  {
    var script := [Delivered(9, false, false)];
    var failed := Row(File, RowStatus.Failed, 1);
    ReachFiled(5, 1);
    NothingSent();
    ReverseCredited();
    hide Reachable, Send, DoEnd;
    FirstRow(0);
    FirstRow(1);
    var s1 := Calls(Request0(PendingSync), [], File, 0, Local(4, 0), Hcm0(5), 1, []);
    var s2 := Ends(s1);
    GivesUp(s1);
    assert [failed, Row(Reverse, Queued, 0)] == [failed] + [Row(Reverse, Queued, 0)];
    var s3 := Calls(Request0(PendingSync).(status := Rejected), [failed], Reverse, 0, Local(5, 0), Hcm0(5), 1, script);
    s := Ends(s3);
    AcknowledgesReverse(s3);
  }

  lemma NothingSent()
    ensures Send(Hcm0(5), Row(File, Queued, 1).payload, File, [], 1) == (Hcm0(5), None)
  {
  }

  lemma ReverseCredited()
    ensures var (h, result) := Send(Hcm0(5), Row(Reverse, Queued, 1).payload, Reverse, [Delivered(9, false, false)], 1);
            result == Some(9) && MockHcm.BalanceAt(h, K) == 6
  {
  }

  lemma GivesUp(s: State)
    requires var (r, row) := (Request0(PendingSync), Row(File, Queued, 1));
             s == At(r, [row], Local(4, 0), Hcm0(5), map[K := Answered(0, row, r, None)], 1)
    ensures var rows := [Row(File, RowStatus.Failed, 1), Row(Reverse, Queued, 0)];
            DoEnd(s, K) == At(Request0(PendingSync).(status := Rejected), rows, Local(5, 0), Hcm0(5), map[], 1)
  {
    var s' := DoEnd(s, K);
    assert s'.t.balances == map[K := Local(5, 0)];
    assert s'.sections == map[];
  }

  lemma AcknowledgesReverse(s: State)
    requires var (r, row) := (Request0(PendingSync).(status := Rejected), Row(Reverse, Queued, 1));
             && s.t.requests == [r] && s.t.outbox == [Row(File, RowStatus.Failed, 1), row]
             && s.sections == map[K := Answered(1, row, r, Some(9))]
    ensures var s' := DoEnd(s, K);
            && s'.sections == map[] && s'.hcm == s.hcm && s'.t.balances == s.t.balances
            && |s'.t.requests| == 1 && s'.t.requests[0].status == Rejected
            && s'.t.outbox == [Row(File, RowStatus.Failed, 1), Row(Reverse, Sent, 1)]
  {
  }

  // A crash between transaction 1 and transaction 2 leaves the attempt counted and the row queued.
  lemma CrashPassesTheCap() returns (s: State)
    ensures Reachable(s, false) && s.config.maxAttempts == 1
    ensures s.t.outbox == [Row(File, Queued, 2)]
  {
    ReachFiled(5, 1);
    hide Reachable;
    FirstRow(0);
    FirstRow(1);
    FirstRow(2);
    var s1 := Begins(Request0(PendingSync), [], File, 0, Local(4, 0), Hcm0(5), 1, true);
    var s2 := Crashes(s1, true);
    s := Begins(Request0(PendingSync), [], File, 1, Local(4, 0), Hcm0(5), 1, false);
  }

  // Without a crash: while the REVERSE of a cancelled request is being dispatched, a submit for another balance
  // takes over its raw idempotency key. Saving the captured entity then violates UNIQUE, transaction 2 is rolled
  // back, and the row is tried again.
  lemma AbortPassesTheCap() returns (s: State)
    ensures Reachable(s, true) && s.config.maxAttempts == 1
    ensures s.t.outbox == [Row(File, Sent, 1), Row(Reverse, Queued, 2)]
  {
    hide Reachable;
    var s1 := DispatchesReverse();
    var s2 := KeyIsTaken(s1);
    hide Apply, DoCall, DoEnd, DoBegin;
    var script := [Delivered(9, false, false)];
    CallStepIs(s2, K, script);
    Reach(s2, true, CallStep(K, script));
    var s3 := DoCall(s2, K, script);
    ReverseIsAnswered(s2, script);
    var s4 := Ends(s3);
    EndIsAborted(s3);
    BeginStepIs(s4, 1);
    Reach(s4, true, BeginStep(1));
    s := DoBegin(s4, 1);
    TriesAgain(s4);
  }

  const GONE := Request0(PendingSync).(status := Cancelled, hcmAckAt := Some(7))
  const OTHER := BalanceKey("somebody", "else")

  // FILE applied and acknowledged, request cancelled, transaction 1 of the REVERSE done.
  lemma DispatchesReverse() returns (s: State)
    ensures Reachable(s, true) && s.config.maxAttempts == 1
    ensures s.t.requests == [GONE] && s.t.outbox == [Row(File, Sent, 1), Row(Reverse, Queued, 1)]
    ensures s.sections == map[K := Dispatching(1, Row(Reverse, Queued, 1), GONE)]
    ensures OTHER !in s.t.balances && OTHER !in s.hcm.balances && HcmKey(0, Reverse) !in s.hcm.answers &&
        K in s.hcm.balances
  {
    var script := [Delivered(7, false, false)];
    ReachFiled(5, 1);
    FileIsApplied();
    hide Reachable, Send;
    FirstRow(0);
    FirstRow(1);
    hide DoEnd, Locked;
    var s1 := Calls(Request0(PendingSync), [], File, 0, Local(4, 0), Hcm0(5), 1, script);
    UndoneReachable(s1);
    s := Begins(GONE, [Row(File, Sent, 1)], Reverse, 0, Local(5, 0), s1.hcm, 1, true);
  }

  lemma UndoneReachable(s: State)
    requires var (r, row) := (Request0(PendingSync), Row(File, Queued, 1));
             Reachable(s, true) && s == At(r, [row], Local(4, 0), s.hcm, map[K := Answered(0, row, r, Some(7))], 1)
    ensures Reachable(At(GONE, [Row(File, Sent, 1)] + [Row(Reverse, Queued, 0)], Local(5, 0), s.hcm, map[], 1), true)
  {
    hide Reachable, DoEnd, Locked;
    Undoes(s);
    var s2 := Ends(s);
    var s3 := Cancels(s2, true);
    assert [Row(File, Sent, 1), Row(Reverse, Queued, 0)] == [Row(File, Sent, 1)] + [Row(Reverse, Queued, 0)];
  }

  lemma FileIsApplied()
    ensures var (h, result) := Send(Hcm0(5), Row(File, Queued, 1).payload, File, [Delivered(7, false, false)], 1);
            && result == Some(7) && OTHER !in h.balances && K in h.balances && HcmKey(0, Reverse) !in h.answers
            && HcmKey(0, File) in h.effects && h.effects[HcmKey(0, File)] == 7 && MockHcm.BalanceAt(h, K) == 4
  {
  }

  lemma Undoes(s: State)
    requires var (r, row) := (Request0(PendingSync), Row(File, Queued, 1));
             s == At(r, [row], Local(4, 0), s.hcm, map[K := Answered(0, row, r, Some(7))], 1)
    ensures var (s1, rows) := (DoEnd(s, K), [Row(File, Sent, 1), Row(Reverse, Queued, 0)]);
            Locked(s1, 0, Cancel(s1.t, 0).0) == At(GONE, rows, Local(5, 0), s.hcm, map[], 1)
  {
    var r := Request0(PendingSync).(status := Approved, hcmAckAt := Some(7));
    var s1 := DoEnd(s, K);
    assert s1 == At(r, [Row(File, Sent, 1)], Local(4, 0), s.hcm, map[], 1);
    var t := RestoreAndReverse(s1.t, 0, r);
    assert t.requests == [GONE] && t.outbox == [Row(File, Sent, 1), Row(Reverse, Queued, 0)];
    assert t.balances == map[K := Local(5, 0)];
  }

  // Another balance is read and the raw key reused for it.
  lemma KeyIsTaken(s: State) returns (s': State)
    requires Reachable(s, true) && s.t.requests == [GONE] && K in s.sections
    requires Free(s, OTHER) && OTHER !in s.t.balances && OTHER !in s.hcm.balances
    ensures Reachable(s', true) && s'.sections == s.sections && s'.t.outbox == s.t.outbox && s'.config == s.config
    ensures s'.hcm.answers == s.hcm.answers && (K in s.hcm.balances ==> K in s'.hcm.balances)
    ensures |s'.t.requests| == 2 && s'.t.requests[0].key == K && s'.t.requests[1].idempotencyKey == "key"
  {
    hide Reachable, Apply, DoSubmit;
    OutsideStepIs(s, OTHER, 5);
    Reach(s, true, OutsideChange(OTHER, 5));
    var s1 := s.(hcm := s.hcm.(balances := s.hcm.balances[OTHER := 5]));
    var s2 := Reads(s1, OTHER, Reached(0));
    assert RowAt(s2.t.balances, OTHER) == Local(5, 0);
    s' := Submits(s2, ASK.(key := OTHER));
    ReuseIsAdmitted(s2);
  }

  lemma ReuseIsAdmitted(s: State)
    requires s.t.requests == [GONE] && Free(s, OTHER)
    requires OTHER in s.t.balances && RowAt(s.t.balances, OTHER) == Local(5, 0)
    ensures var s' := DoSubmit(s, ASK.(key := OTHER));
            && s'.sections == s.sections && s'.t.outbox == s.t.outbox && s'.config == s.config && s'.hcm == s.hcm
            && |s'.t.requests| == 2 && s'.t.requests[0].key == K && s'.t.requests[1].idempotencyKey == "key"
  {
    OneWorkingDay(MONDAY);
    hide WorkingDays, RetiredKey;
    var ask := ASK.(key := OTHER);
    assert FindByKey(s.t.requests, "key") == Some(0);
    assert Screen(s.t.requests, ask) == Proceed(Some(0), 1);
    OneKey(s.t.requests);
    assert Admit(s.t, ask, Some(0), 1, s.config.ttl).1 == Accepted(1);
  }

  lemma OneKey(requests: seq<Request>)
    requires requests == [GONE]
    ensures FindByKey(requests, RetiredKey("key", 0)) == None
    ensures FindByKey([GONE.(idempotencyKey := RetiredKey("key", 0))], "key") == None
  {
    Idempotency.RetiredKeyIsLonger("key", 0);
  }

  lemma OutsideStepIs(s: State, k: BalanceKey, delta: int)
    requires k !in s.hcm.balances
    ensures Apply(s, OutsideChange(k, delta)) == s.(hcm := s.hcm.(balances := s.hcm.balances[k := delta]))
  {
  }

  lemma ReverseIsAnswered(s: State, script: seq<Delivery>)
    requires s.sections == map[K := Dispatching(1, Row(Reverse, Queued, 1), GONE)] && s.config.maxAttempts == 1
    requires HcmKey(0, Reverse) !in s.hcm.answers && script == [Delivered(9, false, false)]
    ensures var s' := DoCall(s, K, script);
            && s'.t == s.t && s'.config == s.config
            && s'.sections == map[K := Answered(1, Row(Reverse, Queued, 1), GONE, Some(9))]
  {
  }

  lemma EndIsAborted(s: State)
    requires s.sections == map[K := Answered(1, Row(Reverse, Queued, 1), GONE, Some(9))] && s.config.maxAttempts == 1
    requires |s.t.outbox| == 2 && |s.t.requests| == 2 && s.t.requests[1].idempotencyKey == "key"
    ensures DoEnd(s, K) == s.(sections := map[])
  {
    assert SaveClashes(s.t.requests, 0, GONE);
  }

  lemma TriesAgain(s: State)
    requires s.sections == map[] && |s.t.requests| == 2
    requires s.t.outbox == [Row(File, Sent, 1), Row(Reverse, Queued, 1)]
    ensures DoBegin(s, 1).t.outbox == [Row(File, Sent, 1), Row(Reverse, Queued, 2)] && DoBegin(s, 1).config == s.config
  {
  }

  // One day left, locally and at HCM, and one day asked for: approve refuses it when HCM can be reached.
  lemma ApproveRefusesWhatFits() returns (s: State)
    ensures Reachable(s, true) && s.sections == map[]
    ensures |s.t.requests| == 1 && s.t.requests[0].status == Rejected
    ensures RowAt(s.t.balances, K).available == MockHcm.BalanceAt(s.hcm, K) == s.t.requests[0].days
  {
    ReachPending(1, 3);
    hide Reachable;
    var s1 := Approves(At(Request0(Pending), [], Local(1, 1), Hcm0(1), map[], 3), 0, Reached(1));
    assert s1.sections == map[K := Refreshed(0, Request0(Pending))];
    s := Decides(s1);
  }

  // A balance never read, and an HCM that is down when submit warms it up: submit waits for its own lock, and
  // SelfWaitIsForGood says how long.
  lemma ColdSubmitBlocksItself() returns (s: State)
    ensures Reachable(s, true) && K in s.sections && s.sections[K] == SelfWait
  {
    OneWorkingDay(MONDAY);
    hide WorkingDays, Reachable;
    var s0 := State.State(Tables([], [], map[], [], []), Hcm0(5), map[], multiset{}, Config(3, 14));
    ReachFresh(s0);
    var s1 := Reads(s0, K, Unreachable);
    assert Screen(s1.t.requests, ASK) == Proceed(None, 1);
    s := Submits(s1, ASK);
  }

  // With one day under way, approving another refreshes from an HCM that has not taken the first: of two days
  // committed against five, one is missing from the local figure.
  lemma RefreshForgetsDaysUnderWay() returns (s: State)
    ensures Reachable(s, true) && s.sections == map[]
    ensures |s.t.requests| == 2 && forall i :: 0 <= i < 2 ==>
        s.t.requests[i].status == PendingSync && s.t.requests[i].days == 1
    ensures RowAt(s.t.balances, K).available == 4 && MockHcm.BalanceAt(s.hcm, K) == 5
  {
    ReachFiled(5, 3);
    hide Reachable;
    var s1 := AsksForTuesday(Filed(5, Hcm0(5), 3));
    var s2 := Approves(s1, 1, Reached(1));
    assert s2.sections[K] == Refreshed(1, s1.t.requests[1]);
    s := Decides(s2);
    assert s.sections == map[];
  }

  lemma AsksForTuesday(s: State) returns (s': State)
    requires Reachable(s, true) && s == Filed(5, Hcm0(5), 3)
    ensures Reachable(s', true) && |s'.t.requests| == 2 && s'.t.requests[0] == Request0(PendingSync)
    ensures var r := s'.t.requests[1]; r.key == K && r.days == 1 && r.status == Pending && r.startDay == MONDAY + 1
    ensures RowAt(s'.t.balances, K) == Local(4, 1) && s'.hcm == Hcm0(5) && s'.sections == map[]
  {
    OneWorkingDay(MONDAY + 1);
    hide Reachable, WorkingDays;
    var ask := Submission(K, MONDAY + 1, MONDAY + 1, "other", 0, 0);
    assert s.t.requests[..0] == [] && "key" != "other";
    assert FindByKey(s.t.requests, "other") == None;
    assert Screen(s.t.requests, ask) == Proceed(None, 1);
    s' := Submits(s, ask);
  }

  // Somebody submits, as a key of his own, the key that "key" would be retired to: once the first request is over,
  // its key cannot be used again.
  lemma ChosenKeyBlocksReuse() returns (s: State)
    ensures Reachable(s, true) && s.sections == map[]
    ensures |s.t.requests| == 2 && s.t.requests[0].idempotencyKey == "key" && s.t.requests[0].status == Cancelled
    ensures s.t.requests[1].idempotencyKey == "key:terminal:0"
    ensures RowAt(s.t.balances, K) == Local(5, 1)
    ensures Submit(s.t, ASK, s.config.ttl) == (s.t, Refused(UniqueViolation))
  {
    ReachPending(5, 3);
    hide Reachable;
    var s1 := Cancels(At(Request0(Pending), [], Local(5, 1), Hcm0(5), map[], 3), true);
    assert s1.t.requests == [Request0(Cancelled).(committedAt := None)];
    assert s1.t.balances == map[K := Local(5, 0)];
    s := TakesRetiredKey(s1);
    UniqueRefuses(s.t, s.config.ttl);
  }

  lemma TakesRetiredKey(s: State) returns (s': State)
    requires Reachable(s, true) && s.sections == map[]
    requires s.t.requests == [Request0(Cancelled).(committedAt := None)] && s.t.balances == map[K := Local(5, 0)]
    ensures Reachable(s', true) && s'.sections == map[]
    ensures |s'.t.requests| == 2 && s'.t.requests[0] == s.t.requests[0] && s'.t.balances == map[K := Local(5, 1)]
    ensures s'.t.requests[1]
         == Request(K, MONDAY + 1, MONDAY + 1, 1, Pending, "key:terminal:0", s.config.ttl, None, None)
  {
    OneWorkingDay(MONDAY + 1);
    hide Reachable, WorkingDays;
    var ask := Submission(K, MONDAY + 1, MONDAY + 1, "key:terminal:0", 0, 0);
    assert |"key"| != |"key:terminal:0"|;
    assert FindByKey(s.t.requests, ask.idempotencyKey) == None;
    assert Screen(s.t.requests, ask) == Proceed(None, 1);
    s' := Submits(s, ask);
  }

  lemma UniqueRefuses(t: Tables, ttl: int)
    requires |t.requests| == 2 && t.requests[0] == Request0(Cancelled).(committedAt := None)
    requires t.requests[1].idempotencyKey == "key:terminal:0" && t.requests[1].startDay == MONDAY + 1
    requires RowAt(t.balances, K) == Local(5, 1)
    ensures Submit(t, ASK, ttl) == (t, Refused(UniqueViolation))
  {
    OneWorkingDay(MONDAY);
    hide WorkingDays;
    assert |"key"| != |"key:terminal:0"|;
    assert t.requests[..1] == [t.requests[0]];
    assert FindByKey(t.requests, "key") == Some(0);
    assert Screen(t.requests, ASK) == Proceed(Some(0), 1);
    assert RetiredKey("key", 0) == "key:terminal:0";
  }
}
