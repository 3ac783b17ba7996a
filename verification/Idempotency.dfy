// Submitting again: the same key with the same body, and a key whose request is over.
module Idempotency {
  import opened Entities
  import HcmClient
  import opened Lifecycle
  import opened Machine
  import opened Automaton
  import opened Invariant
  import opened RunLaws

  // While it is active a request keeps its key.
  ghost predicate KeepsKey(s: State, s': State, i: nat) {
    && i < |s.t.requests| <= |s'.t.requests|
    && (s'.t.requests[i].status.Active() ==>
          s.t.requests[i].status.Active() && s'.t.requests[i].idempotencyKey == s.t.requests[i].idempotencyKey)
  }

  ghost predicate SameKey(s: State, s': State, i: nat) {
    && i < |s.t.requests| <= |s'.t.requests|
    && (s.t.requests[i].status.Active() ==> s'.t.requests[i].idempotencyKey == s.t.requests[i].idempotencyKey)
  }

  lemma DecideSavesKey(s: State, k: BalanceKey, now: int, i: nat)
    requires Inv(s) && i < |s.t.requests|
    ensures SameKey(s, DoDecide(s, k, now), i)
  {
    hide RequestsOk, RowsOk, HcmKeysOk, WarmOk, LandedOk, BooksOk, KeysOk;
    if k in s.sections {
      assert SectionOk(s, k, s.sections[k]);
    }
  }

  lemma EndSavesKey(s: State, k: BalanceKey, i: nat)
    requires Inv(s) && i < |s.t.requests|
    ensures SameKey(s, DoEnd(s, k), i)
  {
    hide RequestsOk, RowsOk, HcmKeysOk, WarmOk, LandedOk, BooksOk, KeysOk, SaveClashes;
    if k in s.sections {
      assert SectionOk(s, k, s.sections[k]);
    }
  }

  lemma ApproveSavesKey(s: State, id: nat, now: int, today: int, refresh: Refresh, i: nat)
    requires i < |s.t.requests|
    ensures SameKey(s, DoApprove(s, id, now, today, refresh), i)
  {
    hide BuildRow, RowAt, Lifecycle.Release, Commit, ApplySnapshot;
  }

  lemma LeaveSavesKey(t: Tables, id: nat, i: nat)
    requires i < |t.requests|
    ensures forall t' :: t' in {Reject(t, id).0, Cancel(t, id).0, Expire(t, id).0} ==>
              |t'.requests| == |t.requests| && t'.requests[i].idempotencyKey == t.requests[i].idempotencyKey
  {
    hide BuildRow, RowAt, Lifecycle.Release, Lifecycle.Restore, FileSent, OutboxTable.VoidQueuedFiles;
  }

  lemma SavedKeys(s: State, step: Step, i: nat)
    requires Inv(s) && i < |s.t.requests| && !step.SubmitStep?
    ensures SameKey(s, Apply(s, step), i)
  {
    hide Inv, DoApprove, DoDecide, DoEnd, ReconciledRow, ReconcileEvent, BuildRow, OutboxTable.VoidQueuedFiles,
      HcmCall.Send,
      Lifecycle.Reject, Lifecycle.Cancel, Lifecycle.Expire, ApplySnapshot, RowAt;
    match step
    case RejectStep(id) => LeaveSavesKey(s.t, id, i);
    case CancelStep(id) => LeaveSavesKey(s.t, id, i);
    case ExpireStep(id) => LeaveSavesKey(s.t, id, i);
    case ApproveStep(id, now, today, refresh) => ApproveSavesKey(s, id, now, today, refresh, i);
    case DecideStep(k, now) => DecideSavesKey(s, k, now, i);
    case EndStep(k) => EndSavesKey(s, k, i);
    case _ =>
  }

  lemma StepKeepsKey(s: State, step: Step, i: nat)
    requires Inv(s) && i < |s.t.requests|
    ensures KeepsKey(s, Apply(s, step), i)
  {
    hide Inv, Apply;
    StepSettles(s, step, i);
    if step.SubmitStep? {
      SubmitKeepsKey(s, step, i);
    } else {
      SavedKeys(s, step, i);
    }
  }

  lemma SubmitKeepsKey(s: State, step: Step, i: nat)
    requires step.SubmitStep? && i < |s.t.requests| <= |Apply(s, step).t.requests|
    ensures s.t.requests[i].status.Active() ==>
        Apply(s, step).t.requests[i].idempotencyKey == s.t.requests[i].idempotencyKey
  {
    hide WorkDays.WorkingDays, AnyClash, RetiredKey, RetiredKeyTaken;
  }

  lemma {:induction false} RunKeepsKey(s: State, steps: seq<Step>, i: nat)
    requires Inv(s) && i < |s.t.requests|
    ensures Inv(Run(s, steps)) && KeepsKey(s, Run(s, steps), i)
    decreases |steps|
  {
    hide Inv, Apply;
    if steps != [] {
      StepKeepsInv(s, steps[0]);
      StepKeepsKey(s, steps[0], i);
      RunKeepsKey(Apply(s, steps[0]), steps[1..], i);
    }
  }

  // The one holder of a key.
  lemma HolderIsFound(requests: seq<Request>, i: nat)
    requires KeysOk(requests) && i < |requests|
    ensures FindByKey(requests, requests[i].idempotencyKey) == Some(i)
  {
  }

  // An accepted submission, sent again after any run that leaves its request active, is answered with that
  // request and changes nothing: its days are reserved once.
  lemma ReplayReturnsTheSame(s: State, sub: Submission, again: Submission, steps: seq<Step>, id: nat)
    requires Inv(s) && Warm(s.t, sub.key) && Free(s, sub.key)
    requires Submit(s.t, sub, s.config.ttl).1 == Accepted(id)
    requires again.idempotencyKey == sub.idempotencyKey && again.key == sub.key
             && again.startDay == sub.startDay && again.endDay == sub.endDay
    requires var t' := Run(Apply(s, SubmitStep(sub)), steps).t; id < |t'.requests| && t'.requests[id].status.Active()
    ensures var t' := Run(Apply(s, SubmitStep(sub)), steps).t; Submit(t', again, s.config.ttl) == (t', Accepted(id))
  {
    var s1 := Apply(s, SubmitStep(sub));
    AcceptedHolds(s, sub, id);
    StepKeepsInv(s, SubmitStep(sub));
    hide Inv, Apply, Run, Admit, AnyClash, WorkDays.WorkingDays;
    RunKeepsKey(s1, steps, id);
    RunSettles(s1, steps, id);
    var t' := Run(s1, steps).t;
    InvHasKeys(Run(s1, steps));
    HolderIsFound(t'.requests, id);
  }

  lemma InvHasKeys(s: State)
    requires Inv(s)
    ensures KeysOk(s.t.requests)
  {
  }

  lemma AcceptedHolds(s: State, sub: Submission, id: nat)
    requires Warm(s.t, sub.key) && Free(s, sub.key)
    requires Submit(s.t, sub, s.config.ttl).1 == Accepted(id)
    ensures var t' := Apply(s, SubmitStep(sub)).t;
            && id < |t'.requests| && t'.requests[id].idempotencyKey == sub.idempotencyKey &&
                SameBody(t'.requests[id], sub)
  {
    hide WorkDays.WorkingDays, AnyClash, RetiredKey, RetiredKeyTaken;
  }

  // Reusing the key of a terminal request adds a new request and changes nothing of the old one but its key.
  lemma ReuseLeavesTheOldRequest(s: State, sub: Submission, over: nat)
    requires Inv(s) && Warm(s.t, sub.key) && Free(s, sub.key)
    requires over < |s.t.requests| && s.t.requests[over].idempotencyKey == sub.idempotencyKey &&
        s.t.requests[over].status.Terminal()
    requires Submit(s.t, sub, s.config.ttl).1.Accepted?
    ensures var t' := Submit(s.t, sub, s.config.ttl).0;
            var n := |s.t.requests|;
            && Submit(s.t, sub, s.config.ttl).1 == Accepted(n)
            && |t'.requests| == n + 1
            && t'.requests[n].idempotencyKey == sub.idempotencyKey && t'.requests[n].status == Pending
            && Bare(t'.requests[over]) == Bare(s.t.requests[over])
            && t'.requests[over].idempotencyKey == sub.idempotencyKey + ":terminal:" + HcmClient.Digits(over)
            && (forall i :: 0 <= i < n && i != over ==> t'.requests[i] == s.t.requests[i])
            && RowAt(t'.balances, sub.key).reserved == RowAt(s.t.balances, sub.key).reserved + t'.requests[n].days
            && t'.outbox == s.t.outbox
  {
    hide WorkDays.WorkingDays, AnyClash, RequestsOk, RowsOk, HcmKeysOk, WarmOk, LandedOk, BooksOk, SectionsOk;
    TerminalOrActive(s.t.requests[over].status);
    HolderIsFound(s.t.requests, over);
  }

  // A reuse that passes every other check is refused exactly when someone already holds the key the old request
  // would be given.
  lemma ReuseBlockedIff(t: Tables, sub: Submission, over: nat, days: nat, ttl: int)
    requires KeysOk(t.requests) && Screen(t.requests, sub) == Proceed(Some(over), days)
    requires Covers(RowAt(t.balances, sub.key), days)
    ensures Submit(t, sub, ttl).1.Refused?
       <==> exists i :: 0 <= i < |t.requests| && t.requests[i].idempotencyKey == RetiredKey(sub.idempotencyKey, over)
    ensures Submit(t, sub, ttl).1.Refused? ==> Submit(t, sub, ttl) == (t, Refused(UniqueViolation))
  {
    hide WorkDays.WorkingDays, AnyClash, RetiredKey;
    assert FindByKey(t.requests, sub.idempotencyKey) == Some(over);
    var kept := Retire(t.requests, Some(over));
    if FindByKey(kept, sub.idempotencyKey).Some? {
      var i := FindByKey(kept, sub.idempotencyKey).value;
      if i == over {
        RetiredKeyIsLonger(sub.idempotencyKey, over);
      }
    }
  }

  lemma RetiredKeyIsLonger(key: string, id: nat)
    ensures |RetiredKey(key, id)| > |key|
  {
  }

  // ---- When submit accepts ------------------------------------------------------------------------------

  ghost predicate Acceptable(t: Tables, sub: Submission) {
    var days := WorkDays.WorkingDays(sub.startDay, sub.endDay + 1, {});
    && (forall i :: 0 <= i < |t.requests| && t.requests[i].idempotencyKey == sub.idempotencyKey ==>
          t.requests[i].status.Terminal() && !HoldsKey(t.requests, RetiredKey(sub.idempotencyKey, i)))
    && (forall i :: 0 <= i < |t.requests| && t.requests[i].key == sub.key && !t.requests[i].status.Terminal() ==>
          t.requests[i].endDay < sub.startDay || sub.endDay < t.requests[i].startDay)
    && sub.startDay <= sub.endDay && sub.today <= sub.endDay
    && days > 0
    && RowAt(t.balances, sub.key).available - RowAt(t.balances, sub.key).reserved >= days
  }

  ghost predicate HoldsKey(requests: seq<Request>, key: string) {
    exists i :: 0 <= i < |requests| && requests[i].idempotencyKey == key
  }

  // Submit creates a request exactly when its key is not in use, its days are free, in order, not over and not
  // all weekend, and the balance covers them on top of what is reserved; and then it reserves just these days.
  lemma SubmitCreatesIff(t: Tables, sub: Submission, ttl: int)
    requires KeysOk(t.requests)
    ensures var (t', reply) := Submit(t, sub, ttl);
            var n := |t.requests|;
            && (reply == Accepted(n) <==> Acceptable(t, sub))
            && (reply == Accepted(n) ==>
                  && |t'.requests| == n + 1
                  && t'.requests[n] == Request(sub.key, sub.startDay, sub.endDay,
                                               WorkDays.WorkingDays(sub.startDay, sub.endDay + 1, {}), Pending,
                                               sub.idempotencyKey, sub.now + ttl, None, None)
                  && RowAt(t'.balances, sub.key).available == RowAt(t.balances, sub.key).available
                  && RowAt(t'.balances, sub.key).reserved == RowAt(t.balances, sub.key).reserved + t'.requests[n].days
                  && t'.outbox == t.outbox)
            && (reply != Accepted(n) ==> t' == t)
  {
    hide WorkDays.WorkingDays, RetiredKey;
    var found := FindByKey(t.requests, sub.idempotencyKey);
    if found.Some? {
      TerminalOrActive(t.requests[found.value].status);
      HolderIsFound(t.requests, found.value);
      RetiredKeyIsLonger(sub.idempotencyKey, found.value);
      HoldsKeyIfFound(t.requests, RetiredKey(sub.idempotencyKey, found.value));
    }
    match Screen(t.requests, sub)
    case Proceed(existing, days) =>
      if Covers(RowAt(t.balances, sub.key), days) {
        AdmitUnlessTaken(t, sub, existing, days, ttl);
      }
    case _ =>
  }

  lemma HoldsKeyIfFound(requests: seq<Request>, key: string)
    ensures HoldsKey(requests, key) <==> FindByKey(requests, key).Some?
  {
  }

  lemma AdmitUnlessTaken(t: Tables, sub: Submission, existing: Option<nat>, days: nat, ttl: int)
    requires KeysOk(t.requests) && Screen(t.requests, sub) == Proceed(existing, days)
    requires Covers(RowAt(t.balances, sub.key), days)
    ensures Admit(t, sub, existing, days, ttl).1
         == if RetiredKeyTaken(t.requests, existing) then Refused(UniqueViolation) else Accepted(|t.requests|)
  {
    hide WorkDays.WorkingDays, AnyClash, RetiredKey;
    if existing.Some? {
      assert FindByKey(t.requests, sub.idempotencyKey) == existing;
      var kept := Retire(t.requests, existing);
      if FindByKey(kept, sub.idempotencyKey).Some? {
        RetiredKeyIsLonger(sub.idempotencyKey, existing.value);
      }
    }
  }
}
