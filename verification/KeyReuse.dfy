// Using one idempotency key again and again: the keys given to old requests are told apart by their ids, so
// UNIQUE(idempotencyKey) never stops a submit unless somebody chose such a key to begin with.
module KeyReuse {
  import opened Entities
  import opened HcmClient
  import opened Calendar
  import opened Lifecycle
  import opened Machine
  import opened Invariant
  import opened Idempotency
  import HcmCall
  import MockHcm
  import OutboxTable
  import WorkDays

  // ---- Retired keys can be read back ----------------------------------------------------------------------

  lemma {:induction false} DigitsReadBack(n: nat)
    ensures forall c :: c in Digits(n) ==> IsDigit(c)
    ensures Value(Digits(n)) == n
  {
    var last := DIGITS[n % 10];
    assert IsDigit(last) && DigitValue(last) == n % 10;
    if n < 10 {
      assert Digits(n) == [last] && Digits(n)[..0] == "";
    } else {
      DigitsReadBack(n / 10);
      assert Digits(n)[..|Digits(n)| - 1] == Digits(n / 10);
    }
  }

  // The last colon of a retired key stands right before the id.
  lemma RetiredKeyParts(key: string, id: nat)
    ensures var (s, colon) := (RetiredKey(key, id), |key| + 9);
            && colon < |s| && s[..|key|] == key && s[colon] == ':'
            && s[colon + 1..] == Digits(id)
            && forall p :: colon < p < |s| ==> s[p] != ':'
  {
    hide Digits, Value;
    DigitsReadBack(id);
    var s := key + ":terminal:";
    assert s[|key| + 9] == ":terminal:"[9];
    assert (s + Digits(id))[|s|..] == Digits(id);
    forall p | |s| <= p < |s| + |Digits(id)| ensures (s + Digits(id))[p] != ':' {
      assert (s + Digits(id))[p] == Digits(id)[p - |s|] && Digits(id)[p - |s|] in Digits(id);
    }
    assert (s + Digits(id))[..|key|] == key;
  }

  // A retired key says which key was retired and whose it was.
  lemma RetiredKeyReadsBack(key: string, id: nat, other: string, otherId: nat)
    ensures RetiredKey(key, id) == RetiredKey(other, otherId) <==> key == other && id == otherId
  {
    hide RetiredKey, Digits, Value;
    if RetiredKey(key, id) == RetiredKey(other, otherId) {
      RetiredKeyParts(key, id);
      RetiredKeyParts(other, otherId);
      DigitsReadBack(id);
      DigitsReadBack(otherId);
    }
  }

  // ---- Over any run ----------------------------------------------------------------------------------------

  // A key that is not the retired key of anything.
  ghost predicate Plain(key: string) {
    forall raw: string, id: nat :: key != RetiredKey(raw, id)
  }

  ghost predicate ChoosesPlainKeys(steps: seq<Step>) {
    forall step :: step in steps && step.SubmitStep? ==> Plain(step.sub.idempotencyKey)
  }

  // The key request `id` can have: the one it was submitted with, or that one retired under its own id.
  ghost predicate OwnKey(key: string, id: nat) {
    Plain(key) || exists raw: string :: Plain(raw) && key == RetiredKey(raw, id)
  }

  ghost predicate HoldsOwnKey(section: Section) {
    match section
    case Refreshed(id, held) => OwnKey(held.idempotencyKey, id)
    case Dispatching(_, row, held) => OwnKey(held.idempotencyKey, row.aggregateId)
    case Answered(_, row, held, _) => OwnKey(held.idempotencyKey, row.aggregateId)
    case _ => true
  }

  ghost predicate OwnKeys(s: State) {
    && (forall i :: 0 <= i < |s.t.requests| ==> OwnKey(s.t.requests[i].idempotencyKey, i))
    && (forall k :: k in s.sections ==> HoldsOwnKey(s.sections[k]))
  }

  lemma SubmitKeepsOwnKeys(s: State, sub: Submission)
    requires OwnKeys(s) && Plain(sub.idempotencyKey)
    ensures OwnKeys(DoSubmit(s, sub))
  {
    hide RetiredKey, AnyClash, WorkDays.WorkingDays, RetiredKeyTaken, Plain;
  }

  lemma ApproveKeepsOwnKeys(s: State, id: nat, now: int, today: int, refresh: Refresh)
    requires OwnKeys(s)
    ensures OwnKeys(DoApprove(s, id, now, today, refresh))
  {
    hide OwnKey, BuildRow, RowAt, Lifecycle.Release, Commit, ApplySnapshot;
  }

  lemma DecideKeepsOwnKeys(s: State, k: BalanceKey, now: int)
    requires OwnKeys(s)
    ensures OwnKeys(DoDecide(s, k, now))
  {
    hide OwnKey, BuildRow, RowAt, Lifecycle.Release, Commit;
  }

  lemma LeaveKeepsOwnKeys(s: State, id: nat)
    requires OwnKeys(s)
    ensures OwnKeys(Locked(s, id, Reject(s.t, id).0))
    ensures OwnKeys(Locked(s, id, Cancel(s.t, id).0))
    ensures OwnKeys(Locked(s, id, Expire(s.t, id).0))
  {
    hide OwnKey, BuildRow, RowAt, Lifecycle.Release, Lifecycle.Restore, FileSent, OutboxTable.VoidQueuedFiles;
  }

  lemma BeginKeepsOwnKeys(s: State, o: nat)
    requires OwnKeys(s)
    ensures OwnKeys(DoBegin(s, o))
  {
    hide OwnKey;
  }

  lemma CallKeepsOwnKeys(s: State, k: BalanceKey, script: seq<HcmCall.Delivery>)
    requires OwnKeys(s)
    ensures OwnKeys(DoCall(s, k, script))
  {
    hide OwnKey, HcmCall.Send;
  }

  lemma EndKeepsOwnKeys(s: State, k: BalanceKey)
    requires OwnKeys(s)
    ensures OwnKeys(DoEnd(s, k))
  {
    hide OwnKey, BuildRow, RowAt, Lifecycle.Restore, SaveClashes;
  }

  lemma ReadersKeepOwnKeys(s: State, k: BalanceKey, refresh: Refresh)
    requires OwnKeys(s)
    ensures OwnKeys(DoPeek(s, k)) && OwnKeys(DoLook(s, k)) && OwnKeys(DoHydrate(s, k, refresh))
  {
    hide OwnKey, ApplySnapshot, MockHcm.Provision, MockHcm.BalanceAt;
  }

  lemma StepKeepsOwnKeys(s: State, step: Step)
    requires OwnKeys(s) && (step.SubmitStep? ==> Plain(step.sub.idempotencyKey))
    ensures OwnKeys(Apply(s, step))
  {
    hide OwnKey, DoPeek, DoLook, DoHydrate, DoSubmit, DoApprove, DoDecide, DoBegin, DoCall, DoEnd, Reject, Cancel,
      Expire, Locked, ReconciledRow, ReconcileEvent;
    match step
    case PeekStep(k) => ReadersKeepOwnKeys(s, k, Unreachable);
    case LookStep(k) => ReadersKeepOwnKeys(s, k, Unreachable);
    case HydrateStep(k, refresh) => ReadersKeepOwnKeys(s, k, refresh);
    case SubmitStep(sub) => SubmitKeepsOwnKeys(s, sub);
    case ApproveStep(id, now, today, refresh) => ApproveKeepsOwnKeys(s, id, now, today, refresh);
    case DecideStep(k, now) => DecideKeepsOwnKeys(s, k, now);
    case RejectStep(id) => LeaveKeepsOwnKeys(s, id);
    case CancelStep(id) => LeaveKeepsOwnKeys(s, id);
    case ExpireStep(id) => LeaveKeepsOwnKeys(s, id);
    case BeginStep(o) => BeginKeepsOwnKeys(s, o);
    case CallStep(k, script) => CallKeepsOwnKeys(s, k, script);
    case EndStep(k) => EndKeepsOwnKeys(s, k);
    case _ =>
  }

  lemma {:induction false} RunKeepsOwnKeys(s: State, steps: seq<Step>)
    requires OwnKeys(s) && ChoosesPlainKeys(steps)
    ensures OwnKeys(Run(s, steps))
    decreases |steps|
  {
    hide OwnKeys, Apply, Plain;
    if steps != [] {
      assert steps[0] in steps && forall step :: step in steps[1..] ==> step in steps;
      StepKeepsOwnKeys(s, steps[0]);
      RunKeepsOwnKeys(Apply(s, steps[0]), steps[1..]);
    }
  }

  // Nobody holds the key a request would be given when its plain key is used again.
  lemma RetiredKeyIsFree(s: State, i: nat)
    requires OwnKeys(s) && i < |s.t.requests| && Plain(s.t.requests[i].idempotencyKey)
    ensures !HoldsKey(s.t.requests, RetiredKey(s.t.requests[i].idempotencyKey, i))
  {
    hide RetiredKey;
    var key := s.t.requests[i].idempotencyKey;
    forall j | 0 <= j < |s.t.requests| ensures s.t.requests[j].idempotencyKey != RetiredKey(key, i) {
      assert OwnKey(s.t.requests[j].idempotencyKey, j);
      if s.t.requests[j].idempotencyKey == RetiredKey(key, i) {
        var raw :| s.t.requests[j].idempotencyKey == RetiredKey(raw, j);
        RetiredKeyReadsBack(raw, j, key, i);
      }
    }
  }

  // From a fresh database, however often keys have been used: if nobody ever chose a retired key, a submit creates
  // its request exactly when its key is not that of an active request, its days are free, in order, not over and
  // not all weekend, and the balance covers them. UNIQUE never refuses it.
  lemma PlainKeysCreateIff(s: State, steps: seq<Step>, sub: Submission)
    requires Initial(s) && ChoosesPlainKeys(steps) && Plain(sub.idempotencyKey)
    ensures var t := Run(s, steps).t;
            var reply := Submit(t, sub, s.config.ttl).1;
            var days := WorkDays.WorkingDays(sub.startDay, sub.endDay + 1, {});
            && reply != Refused(UniqueViolation)
            && (reply == Accepted(|t.requests|) <==>
                  && (forall i :: 0 <= i < |t.requests| && t.requests[i].idempotencyKey == sub.idempotencyKey ==>
                        t.requests[i].status.Terminal())
                  && (forall i :: 0 <= i < |t.requests| && t.requests[i].key == sub.key ==>
                        || t.requests[i].status.Terminal()
                        || t.requests[i].endDay < sub.startDay || sub.endDay < t.requests[i].startDay)
                  && sub.startDay <= sub.endDay && sub.today <= sub.endDay && days > 0
                  && RowAt(t.balances, sub.key).available - RowAt(t.balances, sub.key).reserved >= days)
  {
    hide Run, RetiredKey, WorkDays.WorkingDays, OwnKey, Plain, Submit, Inv;
    RunKeepsOwnKeys(s, steps);
    ReachableInv(s, steps);
    var s' := Run(s, steps);
    InvHasKeys(s');
    forall i | 0 <= i < |s'.t.requests| && s'.t.requests[i].idempotencyKey == sub.idempotencyKey
      ensures !HoldsKey(s'.t.requests, RetiredKey(sub.idempotencyKey, i))
    {
      RetiredKeyIsFree(s', i);
    }
    SubmitCreatesIff(s'.t, sub, s.config.ttl);
    UniqueLetsThrough(s'.t, sub, s.config.ttl);
  }

  lemma UniqueLetsThrough(t: Tables, sub: Submission, ttl: int)
    requires KeysOk(t.requests)
    requires forall i :: 0 <= i < |t.requests| && t.requests[i].idempotencyKey == sub.idempotencyKey ==>
               !HoldsKey(t.requests, RetiredKey(sub.idempotencyKey, i))
    ensures Submit(t, sub, ttl).1 != Refused(UniqueViolation)
  {
    hide RetiredKey, WorkDays.WorkingDays, AnyClash, KeysOk;
    match Screen(t.requests, sub)
    case Proceed(existing, days) =>
      if existing.Some? {
        HoldsKeyIfFound(t.requests, RetiredKey(sub.idempotencyKey, existing.value));
      }
      if Covers(RowAt(t.balances, sub.key), days) {
        AdmitUnlessTaken(t, sub, existing, days, ttl);
      }
    case _ =>
  }
}
