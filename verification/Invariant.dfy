// What every reachable state keeps, over every interleaving of the actors and every crash.
module Invariant {
  import opened Entities
  import opened Sums
  import opened OutboxTable
  import opened MockHcm
  import opened HcmCall
  import opened Lifecycle
  import opened Machine
  import opened Automaton
  import opened Refinement

  // Status, outbox rows and HCM record of every request go together.
  ghost predicate RequestsOk(s: State) {
    forall i :: 0 <= i < |s.t.requests| ==> Coupled(ViewOf(s, i), i)
  }

  ghost predicate RowsOk(s: State) {
    forall o :: 0 <= o < |s.t.outbox| ==> s.t.outbox[o].aggregateId < |s.t.requests|
  }

  ghost predicate HcmKeysOk(s: State) {
    forall hk :: hk in s.hcm.answers.Keys + s.hcm.effects.Keys ==> hk.request < |s.t.requests|
  }

  // Nobody has a request on a balance that was never read from HCM.
  ghost predicate WarmOk(s: State) {
    forall i :: 0 <= i < |s.t.requests| ==> Warm(s.t, s.t.requests[i].key)
  }

  ghost predicate LandedOk(s: State) {
    forall i :: 0 <= i < |s.t.requests| && ViewOf(s, i).filed.Some? ==> s.t.requests[i].key in s.hcm.balances
  }

  // `reserved` is the sum of the PENDING days.
  ghost predicate BooksOk(s: State) {
    forall k :: RowAt(s.t.balances, k).reserved == Total(s, k, PendingDays)
  }

  // UNIQUE(idempotencyKey)
  ghost predicate KeysOk(requests: seq<Request>) {
    forall i, j :: 0 <= i < j < |requests| ==> requests[i].idempotencyKey != requests[j].idempotencyKey
  }

  // The entities a half-way actor holds are still what the tables say; only the idempotency key of a terminal
  // request can have been given to a new submit in the meantime.
  ghost predicate Holds(s: State, k: BalanceKey, o: nat, row: OutboxRow, held: Request) {
    && o < |s.t.outbox| && s.t.outbox[o] == row && row.status == Queued
    && row.aggregateId < |s.t.requests|
    && Bare(s.t.requests[row.aggregateId]) == Bare(held)
    && (s.t.requests[row.aggregateId] == held || held.status.Terminal())
    && held.key == k
  }

  ghost predicate SectionOk(s: State, k: BalanceKey, section: Section) {
    match section
    case SelfWait => !Warm(s.t, k)
    case Hydrating => !Warm(s.t, k)
    case Refreshed(id, held) =>
      id < |s.t.requests| && s.t.requests[id] == held && held.key == k && held.status == Pending
    case Dispatching(o, row, held) => Holds(s, k, o, row, held)
    case Answered(o, row, held, result) =>
      && Holds(s, k, o, row, held)
      && (result.Some? ==>
            var v := ViewOf(s, row.aggregateId);
            (if row.operation == File then v.fileAnswer else v.reverseAnswer) == Some(Acked(result.value)))
  }

  ghost predicate SectionsOk(s: State) {
    forall k :: k in s.sections ==> SectionOk(s, k, s.sections[k])
  }

  ghost predicate Inv(s: State) {
    && RequestsOk(s) && RowsOk(s) && HcmKeysOk(s) && WarmOk(s) && LandedOk(s) && BooksOk(s)
    && KeysOk(s.t.requests) && SectionsOk(s)
  }

  lemma InvCouples(s: State, i: nat)
    requires Inv(s) && i < |s.t.requests|
    ensures Coupled(ViewOf(s, i), i)
  {
  }

  // A key that waits for itself, or is being hydrated, is cold.
  lemma HeldColdOnly(s: State, k: BalanceKey)
    requires Inv(s) && k in s.sections && (s.sections[k] == SelfWait || s.sections[k] == Hydrating)
    ensures !Warm(s.t, k)
  {
    hide RequestsOk, RowsOk, HcmKeysOk, WarmOk, LandedOk, BooksOk, KeysOk;
    assert SectionOk(s, k, s.sections[k]);
  }

  lemma InitialInv(s: State)
    requires Initial(s)
    ensures Inv(s)
  {
  }

  // ---- Preservation -------------------------------------------------------------------------------------

  lemma OthersKeepSections(s: State, s': State, i: nat, k: BalanceKey, k': BalanceKey)
    requires Inv(s) && OnlyRequest(s, s', i, k) && k' in s.sections && k' != k
    ensures SectionOk(s', k', s.sections[k'])
  {
    assert RowAt(s'.t.balances, k') == RowAt(s.t.balances, k');
  }

  lemma PendingIsReserved(s: State, i: nat)
    requires Inv(s) && i < |s.t.requests| && s.t.requests[i].status == Pending
    ensures RowAt(s.t.balances, s.t.requests[i].key).reserved >= s.t.requests[i].days
  {
    var k := s.t.requests[i].key;
    TotalOfOneKind(s, k, PendingDays, i);
  }

  lemma IsReady(s: State, i: nat, held: Request)
    requires Inv(s) && i < |s.t.requests| && Bare(held) == Bare(s.t.requests[i])
    ensures Ready(s, i, held)
  {
    if held.status == Pending {
      PendingIsReserved(s, i);
    }
  }

  lemma MoveKeepsBooks(s: State, s': State, i: nat, k: BalanceKey, m: Move)
    requires Inv(s) && Makes(s, s', i, k, m)
    ensures BooksOk(s')
  {
    hide RowsOk, HcmKeysOk, WarmOk, LandedOk, KeysOk, SectionsOk, Coupled, Total, RowsOf, After, Fits;
    MoveConserves(ViewOf(s, i), i, m);
    forall k' ensures RowAt(s'.t.balances, k').reserved == Total(s', k', PendingDays) {
      TotalAfterMove(s, s', i, k, PendingDays, k');
    }
  }

  lemma MoveKeepsWarm(s: State, s': State, i: nat, k: BalanceKey, m: Move)
    requires WarmOk(s) && Makes(s, s', i, k, m)
    ensures WarmOk(s')
  {
    forall j | 0 <= j < |s'.t.requests| ensures Warm(s'.t, s'.t.requests[j].key) {
      assert s'.t.requests[j].key == s.t.requests[j].key;
      assert Warm(s.t, s.t.requests[j].key);
      assert RowAt(s'.t.balances, s'.t.requests[j].key).lastHcmAsOf ==
        RowAt(s.t.balances, s.t.requests[j].key).lastHcmAsOf;
    }
  }

  lemma MoveKeepsLanded(s: State, s': State, i: nat, k: BalanceKey, m: Move)
    requires RequestsOk(s) && LandedOk(s) && Makes(s, s', i, k, m)
    ensures LandedOk(s')
  {
    forall j | 0 <= j < |s'.t.requests| && ViewOf(s', j).filed.Some? ensures s'.t.requests[j].key in s'.hcm.balances {
      if j == i && ViewOf(s, i).filed.None? {
        assert m.FileHeard? && m.landed;
        assert Amounts(ViewOf(s, i), m).hcm != 0;
      } else {
        assert ViewOf(s, j).filed.Some?;
      }
    }
  }

  lemma MoveKeepsRequests(s: State, s': State, i: nat, k: BalanceKey, m: Move)
    requires RequestsOk(s) && Makes(s, s', i, k, m)
    ensures RequestsOk(s')
  {
    MoveKeepsCoupling(ViewOf(s, i), i, m);
    forall j | 0 <= j < |s'.t.requests| ensures Coupled(ViewOf(s', j), j) {
      assert j != i ==> ViewOf(s', j) == ViewOf(s, j);
    }
  }

  lemma MoveKeepsRows(s: State, s': State, i: nat, k: BalanceKey, m: Move)
    requires RowsOk(s) && Makes(s, s', i, k, m)
    ensures RowsOk(s')
  {
  }

  lemma MoveKeepsInv(s: State, s': State, i: nat, k: BalanceKey, m: Move)
    requires Inv(s) && Makes(s, s', i, k, m)
    requires KeysOk(s'.t.requests) && HcmKeysOk(s')
    requires forall k' :: k' in s'.sections && k' != k ==> k' in s.sections && s'.sections[k'] == s.sections[k']
    requires k in s'.sections ==> SectionOk(s', k, s'.sections[k])
    ensures Inv(s')
  {
    MoveKeepsRequests(s, s', i, k, m);
    MoveKeepsRows(s, s', i, k, m);
    MoveKeepsWarm(s, s', i, k, m);
    MoveKeepsLanded(s, s', i, k, m);
    MoveKeepsBooks(s, s', i, k, m);
    assert SectionsOk(s') by {
      forall k' | k' in s'.sections ensures SectionOk(s', k', s'.sections[k']) {
        if k' != k {
          OthersKeepSections(s, s', i, k, k');
        }
      }
    }
  }

  // A move is about the tables and the HCM, not about who is in which section.
  lemma MakesWhateverSections(s: State, s1: State, s2: State, i: nat, k: BalanceKey, m: Move)
    requires Makes(s, s1, i, k, m)
    requires s2.t == s1.t && s2.hcm == s1.hcm && s2.config == s1.config
    ensures Makes(s, s2, i, k, m)
  {
    forall j | 0 <= j < |s1.t.requests| ensures ViewOf(s2, j) == ViewOf(s1, j) {
    }
  }

  // Steps that change no request, no row and no HCM record.
  lemma StillKeepsInv(s: State, s': State)
    requires Inv(s)
    requires s'.t.requests == s.t.requests && s'.t.outbox == s.t.outbox
    requires s'.hcm.answers == s.hcm.answers && s'.hcm.effects == s.hcm.effects
    requires s.hcm.balances.Keys <= s'.hcm.balances.Keys
    requires forall k :: Warm(s.t, k) ==> Warm(s'.t, k)
    requires forall k :: RowAt(s'.t.balances, k).reserved == RowAt(s.t.balances, k).reserved
    requires forall k :: k in s'.sections ==> SectionOk(s', k, s'.sections[k])
    ensures Inv(s')
  {
    forall i | 0 <= i < |s.t.requests| ensures ViewOf(s', i) == ViewOf(s, i) {
    }
    forall k ensures Total(s', k, PendingDays) == Total(s, k, PendingDays) {
      TotalOfSameViews(s, s', PendingDays, k);
    }
  }

  // Steps that only enter or leave the section of k.
  lemma SectionChangeKeepsInv(s: State, s': State, k: BalanceKey)
    requires Inv(s) && s'.t == s.t && s'.hcm == s.hcm
    requires forall k' :: k' in s'.sections && k' != k ==> k' in s.sections && s'.sections[k'] == s.sections[k']
    requires k in s'.sections ==> SectionOk(s', k, s'.sections[k])
    ensures Inv(s')
  {
    hide RequestsOk, RowsOk, HcmKeysOk, WarmOk, LandedOk, BooksOk, KeysOk;
    forall k' | k' in s'.sections ensures SectionOk(s', k', s'.sections[k']) {
      if k' != k {
        assert SectionOk(s, k', s.sections[k']);
      }
    }
    StillKeepsInv(s, s');
  }

  lemma SnapshotKeepsInv(s: State, k: BalanceKey, asOf: int)
    requires Inv(s) && Free(s, k)
    ensures Inv(TakeSnapshot(s, k, asOf))
  {
    hide RequestsOk, RowsOk, HcmKeysOk, LandedOk, BooksOk, KeysOk, WarmOk;
    var s' := TakeSnapshot(s, k, asOf);
    forall k' | k' in s'.sections ensures SectionOk(s', k', s'.sections[k']) {
      assert SectionOk(s, k', s.sections[k']);
    }
    StillKeepsInv(s, s');
  }

  lemma PeekKeepsInv(s: State, k: BalanceKey)
    requires Inv(s)
    ensures Inv(DoPeek(s, k))
  {
    hide RequestsOk, RowsOk, HcmKeysOk, WarmOk, LandedOk, BooksOk, KeysOk;
    if k in s.sections {
      assert SectionOk(s, k, s.sections[k]);
    }
    SectionChangeKeepsInv(s, DoPeek(s, k), k);
  }

  lemma LookKeepsInv(s: State, k: BalanceKey)
    requires Inv(s)
    ensures Inv(DoLook(s, k))
  {
    hide Inv;
    if DoLook(s, k) != s {
      SectionChangeKeepsInv(s, DoLook(s, k), k);
    }
  }

  lemma HydrateKeepsInv(s: State, k: BalanceKey, refresh: Refresh)
    requires Inv(s)
    ensures Inv(DoHydrate(s, k, refresh))
  {
    hide Inv, TakeSnapshot;
    if k in s.sections && s.sections[k] == Hydrating {
      SectionChangeKeepsInv(s, Leave(s, k), k);
      if refresh.Reached? {
        SnapshotKeepsInv(Leave(s, k), k, refresh.asOf);
        SnapshotElsewhere(s, k, refresh.asOf);
      }
    }
  }

  lemma SnapshotElsewhere(s: State, k: BalanceKey, asOf: int)
    ensures Leave(TakeSnapshot(s, k, asOf), k) == TakeSnapshot(Leave(s, k), k, asOf)
  {
  }

  // Reconcile recomputes `reserved` and finds it as the transactions left it.
  lemma ReconciledReserved(s: State, k: BalanceKey)
    requires Inv(s)
    ensures Sum(ReservedColumn(s.t.requests, k)) == RowAt(s.t.balances, k).reserved
  {
    assert ReservedColumn(s.t.requests, k) == Column(s, k, PendingDays);
  }

  lemma ReconcileKeepsInv(s: State, k: BalanceKey, value: int, asOf: int)
    requires Inv(s)
    requires Free(s, k)
    ensures Inv(s.(t := Lifecycle.Reconcile(s.t, k, value, asOf)))
  {
    hide RequestsOk, RowsOk, HcmKeysOk, WarmOk, LandedOk, BooksOk, KeysOk;
    var s' := s.(t := Lifecycle.Reconcile(s.t, k, value, asOf));
    ReconciledReserved(s, k);
    forall k' | k' in s'.sections ensures SectionOk(s', k', s'.sections[k']) {
      assert SectionOk(s, k', s.sections[k']);
    }
    StillKeepsInv(s, s');
  }

  // ---- Submit -------------------------------------------------------------------------------------------

  lemma TerminalOrActive(status: RequestStatus)
    ensures status.Terminal() <==> !status.Active()
  {
  }

  lemma RetireKeepsKeys(requests: seq<Request>, existing: Option<nat>)
    requires KeysOk(requests)
    requires existing.Some? ==> existing.value < |requests|
    requires !RetiredKeyTaken(requests, existing)
    ensures KeysOk(Retire(requests, existing))
  {
  }

  // The request list after an admitted submit: one more request, the others as they were up to a retired key.
  lemma AdmitViews(s: State, sub: Submission, existing: Option<nat>, days: nat)
    requires existing.Some? ==> existing.value < |s.t.requests|
    requires RowsOk(s) && HcmKeysOk(s)
    requires Admit(s.t, sub, existing, days, s.config.ttl).1.Accepted?
    ensures var s' := s.(t := Admit(s.t, sub, existing, days, s.config.ttl).0);
            var n := |s.t.requests|;
            && |s'.t.requests| == n + 1
            && (forall i :: 0 <= i < n ==> ViewOf(s', i) == ViewOf(s, i))
            && (forall i :: 0 <= i < n ==> s'.t.requests[i].key == s.t.requests[i].key)
            && ViewOf(s', n) == View(Bare(FreshRequest(sub, days, s.config.ttl)), [], None, None, None, None)
            && s'.t.requests[n] == FreshRequest(sub, days, s.config.ttl)
  {
    var n := |s.t.requests|;
    NoRowsForFreshId(s.t.outbox, n);
    var s' := s.(t := Admit(s.t, sub, existing, days, s.config.ttl).0);
    assert HcmKey(n, File) !in s.hcm.answers.Keys + s.hcm.effects.Keys;
    assert HcmKey(n, Reverse) !in s.hcm.answers.Keys + s.hcm.effects.Keys;
  }

  lemma TotalAfterAdmit(s: State, s': State, m: Measure, k: BalanceKey)
    requires |s'.t.requests| == |s.t.requests| + 1
    requires forall i :: 0 <= i < |s.t.requests| ==> ViewOf(s', i) == ViewOf(s, i)
    requires forall i :: 0 <= i < |s.t.requests| ==> s'.t.requests[i].key == s.t.requests[i].key
    ensures Total(s', k, m) == Total(s, k, m) + Share(s', k, m, |s.t.requests|)
  {
    hide Weight;
    assert Column(s', k, m) == Column(s, k, m) + [Share(s', k, m, |s.t.requests|)];
    SumAppend(Column(s, k, m), Share(s', k, m, |s.t.requests|));
  }

  lemma AdmitKeepsKeys(t: Tables, sub: Submission, existing: Option<nat>, days: nat, ttl: int)
    requires KeysOk(t.requests)
    requires existing.Some? ==> existing.value < |t.requests|
    requires Admit(t, sub, existing, days, ttl).1.Accepted?
    ensures KeysOk(Admit(t, sub, existing, days, ttl).0.requests)
  {
    RetireKeepsKeys(t.requests, existing);
  }

  lemma AdmitKeepsSections(s: State, sub: Submission, existing: Option<nat>, days: nat)
    requires Inv(s)
    requires existing.Some? ==> existing.value < |s.t.requests| && s.t.requests[existing.value].status.Terminal()
    requires Admit(s.t, sub, existing, days, s.config.ttl).1.Accepted?
    ensures SectionsOk(s.(t := Admit(s.t, sub, existing, days, s.config.ttl).0))
  {
    hide RequestsOk, BooksOk, KeysOk, WarmOk, LandedOk, RetiredKeyTaken, Covers, FindByKey, Coupled, HcmKeysOk;
    var s' := s.(t := Admit(s.t, sub, existing, days, s.config.ttl).0);
    AdmitViews(s, sub, existing, days);
    forall k | k in s'.sections ensures SectionOk(s', k, s'.sections[k]) {
      assert SectionOk(s, k, s.sections[k]);
      if s.sections[k].Answered? || s.sections[k].Dispatching? {
        assert ViewOf(s', s.sections[k].row.aggregateId) == ViewOf(s, s.sections[k].row.aggregateId);
      }
    }
  }

  lemma AdmitKeepsBooks(s: State, sub: Submission, existing: Option<nat>, days: nat)
    requires RowsOk(s) && HcmKeysOk(s) && BooksOk(s)
    requires existing.Some? ==> existing.value < |s.t.requests|
    requires Admit(s.t, sub, existing, days, s.config.ttl).1.Accepted?
    ensures BooksOk(s.(t := Admit(s.t, sub, existing, days, s.config.ttl).0))
  {
    var s' := s.(t := Admit(s.t, sub, existing, days, s.config.ttl).0);
    AdmitViews(s, sub, existing, days);
    forall k ensures RowAt(s'.t.balances, k).reserved == Total(s', k, PendingDays) {
      TotalAfterAdmit(s, s', PendingDays, k);
    }
  }

  lemma AdmitKeepsRequests(s: State, sub: Submission, existing: Option<nat>, days: nat)
    requires RequestsOk(s) && RowsOk(s) && HcmKeysOk(s) && WarmOk(s) && LandedOk(s) && Warm(s.t, sub.key)
    requires existing.Some? ==> existing.value < |s.t.requests|
    requires days >= 1
    requires Admit(s.t, sub, existing, days, s.config.ttl).1.Accepted?
    ensures var s' := s.(t := Admit(s.t, sub, existing, days, s.config.ttl).0);
            RequestsOk(s') && RowsOk(s') && HcmKeysOk(s') && WarmOk(s') && LandedOk(s')
  {
    var s' := s.(t := Admit(s.t, sub, existing, days, s.config.ttl).0);
    AdmitViews(s, sub, existing, days);
    forall i | 0 <= i < |s'.t.requests|
      ensures Coupled(ViewOf(s', i), i) && Warm(s'.t, s'.t.requests[i].key)
      ensures ViewOf(s', i).filed.Some? ==> s'.t.requests[i].key in s'.hcm.balances
    {
      if i < |s.t.requests| {
        assert Coupled(ViewOf(s, i), i) && Warm(s.t, s.t.requests[i].key);
      }
    }
  }

  lemma AdmitKeepsInv(s: State, sub: Submission, existing: Option<nat>, days: nat)
    requires Inv(s) && Warm(s.t, sub.key)
    requires existing.Some? ==> existing.value < |s.t.requests| && s.t.requests[existing.value].status.Terminal()
    requires days >= 1
    requires Admit(s.t, sub, existing, days, s.config.ttl).1.Accepted?
    ensures Inv(s.(t := Admit(s.t, sub, existing, days, s.config.ttl).0))
  {
    hide RequestsOk, RowsOk, HcmKeysOk, WarmOk, LandedOk, BooksOk, KeysOk, SectionsOk, Admit;
    AdmitKeepsRequests(s, sub, existing, days);
    AdmitKeepsKeys(s.t, sub, existing, days, s.config.ttl);
    AdmitKeepsBooks(s, sub, existing, days);
    AdmitKeepsSections(s, sub, existing, days);
  }

  lemma SelfWaitKeepsInv(s: State, k: BalanceKey)
    requires Inv(s) && Free(s, k) && !Warm(s.t, k)
    ensures Inv(Enter(s, k, SelfWait))
  {
    SectionChangeKeepsInv(s, Enter(s, k, SelfWait), k);
  }

  lemma SubmitKeepsInv(s: State, sub: Submission)
    requires Inv(s)
    ensures Inv(DoSubmit(s, sub))
  {
    hide Inv, Admit;
    if Free(s, sub.key) {
      if SubmitBlocksItself(s, sub) {
        SelfWaitKeepsInv(s, sub.key);
      } else {
        match Screen(s.t.requests, sub)
        case Replay(_) =>
        case Refuse(_) =>
        case Proceed(existing, days) =>
          if existing.Some? {
            TerminalOrActive(s.t.requests[existing.value].status);
          }
          if Admit(s.t, sub, existing, days, s.config.ttl).1.Accepted? {
            AdmitKeepsInv(s, sub, existing, days);
          }
      }
    }
  }

  // ---- Requests leaving their status --------------------------------------------------------------------

  lemma LockedMoveKeepsInv(s: State, i: nat, t': Tables, m: Move)
    requires Inv(s) && i < |s.t.requests| && Free(s, s.t.requests[i].key)
    requires Makes(s, s.(t := t'), i, s.t.requests[i].key, m)
    requires t'.requests[i].idempotencyKey == s.t.requests[i].idempotencyKey
    ensures Inv(s.(t := t'))
  {
    hide RequestsOk, RowsOk, WarmOk, LandedOk, BooksOk, Fits, After, Amounts;
    MoveKeepsInv(s, s.(t := t'), i, s.t.requests[i].key, m);
  }

  // In a reachable state a PENDING_SYNC request has no SENT FILE row: that branch of cancel is dead.
  lemma PendingSyncIsUnsent(s: State, id: nat)
    requires Inv(s) && id < |s.t.requests| && s.t.requests[id].status == PendingSync
    ensures !FileSent(s.t.outbox, id)
  {
    if FileSent(s.t.outbox, id) {
      var o :| 0 <= o < |s.t.outbox| && s.t.outbox[o].aggregateId == id && s.t.outbox[o].operation == File &&
        s.t.outbox[o].status == Sent;
      RowIsListed(s.t.outbox, o);
    }
  }

  // The move an accepted reject, cancel or expire makes; None for a cancel that finds the request cancelled.
  function LeaveMove(r: Request, to: RequestStatus): Option<Move> {
    match r.status
    case Pending => Some(Released(to))
    case PendingSync => Some(Restored(to))
    case Approved => Some(Undone)
    case _ => None
  }

  // t' is what reject, cancel or expire makes of t.
  predicate Leaves(t: Tables, id: nat, t': Tables, to: RequestStatus) {
    match to
    case Rejected => t' == Reject(t, id).0
    case Cancelled => t' == Cancel(t, id).0
    case Expired => t' == Expire(t, id).0
    case _ => false
  }

  lemma LeaveMakes(s: State, id: nat, t': Tables, to: RequestStatus)
    requires Inv(s) && id < |s.t.requests|
    requires Leaves(s.t, id, t', to)
    requires t' != s.t
    ensures LeaveMove(s.t.requests[id], to).Some?
    ensures Makes(s, s.(t := t'), id, s.t.requests[id].key, LeaveMove(s.t.requests[id], to).value)
    ensures t'.requests[id].idempotencyKey == s.t.requests[id].idempotencyKey
  {
    hide Makes, RequestsOk, BooksOk, WarmOk, LandedOk, KeysOk, HcmKeysOk;
    var r := s.t.requests[id];
    IsReady(s, id, r);
    if r.status == Pending {
      ReleaseMakes(s, id, r, to, to != Rejected);
    } else if r.status == PendingSync {
      PendingSyncIsUnsent(s, id);
      RestoreMakes(s, id, r, to);
    } else if r.status == Approved {
      UndoMakes(s, id, r);
    }
  }

  lemma LeaveKeepsInv(s: State, id: nat, t': Tables, to: RequestStatus)
    requires Inv(s)
    requires Leaves(s.t, id, t', to)
    ensures Inv(Locked(s, id, t'))
  {
    if id < |s.t.requests| && Free(s, s.t.requests[id].key) && t' != s.t {
      LeaveMakes(s, id, t', to);
      LockedMoveKeepsInv(s, id, t', LeaveMove(s.t.requests[id], to).value);
    }
  }

  lemma ApproveKeepsInv(s: State, id: nat, now: int, today: int, refresh: Refresh)
    requires Inv(s)
    ensures Inv(DoApprove(s, id, now, today, refresh))
  {
    hide RequestsOk, RowsOk, WarmOk, LandedOk, BooksOk, KeysOk, HcmKeysOk, Makes, Coupled;
    if id < |s.t.requests| && Free(s, s.t.requests[id].key) && s.t.requests[id].status == Pending {
      var r := s.t.requests[id];
      IsReady(s, id, r);
      if r.startDay < today {
        ReleaseMakes(s, id, r, Rejected, false);
        LockedMoveKeepsInv(s, id, ReleaseAs(s.t, id, r, Rejected), Released(Rejected));
      } else if refresh.Unreachable? {
        CommitMakes(s, id, r, now);
        LockedMoveKeepsInv(s, id, CommitForSync(s.t, id, r, now), Committed(now));
      } else {
        var s1 := TakeSnapshot(s, r.key, refresh.asOf);
        SnapshotKeepsInv(s, r.key, refresh.asOf);
        var s2 := Enter(s1, r.key, Refreshed(id, r));
        SectionChangeKeepsInv(s1, s2, r.key);
      }
    }
  }

  // The move an approve makes once it has refreshed.
  function DecideMove(s: State, k: BalanceKey, now: int): Move
    requires k in s.sections && s.sections[k].Refreshed?
  {
    if Covers(RowAt(s.t.balances, k), s.sections[k].held.days) then Committed(now) else Released(Rejected)
  }

  lemma DecideMakes(s: State, k: BalanceKey, now: int)
    requires Inv(s) && k in s.sections && s.sections[k].Refreshed?
    ensures Makes(s, DoDecide(s, k, now), s.sections[k].id, k, DecideMove(s, k, now))
    ensures Inv(DoDecide(s, k, now))
  {
    hide Makes, BooksOk, WarmOk, RowsOk, RequestsOk, LandedOk, Total;
    var Refreshed(id, held) := s.sections[k];
    assert SectionOk(s, k, s.sections[k]);
    IsReady(s, id, held);
    var s' := DoDecide(s, k, now);
    var m := DecideMove(s, k, now);
    var t' := if m.Committed? then CommitForSync(s.t, id, held, now) else ReleaseAs(s.t, id, held, Rejected);
    if m.Committed? {
      CommitMakes(s, id, held, now);
    } else {
      ReleaseMakes(s, id, held, Rejected, false);
    }
    MakesWhateverSections(s, s.(t := t'), s', id, k, m);
    MoveKeepsInv(s, s', id, k, DecideMove(s, k, now));
  }

  // ---- Dispatch -----------------------------------------------------------------------------------------

  lemma BeginStepMakes(s: State, o: nat) returns (p: nat)
    requires Inv(s) && DoBegin(s, o) != s
    ensures o < |s.t.outbox| && s.t.outbox[o].status == Queued && s.t.outbox[o].aggregateId < |s.t.requests|
    ensures Makes(s, DoBegin(s, o), s.t.outbox[o].aggregateId, s.t.requests[s.t.outbox[o].aggregateId].key, Counted(p))
    ensures Inv(DoBegin(s, o))
  {
    var i := s.t.outbox[o].aggregateId;
    var held := s.t.requests[i];
    IsReady(s, i, held);
    p := BeginMakes(s, o, held);
    var s1 := s.(t := BeginDispatch(s.t, o).0);
    var s' := DoBegin(s, o);
    MakesWhateverSections(s, s1, s', i, held.key, Counted(p));
    MoveKeepsInv(s, s', i, held.key, Counted(p));
  }

  lemma CallStepMakes(s: State, k: BalanceKey, script: seq<Delivery>) returns (heard: bool, m: Move)
    requires Inv(s) && k in s.sections && s.sections[k].Dispatching?
    ensures s.sections[k].row.aggregateId < |s.t.requests|
    ensures heard ==> Makes(s, DoCall(s, k, script), s.sections[k].row.aggregateId, k, m)
    ensures heard ==> Explains(s, s.sections[k].row.aggregateId, script, m)
    ensures var row := s.sections[k].row;
            && row.payload == BuildCommand(row.aggregateId, s.t.requests[row.aggregateId], row.operation)
            && (heard <==> Arrives(script, s.config.maxAttempts) && Unheard(s.hcm, row))
            && (heard ==> if row.operation == File then m.FileHeard?
                          else m.ReverseHeard? && m.landed == MovesOnReverse(s.hcm, row.payload))
    ensures !heard ==> DoCall(s, k, script).t == s.t && DoCall(s, k, script).hcm == s.hcm
    ensures HcmKeysOk(DoCall(s, k, script))
    ensures SectionOk(DoCall(s, k, script), k, DoCall(s, k, script).sections[k])
  {
    hide Send, Makes, Explains, BooksOk, WarmOk, KeysOk, Total, Arrives, MovesOnReverse;
    var Dispatching(o, row, held) := s.sections[k];
    assert SectionOk(s, k, s.sections[k]);
    heard, m := CallMakes(s, o, script);
    QueuedRowOf(s, o);
    var s' := DoCall(s, k, script);
    if heard {
      MakesWhateverSections(s, s.(hcm := s'.hcm), s', row.aggregateId, k, m);
    }
  }

  lemma CallStepKeepsInv(s: State, k: BalanceKey, script: seq<Delivery>)
    requires Inv(s) && k in s.sections && s.sections[k].Dispatching?
    ensures Inv(DoCall(s, k, script))
  {
    hide RequestsOk, RowsOk, WarmOk, LandedOk, BooksOk, Makes, Explains, Send, Fits, After, Amounts;
    var heard, m := CallStepMakes(s, k, script);
    var s' := DoCall(s, k, script);
    if heard {
      MoveKeepsInv(s, s', s.sections[k].row.aggregateId, k, m);
    } else {
      SectionChangeKeepsInv(s, s', k);
    }
  }

  // Transaction 2 changes something unless the call failed with attempts left or UNIQUE aborts it.
  predicate EndMoves(s: State, k: BalanceKey)
    requires k in s.sections && s.sections[k].Answered?
  {
    var Answered(o, row, held, result) := s.sections[k];
    var aborted := SaveClashes(s.t.requests, row.aggregateId, held);
    if result.Some? then !aborted
    else row.attempts >= s.config.maxAttempts && (row.operation == File ==> !aborted)
  }

  function EndMove(s: State, k: BalanceKey): Move
    requires k in s.sections && s.sections[k].Answered?
  {
    var Answered(o, row, held, result) := s.sections[k];
    match result
    case Some(at) => if row.operation == File then FileAcked(at) else ReverseAcked(at)
    case None => if row.operation == File then FileGivenUp else ReverseGivenUp
  }

  lemma EndStepMakes(s: State, k: BalanceKey) returns (moved: bool, m: Move)
    requires Inv(s) && k in s.sections && s.sections[k].Answered?
    ensures s.sections[k].row.aggregateId < |s.t.requests|
    ensures moved ==> Makes(s, DoEnd(s, k), s.sections[k].row.aggregateId, k, m)
    ensures var Answered(o, row, held, result) := s.sections[k];
            && (moved <==> EndMoves(s, k))
            && (moved ==> m == EndMove(s, k))
    ensures !moved ==> DoEnd(s, k).t == s.t
    ensures DoEnd(s, k).hcm == s.hcm
  {
    hide Makes, BooksOk, WarmOk, KeysOk, HcmKeysOk, LandedOk;
    var Answered(o, row, held, result) := s.sections[k];
    assert SectionOk(s, k, s.sections[k]);
    IsReady(s, row.aggregateId, held);
    QueuedRowOf(s, o);
    moved, m := EndMakes(s, o, held, result);
    if moved {
      var t' := EndDispatch(s.t, o, row, held, result, s.config.maxAttempts);
      MakesWhateverSections(s, s.(t := t'), DoEnd(s, k), row.aggregateId, k, m);
    }
  }

  // UNIQUE keeps the keys apart even when the captured entity carries an older key.
  lemma EndKeepsKeys(t: Tables, o: nat, row: OutboxRow, held: Request, result: Option<int>, maxAttempts: nat)
    requires KeysOk(t.requests) && o < |t.outbox| && row.aggregateId < |t.requests|
    ensures KeysOk(EndDispatch(t, o, row, held, result, maxAttempts).requests)
  {
  }

  lemma EndStepKeepsInv(s: State, k: BalanceKey)
    requires Inv(s) && k in s.sections && s.sections[k].Answered?
    ensures Inv(DoEnd(s, k))
  {
    hide RequestsOk, RowsOk, WarmOk, LandedOk, BooksOk, Makes, EndMoves, EndMove, Fits, After, Amounts;
    var moved, m := EndStepMakes(s, k);
    var s' := DoEnd(s, k);
    if moved {
      var Answered(o, row, held, result) := s.sections[k];
      assert SectionOk(s, k, s.sections[k]);
      EndKeepsKeys(s.t, o, row, held, result, s.config.maxAttempts);
      MoveKeepsInv(s, s', row.aggregateId, k, m);
    } else {
      SectionChangeKeepsInv(s, s', k);
    }
  }

  lemma AnyCallKeepsInv(s: State, k: BalanceKey, script: seq<Delivery>)
    requires Inv(s)
    ensures Inv(DoCall(s, k, script))
  {
    hide Inv, Send;
    if DoCall(s, k, script) != s {
      CallStepKeepsInv(s, k, script);
    }
  }

  lemma AnyEndKeepsInv(s: State, k: BalanceKey)
    requires Inv(s)
    ensures Inv(DoEnd(s, k))
  {
    hide Inv, EndDispatch;
    if DoEnd(s, k) != s {
      EndStepKeepsInv(s, k);
    }
  }

  lemma DecideKeepsInv(s: State, k: BalanceKey, now: int)
    requires Inv(s)
    ensures Inv(DoDecide(s, k, now))
  {
    hide Inv, ReleaseAs, CommitForSync;
    if DoDecide(s, k, now) != s {
      DecideMakes(s, k, now);
    }
  }

  // ---- Every step, every run ----------------------------------------------------------------------------

  lemma StepKeepsInv(s: State, step: Step)
    requires Inv(s)
    ensures Inv(Apply(s, step))
  {
    hide Inv, Reject, Cancel, Expire, Locked, DoSubmit, DoApprove, DoDecide, DoBegin, DoCall, DoEnd, DoPeek, DoLook,
      DoHydrate, Lifecycle.Reconcile;
    match step
    case PeekStep(k) => PeekKeepsInv(s, k);
    case LookStep(k) => LookKeepsInv(s, k);
    case HydrateStep(k, refresh) => HydrateKeepsInv(s, k, refresh);
    case SubmitStep(sub) => SubmitKeepsInv(s, sub);
    case ApproveStep(id, now, today, refresh) => ApproveKeepsInv(s, id, now, today, refresh);
    case DecideStep(k, now) => DecideKeepsInv(s, k, now);
    case RejectStep(id) => LeaveKeepsInv(s, id, Reject(s.t, id).0, Rejected);
    case CancelStep(id) => LeaveKeepsInv(s, id, Cancel(s.t, id).0, Cancelled);
    case ExpireStep(id) => LeaveKeepsInv(s, id, Expire(s.t, id).0, Expired);
    case BeginStep(o) => if DoBegin(s, o) != s { var _ := BeginStepMakes(s, o); }
    case CallStep(k, script) => AnyCallKeepsInv(s, k, script);
    case EndStep(k) => AnyEndKeepsInv(s, k);
    case ReconcileStep(k, value, asOf) => if Free(s, k) { ReconcileKeepsInv(s, k, value, asOf); }
    case ResolveReview(k) => QuietStepKeepsInv(s, step);
    case OutsideChange(k, delta) => QuietStepKeepsInv(s, step);
    case Abort(k) => AbortKeepsInv(s, k);
    case Crash => QuietStepKeepsInv(s, step);
  }

  lemma AbortKeepsInv(s: State, k: BalanceKey)
    requires Inv(s)
    ensures Inv(Apply(s, Abort(k)))
  {
    hide Inv, Apply;
    AbortIs(s, k);
    if Apply(s, Abort(k)) != s {
      SectionChangeKeepsInv(s, Leave(s, k), k);
    }
  }

  lemma QuietStepKeepsInv(s: State, step: Step)
    requires Inv(s) && (step.ResolveReview? || step.OutsideChange? || step.Crash?)
    ensures Inv(Apply(s, step))
  {
    hide RequestsOk, RowsOk, HcmKeysOk, WarmOk, LandedOk, BooksOk, KeysOk, DoSubmit, DoApprove, DoDecide, DoBegin,
      DoCall, DoEnd, Read, Lifecycle.Reconcile, Reject, Cancel, Expire;
    var s' := Apply(s, step);
    forall k | k in s'.sections ensures SectionOk(s', k, s'.sections[k]) {
      assert SectionOk(s, k, s.sections[k]);
    }
    StillKeepsInv(s, s');
  }

  lemma {:induction false} RunKeepsInv(s: State, steps: seq<Step>)
    requires Inv(s)
    ensures Inv(Run(s, steps))
    decreases |steps|
  {
    hide Inv, Apply;
    if steps != [] {
      StepKeepsInv(s, steps[0]);
      RunKeepsInv(Apply(s, steps[0]), steps[1..]);
    }
  }

  // From a fresh database, whatever the actors, the HCM and the crashes do.
  lemma ReachableInv(s: State, steps: seq<Step>)
    requires Initial(s)
    ensures Inv(Run(s, steps))
  {
    hide Inv;
    InitialInv(s);
    RunKeepsInv(s, steps);
  }
}
