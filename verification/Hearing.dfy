// What HCM has heard of and what the service knows of it, over whole runs: a row that was never tried has not
// landed, and as long as no answer is lost on the way into the tables, acknowledged means applied.
module Hearing {
  import opened Entities
  import opened Sums
  import opened OutboxTable
  import opened MockHcm
  import opened HcmCall
  import opened Lifecycle
  import opened Machine
  import opened Automaton
  import opened Refinement
  import opened Invariant
  import opened Agreement
  import opened Guarantees
  import opened Attempts
  import opened Dispatch

  // ---- A step, request by request -------------------------------------------------------------------------

  // HCM hears of a row only in the call made for it.
  ghost predicate CalledBy(s: State, step: Step, i: nat) {
    && step.CallStep? && step.key in s.sections && s.sections[step.key].Dispatching?
    && s.sections[step.key].row.aggregateId == i
  }

  lemma CallHears(s: State, step: Step) returns (moved: bool, i: nat, m: Move)
    requires Inv(s) && step.CallStep?
    ensures moved ==> Makes(s, Apply(s, step), i, step.key, m) && CalledBy(s, step, i)
    ensures moved ==> if s.sections[step.key].row.operation == File then m.FileHeard? else m.ReverseHeard?
    ensures !moved ==> Apply(s, step).t == s.t && Apply(s, step).hcm == s.hcm
  {
    hide Inv, Makes, Explains, Arrives, MovesOnReverse, Send;
    moved, i, m := false, 0, Undone;
    if step.key in s.sections && s.sections[step.key].Dispatching? {
      moved, m := CallStepMakes(s, step.key, step.script);
      i := s.sections[step.key].row.aggregateId;
    }
  }

  lemma QuietMoveHearsNothing(s: State, s': State, i: nat, key: BalanceKey, m: Move)
    requires Makes(s, s', i, key, m) && s'.hcm == s.hcm
    ensures !m.FileHeard? && !m.ReverseHeard?
  {
    hide OnlyRequest, RowsOf, RowAt;
  }

  // Any step, seen request by request: one move of one request, or nothing but perhaps a fresh PENDING request.
  lemma StepOnViews(s: State, step: Step) returns (moved: bool, i: nat, key: BalanceKey, m: Move)
    requires Inv(s)
    ensures moved ==> Makes(s, Apply(s, step), i, key, m)
    ensures moved && (m.FileHeard? || m.ReverseHeard?) ==> CalledBy(s, step, i) && key == step.key
    ensures moved && m.FileHeard? ==> s.sections[step.key].row.operation == File
    ensures moved && m.ReverseHeard? ==> s.sections[step.key].row.operation == Reverse
    ensures !moved ==> SameViewsButFresh(s, Apply(s, step))
  {
    hide Inv, Makes, Apply, StepCharge, Snapshots, SameViewsButFresh;
    var s' := Apply(s, step);
    moved, i, key, m := false, 0, NOBODY, Undone;
    if step.CallStep? {
      moved, i, m := CallHears(s, step);
      key := step.key;
      if !moved {
        SameRecordsSameViews(s, s');
      }
    } else if Transactional(s, step) {
      moved, i, key, m := StepTransacts(s, step, NOBODY);
      OnlyCallsReachHcm(s, step);
      if moved {
        QuietMoveHearsNothing(s, s', i, key, m);
      } else {
        SameRecordsSameViews(s, s');
      }
    } else if step.SubmitStep? {
      SubmitAddsFresh(s, step);
    } else {
      ClericalKeepsRecords(s, step);
      SameRecordsSameViews(s, s');
    }
  }

  const NOBODY := BalanceKey("", "")

  ghost predicate SameViewsButFresh(s: State, s': State) {
    && |s.t.requests| <= |s'.t.requests|
    && (forall j :: 0 <= j < |s.t.requests| ==> ViewOf(s', j) == ViewOf(s, j))
    && (forall j :: |s.t.requests| <= j < |s'.t.requests| ==>
          ViewOf(s', j).rows == [] && ViewOf(s', j).req.status == Pending && Untouched(ViewOf(s', j)))
  }

  lemma SameRecordsSameViews(s: State, s': State)
    requires SameRecords(s, s')
    ensures SameViewsButFresh(s, s')
  {
  }

  lemma SubmitAddsFresh(s: State, step: Step)
    requires Inv(s) && step.SubmitStep?
    ensures SameViewsButFresh(s, Apply(s, step))
  {
    hide Admit, RequestsOk, WarmOk, LandedOk, BooksOk, KeysOk, SectionsOk, Screen;
    var s' := Apply(s, step);
    if s'.t == s.t {
      SameRecordsSameViews(s, s');
    } else {
      var Proceed(existing, days) := Screen(s.t.requests, step.sub);
      ScreenPoints(s.t.requests, step.sub);
      AdmitViews(s, step.sub, existing, days);
    }
  }

  lemma ScreenPoints(requests: seq<Request>, sub: Submission)
    requires Screen(requests, sub).Proceed?
    ensures Screen(requests, sub).existing.Some? ==> Screen(requests, sub).existing.value < |requests|
  {
  }

  lemma HeldRowIsQueued(s: State, k: BalanceKey)
    requires Inv(s) && InDispatch(s, k)
    ensures var row := s.sections[k].row;
            && row.aggregateId < |s.t.requests|
            && var v := ViewOf(s, row.aggregateId);
               if row.operation == File then FileQueued(v) && v.rows[0] == row else ReverseQueued(v) && v.rows[1] == row
  {
    HolderOf(s, s.sections[k].rowId, k);
    hide RowsOk, HcmKeysOk, WarmOk, LandedOk, BooksOk, KeysOk, SectionsOk;
    QueuedRowOf(s, s.sections[k].rowId);
  }

  // ---- What was never tried has not landed ----------------------------------------------------------------

  // A command HCM has heard of was tried.
  predicate HeardMeansTried(v: View) {
    && (FileQueued(v) && v.fileAnswer.Some? ==> v.rows[0].attempts >= 1)
    && (ReverseQueued(v) && v.reverseAnswer.Some? ==> v.rows[1].attempts >= 1)
  }

  ghost predicate TriedFirst(s: State) {
    && (forall i :: 0 <= i < |s.t.requests| ==> HeardMeansTried(ViewOf(s, i)))
    && (forall k :: InDispatch(s, k) ==> s.sections[k].row.attempts >= 1)
  }

  lemma MoveKeepsHeardMeansTried(v: View, id: nat, m: Move)
    requires Coupled(v, id) && Fits(v, m) && HeardMeansTried(v)
    requires m.FileHeard? ==> v.rows[0].attempts >= 1
    requires m.ReverseHeard? ==> v.rows[1].attempts >= 1
    ensures HeardMeansTried(After(v, id, m))
  {
  }

  lemma StepTriesFirst(s: State, step: Step)
    requires Inv(s) && TriedFirst(s)
    ensures TriedFirst(Apply(s, step))
  {
    hide Inv, Makes, Apply, HeardMeansTried;
    var s' := Apply(s, step);
    var moved, i, key, m := StepOnViews(s, step);
    forall j | 0 <= j < |s'.t.requests| ensures HeardMeansTried(ViewOf(s', j)) {
      if moved {
        MovedViewTriesFirst(s, step, i, key, m, j);
      } else if j >= |s.t.requests| {
        FreshHeardMeansTried(ViewOf(s', j));
      }
    }
    HoldersTryFirst(s, step);
  }

  lemma FreshHeardMeansTried(v: View)
    requires v.rows == []
    ensures HeardMeansTried(v)
  {
  }

  lemma MovedViewTriesFirst(s: State, step: Step, i: nat, key: BalanceKey, m: Move, j: nat)
    requires Inv(s) && TriedFirst(s) && Makes(s, Apply(s, step), i, key, m) && j < |Apply(s, step).t.requests|
    requires m.FileHeard? || m.ReverseHeard? ==> CalledBy(s, step, i)
    requires m.FileHeard? ==> s.sections[step.key].row.operation == File
    requires m.ReverseHeard? ==> s.sections[step.key].row.operation == Reverse
    ensures HeardMeansTried(ViewOf(Apply(s, step), j))
  {
    hide Inv, Apply, HeardMeansTried, Coupled, Fits, After, Amounts, RowsOf;
    if j == i {
      InvCouples(s, i);
      if m.FileHeard? || m.ReverseHeard? {
        HeldRowIsQueued(s, step.key);
      }
      MoveKeepsHeardMeansTried(ViewOf(s, i), i, m);
    } else {
      assert ViewOf(Apply(s, step), j) == ViewOf(s, j);
    }
  }

  lemma HoldersTryFirst(s: State, step: Step)
    requires Inv(s) && TriedFirst(s)
    ensures forall k :: InDispatch(Apply(s, step), k) ==> Apply(s, step).sections[k].row.attempts >= 1
  {
    hide Inv, HeardMeansTried;
    if Elsewhere(step) {
      hide Apply;
      OthersKeepDispatches(s, step);
    } else {
      hide Send, EndDispatch;
    }
  }

  lemma {:induction false} RunTriesFirst(s: State, steps: seq<Step>)
    requires Inv(s) && TriedFirst(s)
    ensures TriedFirst(Run(s, steps))
    decreases |steps|
  {
    hide Inv, Apply, TriedFirst;
    if steps != [] {
      StepKeepsInv(s, steps[0]);
      StepTriesFirst(s, steps[0]);
      RunTriesFirst(Apply(s, steps[0]), steps[1..]);
    }
  }

  // What the service can see: in a reachable state a PENDING_SYNC request whose FILE row was never tried has not
  // landed, so that rejecting, cancelling or expiring it is clean, whatever the HCM.
  lemma UntriedIsSafeToDrop(start: State, steps: seq<Step>, id: nat, o: nat)
    requires Initial(start)
    requires var s := Run(start, steps);
             && id < |s.t.requests| && s.t.requests[id].status == PendingSync
             && o < |s.t.outbox| && s.t.outbox[o].aggregateId == id && s.t.outbox[o].attempts == 0
    ensures var s := Run(start, steps);
            !Landed(s, id, File)
            && forall k :: Clean(s, RejectStep(id), k) && Clean(s, CancelStep(id), k) && Clean(s, ExpireStep(id), k)
  {
    hide Inv, Run, TriedFirst;
    InitialInv(start);
    assert TriedFirst(start) by { NobodyTried(start); }
    RunKeepsInv(start, steps);
    RunTriesFirst(start, steps);
    UntriedHasNotLanded(Run(start, steps), id, o);
  }

  lemma NobodyTried(s: State)
    requires Initial(s)
    ensures TriedFirst(s)
  {
  }

  lemma UntriedHasNotLanded(s: State, id: nat, o: nat)
    requires Inv(s) && TriedFirst(s)
    requires id < |s.t.requests| && s.t.requests[id].status == PendingSync
    requires o < |s.t.outbox| && s.t.outbox[o].aggregateId == id && s.t.outbox[o].attempts == 0
    ensures !Landed(s, id, File)
  {
    hide RowsOk, HcmKeysOk, WarmOk, LandedOk, BooksOk, KeysOk, SectionsOk;
    RowIsListed(s.t.outbox, o);
    assert Coupled(ViewOf(s, id), id) && HeardMeansTried(ViewOf(s, id));
  }

  // ---- As long as no answer is lost -----------------------------------------------------------------------

  // No acknowledgement is lost between HCM and the tables in this step: a call whose command HCM has acknowledged
  // is told so, and what it was told is written down. HCM's clock does not go back either.
  predicate Lossless(s: State, step: Step) {
    match step
    case CallStep(k, script) => k in s.sections && s.sections[k].Dispatching? ==>
        CallIsAnswered(s, s.sections[k].row, script)
    case EndStep(k) =>
      k in s.sections && s.sections[k].Answered? && s.sections[k].result.Some? ==>
        !SaveClashes(s.t.requests, s.sections[k].row.aggregateId, s.sections[k].held)
    case Abort(k) => k in s.sections ==> !(s.sections[k].Answered? && s.sections[k].result.Some?)
    case Crash => forall k :: k in s.sections ==> !(s.sections[k].Answered? && s.sections[k].result.Some?)
    case _ => true
  }

  predicate CallIsAnswered(s: State, row: OutboxRow, script: seq<Delivery>) {
    var (h', result) := Send(s.hcm, row.payload, row.operation, script, s.config.maxAttempts);
    var filed := Lookup(s.hcm.effects, HcmKey(row.aggregateId, File));
    && (result.None? ==> row.payload.idempotencyKey in h'.answers ==>
        h'.answers[row.payload.idempotencyKey] == Answer.Refused)
    && (forall d :: d in script && d.Delivered? ==> !d.silent && (filed.Some? ==> filed.value <= d.at))
  }

  predicate FileKnown(v: View) {
    v.fileAnswer.Some? && v.fileAnswer.value.Acked? ==>
      v.req.status == Approved || (v.req.status == Cancelled && |v.rows| == 2)
  }

  predicate ReverseKnown(v: View) {
    v.reverseAnswer.Some? ==> |v.rows| == 2 && v.rows[1].status == Sent
  }

  predicate UndoneInOrder(v: View) {
    v.reversed.Some? ==> v.filed.Some? && v.filed.value <= v.reversed.value
  }

  // An acknowledgement for request i is on its way into the tables.
  predicate Arriving(s: State, i: nat, op: Operation)
    requires i < |s.t.requests|
  {
    var k := s.t.requests[i].key;
    && k in s.sections && s.sections[k].Answered? && s.sections[k].result.Some?
    && s.sections[k].row.aggregateId == i && s.sections[k].row.operation == op
  }

  ghost predicate KnownOrArriving(s: State, i: nat)
    requires i < |s.t.requests|
  {
    var v := ViewOf(s, i);
    (FileKnown(v) || Arriving(s, i, File)) && (ReverseKnown(v) || Arriving(s, i, Reverse)) && UndoneInOrder(v)
  }

  ghost predicate AllKnown(s: State) {
    forall i :: 0 <= i < |s.t.requests| ==> KnownOrArriving(s, i)
  }

  lemma MoveKeepsKnown(v: View, id: nat, m: Move)
    requires Coupled(v, id) && Fits(v, m) && !m.FileHeard? && !m.ReverseHeard?
    ensures FileKnown(v) || m.FileAcked? ==> FileKnown(After(v, id, m))
    ensures ReverseKnown(v) || m.ReverseAcked? ==> ReverseKnown(After(v, id, m))
    ensures UndoneInOrder(v) ==> UndoneInOrder(After(v, id, m))
  {
  }

  lemma FreshIsKnown(v: View)
    requires v.rows == [] && Untouched(v)
    ensures FileKnown(v) && ReverseKnown(v) && UndoneInOrder(v)
  {
  }

  lemma ArrivingStays(s: State, step: Step, i: nat, op: Operation)
    requires Elsewhere(step) && i < |s.t.requests| && Arriving(s, i, op)
    requires i < |Apply(s, step).t.requests| && Apply(s, step).t.requests[i].key == s.t.requests[i].key
    ensures Arriving(Apply(s, step), i, op)
  {
    hide Apply;
    OthersKeepDispatches(s, step);
    assert InDispatch(s, s.t.requests[i].key);
  }

  lemma ElsewhereStaysKnown(s: State, step: Step, j: nat)
    requires Inv(s) && AllKnown(s) && Elsewhere(step) && j < |Apply(s, step).t.requests|
    ensures KnownOrArriving(Apply(s, step), j)
  {
    hide Inv, Makes, Apply, FileKnown, ReverseKnown, UndoneInOrder, Arriving, SameViewsButFresh;
    var s' := Apply(s, step);
    var moved, i, key, m := StepOnViews(s, step);
    if moved {
      MovedViewIs(s, s', i, key, m, j);
      if j == i {
        InvCouples(s, i);
        MoveKeepsKnown(ViewOf(s, i), i, m);
      }
    } else {
      FreshOrSame(s, s', j);
      if j >= |s.t.requests| {
        FreshIsKnown(ViewOf(s', j));
      }
    }
    if j < |s.t.requests| {
      assert KnownOrArriving(s, j);
      if Arriving(s, j, File) { ArrivingStays(s, step, j, File); }
      if Arriving(s, j, Reverse) { ArrivingStays(s, step, j, Reverse); }
    }
  }

  lemma MovedViewIs(s: State, s': State, i: nat, key: BalanceKey, m: Move, j: nat)
    requires Makes(s, s', i, key, m) && j < |s'.t.requests|
    ensures |s'.t.requests| == |s.t.requests| && i < |s.t.requests| && s'.t.requests[j].key == s.t.requests[j].key
    ensures Fits(ViewOf(s, i), m)
    ensures ViewOf(s', j) == if j == i then After(ViewOf(s, i), i, m) else ViewOf(s, j)
  {
    hide Fits, After, Amounts, RowsOf, BalanceAt, RowAt;
  }

  lemma FreshOrSame(s: State, s': State, j: nat)
    requires SameViewsButFresh(s, s') && j < |s'.t.requests|
    ensures if j < |s.t.requests| then ViewOf(s', j) == ViewOf(s, j) && s'.t.requests[j].key == s.t.requests[j].key
            else ViewOf(s', j).rows == [] && Untouched(ViewOf(s', j))
  {
    hide RowsOf, Untouched;
    if j < |s.t.requests| {
      assert ViewOf(s', j).req.key == s'.t.requests[j].key && ViewOf(s, j).req.key == s.t.requests[j].key;
    }
  }

  lemma BeginStaysKnown(s: State, o: nat, j: nat)
    requires Inv(s) && AllKnown(s) && j < |DoBegin(s, o).t.requests|
    ensures KnownOrArriving(DoBegin(s, o), j)
  {
    hide Inv, Makes, FileKnown, ReverseKnown, UndoneInOrder, DoBegin;
    var s' := DoBegin(s, o);
    if s' != s {
      var p := BeginStepMakes(s, o);
      var i := s.t.outbox[o].aggregateId;
      MovedViewIs(s, s', i, s.t.requests[i].key, Counted(p), j);
      InvCouples(s, i);
      MoveKeepsKnown(ViewOf(s, i), i, Counted(p));
      assert KnownOrArriving(s, j);
      BeginKeepsSections(s, o, s.t.requests[j].key);
    } else {
      assert KnownOrArriving(s, j);
    }
  }

  lemma OtherArrives(s: State, s': State, k: BalanceKey, j: nat, op: Operation)
    requires j < |s.t.requests| && j < |s'.t.requests| && s'.t.requests[j].key == s.t.requests[j].key
    requires forall k' :: k' != k && k' in s.sections ==> k' in s'.sections && s'.sections[k'] == s.sections[k']
    requires Arriving(s, j, op) && s.t.requests[j].key != k
    ensures Arriving(s', j, op)
  {
  }

  lemma CallStaysKnown(s: State, k: BalanceKey, script: seq<Delivery>, j: nat)
    requires Inv(s) && AllKnown(s) && HonestHcm(s.hcm) && Lossless(s, CallStep(k, script))
    requires j < |DoCall(s, k, script).t.requests|
    ensures KnownOrArriving(DoCall(s, k, script), j)
  {
    hide Inv, Makes, FileKnown, ReverseKnown, UndoneInOrder, Arriving, DoCall, CallIsAnswered, Explains, HonestHcm,
      Arrives,
      MovesOnReverse;
    var s' := DoCall(s, k, script);
    CallKeepsRows(s, k, script);
    if k in s.sections && s.sections[k].Dispatching? {
      var heard, m := CallStepMakes(s, k, script);
      var row := s.sections[k].row;
      CallKeepsOtherSections(s, k, script);
      NobodyArrivesWhileDispatching(s, k, j);
      PayloadKey(s, k);
      assert KnownOrArriving(s, j);
      if heard {
        MovedViewIs(s, s', row.aggregateId, k, m, j);
        if j == row.aggregateId {
          HeardIsKnown(s, k, script, m);
        }
      } else {
        SameHcmSameView(s, s', j);
      }
      if Arriving(s, j, File) { OtherArrives(s, s', k, j, File); }
      if Arriving(s, j, Reverse) { OtherArrives(s, s', k, j, Reverse); }
    } else {
      assert s' == s by { CallDoesNothing(s, k, script); }
      assert KnownOrArriving(s, j);
    }
  }

  lemma SameHcmSameView(s: State, s': State, j: nat)
    requires s'.t == s.t && s'.hcm == s.hcm && j < |s.t.requests|
    ensures ViewOf(s', j) == ViewOf(s, j)
  {
  }

  lemma CallKeepsOtherSections(s: State, k: BalanceKey, script: seq<Delivery>)
    ensures forall k' :: k' != k && k' in s.sections ==>
              k' in DoCall(s, k, script).sections && DoCall(s, k, script).sections[k'] == s.sections[k']
  {
    hide Send;
  }

  lemma NobodyArrivesWhileDispatching(s: State, k: BalanceKey, j: nat)
    requires k in s.sections && s.sections[k].Dispatching? && j < |s.t.requests|
    ensures Arriving(s, j, File) || Arriving(s, j, Reverse) ==> s.t.requests[j].key != k
  {
  }

  // The request whose call HCM has just heard: known, or its acknowledgement is arriving.
  lemma HeardIsKnown(s: State, k: BalanceKey, script: seq<Delivery>, m: Move)
    requires Inv(s) && HonestHcm(s.hcm) && k in s.sections && s.sections[k].Dispatching?
    requires CallIsAnswered(s, s.sections[k].row, script)
    requires var (s', i) := (DoCall(s, k, script), s.sections[k].row.aggregateId);
             && i < |s.t.requests| && KnownOrArriving(s, i) && !Arriving(s, i, File) && !Arriving(s, i, Reverse)
             && Makes(s, s', i, k, m) && Explains(s, i, script, m)
             && s'.t == s.t
             && if s.sections[k].row.operation == File then m.FileHeard? else m.ReverseHeard?
    ensures KnownOrArriving(DoCall(s, k, script), s.sections[k].row.aggregateId)
  {
    var row, i := s.sections[k].row, s.sections[k].row.aggregateId;
    var s' := DoCall(s, k, script);
    var v, v' := ViewOf(s, i), ViewOf(s', i);
    hide Inv, Makes, CallIsAnswered, Explains, HonestHcm, FileKnown, ReverseKnown, UndoneInOrder, Arriving, DoCall,
      ViewOf;
    InvCouples(s, i);
    MovedViewIs(s, s', i, k, m, i);
    AnswerArrives(s, k, script);
    AnswersSeen(s', i);
    if m.FileHeard? {
      HeardFile(v, i, m);
    } else {
      if m.landed {
        HonestNeedsFile(s.hcm);
        LandsInOrder(s, k, script, m);
      }
      HeardReverse(v, i, m);
    }
  }

  lemma HeardFile(v: View, id: nat, m: Move)
    requires Coupled(v, id) && m.FileHeard? && Fits(v, m)
    ensures var v' := After(v, id, m);
            && v'.fileAnswer == Some(m.answer) && ReverseKnown(v') && UndoneInOrder(v')
            && (m.answer == Answer.Refused ==> FileKnown(v'))
  {
  }

  lemma HeardReverse(v: View, id: nat, m: Move)
    requires Coupled(v, id) && m.ReverseHeard? && Fits(v, m) && FileKnown(v) && UndoneInOrder(v)
    requires m.landed ==> v.filed.Some? && v.filed.value <= m.at
    ensures var v' := After(v, id, m);
            v'.reverseAnswer == Some(Acked(m.at)) && FileKnown(v') && UndoneInOrder(v')
  {
  }

  lemma AnswersSeen(s: State, i: nat)
    requires i < |s.t.requests|
    ensures ViewOf(s, i).fileAnswer == Lookup(s.hcm.answers, HcmKey(i, File))
    ensures ViewOf(s, i).reverseAnswer == Lookup(s.hcm.answers, HcmKey(i, Reverse))
  {
  }

  // An acknowledgement HCM has given in this call is arriving.
  lemma AnswerArrives(s: State, k: BalanceKey, script: seq<Delivery>)
    requires Inv(s) && k in s.sections && s.sections[k].Dispatching? && CallIsAnswered(s, s.sections[k].row, script)
    ensures var (s', row) := (DoCall(s, k, script), s.sections[k].row);
            && row.aggregateId < |s.t.requests| == |s'.t.requests|
            && var a := Lookup(s'.hcm.answers, HcmKey(row.aggregateId, row.operation));
               a.Some? && a.value.Acked? ==> Arriving(s', row.aggregateId, row.operation)
  {
    PayloadKey(s, k);
    hide Inv, Send;
  }

  lemma LandsInOrder(s: State, k: BalanceKey, script: seq<Delivery>, m: Move)
    requires k in s.sections && s.sections[k].Dispatching? && CallIsAnswered(s, s.sections[k].row, script)
    requires s.hcm.reverseNeedsFile && s.sections[k].row.aggregateId < |s.t.requests|
    requires Explains(s, s.sections[k].row.aggregateId, script, m) && m.ReverseHeard? && m.landed
    ensures var filed := ViewOf(s, s.sections[k].row.aggregateId).filed;
            filed.Some? && filed.value <= m.at
  {
    hide Send;
    var silent :| Delivered(m.at, silent, true) in Heard(script);
  }

  lemma PayloadKey(s: State, k: BalanceKey)
    requires Inv(s) && InDispatch(s, k)
    ensures s.sections[k].row.aggregateId < |s.t.requests|
    ensures s.t.requests[s.sections[k].row.aggregateId].key == k
    ensures s.sections[k].row.payload.idempotencyKey ==
        HcmKey(s.sections[k].row.aggregateId, s.sections[k].row.operation)
  {
    HolderOf(s, s.sections[k].rowId, k);
    hide RowsOk, HcmKeysOk, WarmOk, LandedOk, BooksOk, KeysOk, SectionsOk;
    QueuedRowOf(s, s.sections[k].rowId);
  }

  lemma EndStaysKnown(s: State, k: BalanceKey, j: nat)
    requires Inv(s) && AllKnown(s) && Lossless(s, EndStep(k)) && j < |DoEnd(s, k).t.requests|
    ensures KnownOrArriving(DoEnd(s, k), j)
  {
    hide Inv, Makes, FileKnown, ReverseKnown, UndoneInOrder, DoEnd, SaveClashes, Arriving, ViewOf;
    var s' := DoEnd(s, k);
    if k in s.sections && s.sections[k].Answered? {
      var moved, m := EndStepMakes(s, k);
      var i := s.sections[k].row.aggregateId;
      PayloadKey(s, k);
      WhoArrivesAfterEnd(s, k);
      if moved {
        MovedViewIs(s, s', i, k, m, j);
        InvCouples(s, i);
        MoveKeepsKnown(ViewOf(s, i), i, m);
      } else {
        SameHcmSameView(s, s', j);
      }
      assert KnownOrArriving(s, j);
    } else {
      EndDoesNothing(s, k);
      assert KnownOrArriving(s, j);
    }
  }

  // Leaving the section of k ends the arrival of its own acknowledgement and of no other.
  lemma WhoArrivesAfterEnd(s: State, k: BalanceKey)
    requires Inv(s) && k in s.sections && s.sections[k].Answered?
    ensures var Answered(_, row, _, result) := s.sections[k];
            forall j: nat, op | j < |s.t.requests| && j < |DoEnd(s, k).t.requests|
              && DoEnd(s, k).t.requests[j].key == s.t.requests[j].key && Arriving(s, j, op) ::
                Arriving(DoEnd(s, k), j, op) || (j == row.aggregateId && op == row.operation && result.Some?)
  {
    hide Inv, DoEnd;
    EndKeepsSections(s, k);
  }

  lemma CrashStaysKnown(s: State, j: nat)
    requires AllKnown(s) && Lossless(s, Crash) && j < |s.t.requests|
    ensures Apply(s, Crash).t == s.t && KnownOrArriving(Apply(s, Crash), j)
  {
    hide FileKnown, ReverseKnown, UndoneInOrder;
    assert KnownOrArriving(s, j);
    SameHcmSameView(s, Apply(s, Crash), j);
  }

  lemma AbortStaysKnown(s: State, k: BalanceKey, j: nat)
    requires Inv(s) && AllKnown(s) && Lossless(s, Abort(k)) && j < |Apply(s, Abort(k)).t.requests|
    ensures KnownOrArriving(Apply(s, Abort(k)), j)
  {
    hide Inv, Apply, FileKnown, ReverseKnown, UndoneInOrder, ViewOf;
    AbortFreesOne(s, k);
    SameHcmSameView(s, Apply(s, Abort(k)), j);
    assert KnownOrArriving(s, j);
  }

  lemma StepStaysKnown(s: State, step: Step)
    requires Inv(s) && AllKnown(s) && HonestHcm(s.hcm) && Lossless(s, step)
    ensures AllKnown(Apply(s, step))
  {
    hide Inv, Apply, HonestHcm, Lossless, KnownOrArriving;
    forall j | 0 <= j < |Apply(s, step).t.requests| ensures KnownOrArriving(Apply(s, step), j) {
      match step
      case BeginStep(o) => BeginStepIs(s, o); BeginStaysKnown(s, o, j);
      case CallStep(k, script) => CallStepIs(s, k, script); CallStaysKnown(s, k, script, j);
      case EndStep(k) => EndStepIs(s, k); EndStaysKnown(s, k, j);
      case Abort(k) => AbortStaysKnown(s, k, j);
      case Crash => CrashKeepsTables(s); CrashStaysKnown(s, j);
      case _ => ElsewhereStaysKnown(s, step, j);
    }
  }

  lemma CrashKeepsTables(s: State)
    ensures Apply(s, Crash).t == s.t
  {
  }

  lemma LosslessIsNotSilent(s: State, step: Step)
    requires Inv(s) && HonestHcm(s.hcm) && Lossless(s, step)
    ensures HonestHcm(Apply(s, step).hcm)
  {
    hide Inv, HonestHcm, Send;
    if step.CallStep? && !(step.key in s.sections && s.sections[step.key].Dispatching?) {
      CallDoesNothing(s, step.key, step.script);
      CallStepIs(s, step.key, step.script);
    } else {
      hide Apply;
      StepKeepsHonesty(s, step);
    }
  }

  ghost predicate LosslessRun(s: State, steps: seq<Step>)
    decreases |steps|
  {
    steps == [] || (Lossless(s, steps[0]) && LosslessRun(Apply(s, steps[0]), steps[1..]))
  }

  lemma {:induction false} RunStaysKnown(s: State, steps: seq<Step>)
    requires Inv(s) && AllKnown(s) && HonestHcm(s.hcm) && LosslessRun(s, steps)
    ensures Inv(Run(s, steps)) && AllKnown(Run(s, steps)) && HonestHcm(Run(s, steps).hcm)
    decreases |steps|
  {
    hide Inv, Apply, HonestHcm, Lossless, AllKnown;
    if steps != [] {
      StepKeepsInv(s, steps[0]);
      StepStaysKnown(s, steps[0]);
      LosslessIsNotSilent(s, steps[0]);
      RunStaysKnown(Apply(s, steps[0]), steps[1..]);
    }
  }

  // The design's assumption of each request, from the environment: with an honest HCM and no answer lost, every
  // request nobody is dispatching is acknowledged exactly when it was applied.
  lemma KnownIsApplied(s: State, i: nat, asOf: int)
    requires Inv(s) && HonestHcm(s.hcm) && AllKnown(s) && i < |s.t.requests| && Free(s, s.t.requests[i].key)
    requires s.t.requests[i].status == Cancelled ==>
        s.t.requests[i].hcmAckAt.None? || s.t.requests[i].hcmAckAt.value <= asOf
    ensures AckedMeansApplied(ViewOf(s, i), asOf)
  {
    hide Inv, RowsOf;
    assert KnownOrArriving(s, i);
    InvCouples(s, i);
  }

  // The days by which a cancelled request is misread when no answer was lost: those of a FILE that landed after the
  // snapshot and is not undone (its REVERSE is credited too early, or was given up), less those of a REVERSE that
  // landed after a snapshot with the deduction in it.
  function CancelledDays(v: View, asOf: int): int {
    if v.req.status != Cancelled then 0
    else DaysIf(v, LandedAfter(v.filed, asOf) && v.reversed.None?)
         - DaysIf(v, LandedBy(v.filed, asOf) && LandedAfter(v.reversed, asOf))
  }

  function CancelledColumn(s: State, k: BalanceKey, asOf: int): seq<int> {
    seq(|s.t.requests|, i requires 0 <= i < |s.t.requests| =>
      if s.t.requests[i].key == k then CancelledDays(ViewOf(s, i), asOf) else 0)
  }

  lemma OnlyCancelledIsMisread(s: State, i: nat, asOf: int)
    requires Inv(s) && HonestHcm(s.hcm) && AllKnown(s) && i < |s.t.requests| && Free(s, s.t.requests[i].key)
    ensures ErrorDays(ViewOf(s, i), asOf) == CancelledDays(ViewOf(s, i), asOf)
  {
    hide Inv, RowsOf;
    assert KnownOrArriving(s, i);
    InvCouples(s, i);
  }

  lemma MisreadDaysAreCancelled(s: State, k: BalanceKey, asOf: int)
    requires Inv(s) && HonestHcm(s.hcm) && AllKnown(s) && Free(s, k)
    ensures MisreadDays(s, k, asOf) == Sum(CancelledColumn(s, k, asOf))
  {
    hide Inv, HonestHcm, AllKnown, ErrorDays, CancelledDays;
    forall i | 0 <= i < |s.t.requests| && s.t.requests[i].key == k
      ensures ErrorDays(ViewOf(s, i), asOf) == CancelledDays(ViewOf(s, i), asOf)
    {
      OnlyCancelledIsMisread(s, i, asOf);
    }
    assert ErrorColumn(s, k, asOf) == CancelledColumn(s, k, asOf);
  }

  // With an HCM that keeps its contract and no answer lost, replaying by acknowledgement instant goes wrong over
  // cancelled requests and nothing else: a snapshot taken after `before` and delivered any number of steps later
  // gives the current HCM balance, days under way counted, if and only if the days of its misread cancelled
  // requests sum to what changed outside since.
  lemma LosslessReconcileIff(start: State, before: seq<Step>, after: seq<Step>, k: BalanceKey, asOf: int)
    requires Initial(start) && start.hcm.reverseNeedsFile && LosslessRun(start, before + after)
    requires TakenAt(Run(start, before), k, asOf) && AllPostAfter(after, asOf)
    requires Free(Run(start, before + after), k)
    ensures var end := Run(start, before + after);
            Drift(Apply(end, ReconcileStep(k, BalanceAt(Run(start, before).hcm, k), asOf)), k) == 0 <==>
            Sum(CancelledColumn(end, k, asOf)) == OutsideSum(after, k)
  {
    hide Inv, Run, LosslessRun, AllKnown, HonestHcm, TakenAt, AllPostAfter, OutsideSum, Drift, Apply, CancelledColumn,
      Sum, MisreadDays;
    var mid, end := Run(start, before), Run(start, before + after);
    InitialInv(start);
    NothingHeard(start);
    RunKeepsInv(start, before);
    RunStaysKnown(start, before + after);
    RunsCompose(start, before, after);
    MisreadDaysAreCancelled(end, k, asOf);
    ReconcileAgreesIff(mid, after, k, asOf);
  }

  // Every CANCELLED request has `hcmAckAt` null or by `asOf`.
  predicate CancelledBy(requests: seq<Request>, k: BalanceKey, asOf: int) {
    forall i :: 0 <= i < |requests| && requests[i].key == k && requests[i].status == Cancelled ==>
      requests[i].hcmAckAt.None? || requests[i].hcmAckAt.value <= asOf
  }

  // So it is right when every cancelled request was acknowledged, its FILE and its REVERSE, by the snapshot's
  // instant, and nothing changed outside since.
  lemma LosslessReconcileIsSound(start: State, before: seq<Step>, after: seq<Step>, k: BalanceKey, asOf: int)
    requires Initial(start) && start.hcm.reverseNeedsFile && LosslessRun(start, before + after)
    requires TakenAt(Run(start, before), k, asOf) && AllPostAfter(after, asOf) && OutsideSum(after, k) == 0
    requires var end := Run(start, before + after);
             Free(end, k) && CancelledBy(end.t.requests, k, asOf)
    ensures var end := Run(start, before + after);
            Drift(Apply(end, ReconcileStep(k, BalanceAt(Run(start, before).hcm, k), asOf)), k) == 0
  {
    hide Inv, Run, LosslessRun, AllKnown, HonestHcm, TakenAt, AllPostAfter, OutsideSum, Drift, Apply, Misread,
      ErrorDays, CancelledDays, AckedMeansApplied;
    var end := Run(start, before + after);
    InitialInv(start);
    NothingHeard(start);
    RunStaysKnown(start, before + after);
    LosslessReconcileIff(start, before, after, k, asOf);
    forall i | 0 <= i < |end.t.requests| && end.t.requests[i].key == k
      ensures CancelledDays(ViewOf(end, i), asOf) == 0
    {
      KnownIsApplied(end, i, asOf);
      InvCouples(end, i);
      AckedMeansAppliedIsEnough(ViewOf(end, i), i, asOf);
      OnlyCancelledIsMisread(end, i, asOf);
      NotMisread(ViewOf(end, i), asOf);
    }
    SumZero(CancelledColumn(end, k, asOf));
  }

  lemma NotMisread(v: View, asOf: int)
    requires !Misread(v, asOf)
    ensures ErrorDays(v, asOf) == 0
  {
  }

  lemma NothingHeard(s: State)
    requires Initial(s) && s.hcm.reverseNeedsFile
    ensures AllKnown(s) && HonestHcm(s.hcm)
  {
  }
}
