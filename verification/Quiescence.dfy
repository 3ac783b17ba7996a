// Ticks that nobody disturbs end with nothing under way; this is what is then left between the two balances.
module Quiescence {
  import opened Entities
  import opened Sums
  import opened OutboxTable
  import opened MockHcm
  import opened HcmCall
  import opened Lifecycle
  import opened Machine
  import opened Automaton
  import opened Refinement
  import opened Invariant
  import opened Agreement
  import opened Guarantees
  import opened Dispatch

  // Drift that comes from nothing but abandoned REVERSEs.
  function Unexplained(s: State, k: BalanceKey): int {
    Drift(s, k) - Total(s, k, GivenUp)
  }

  ghost predicate Explained(s: State, s': State, k: BalanceKey) {
    Unexplained(s', k) == Unexplained(s, k) && Total(s', k, GivenUp) >= Total(s, k, GivenUp)
  }

  lemma GivingUpCharges(v: View, m: Move)
    requires m.ReverseGivenUp?
    ensures Charge(v, m) >= 0
  {
  }

  lemma MoveExplains(s: State, s': State, i: nat, key: BalanceKey, m: Move, k: BalanceKey)
    requires Inv(s) && Makes(s, s', i, key, m)
    requires i < |s.t.requests| && !m.ReverseGivenUp? ==> Charge(ViewOf(s, i), m) == 0
    ensures Explained(s, s', k)
  {
    hide Inv, Makes, OnlyRequest, Charge, Weight, Total, ViewOf, Drift, Coupled, Fits, After;
    MoveDrift(s, s', i, key, m, k);
    MoveFigures(s, s', i, key, m, k);
    InvCouples(s, i);
    GivingUpIsExact(ViewOf(s, i), i, m);
    if m.ReverseGivenUp? {
      GivingUpCharges(ViewOf(s, i), m);
    }
    TotalAfterMove(s, s', i, key, GivenUp, k);
  }

  lemma SameTablesExplain(s: State, s': State, k: BalanceKey)
    requires s'.t == s.t && s'.hcm == s.hcm
    ensures Explained(s, s', k)
  {
    hide Total;
    SameFigures(s, s', k);
  }

  lemma BeginExplains(s: State, o: nat, k: BalanceKey)
    requires Inv(s)
    ensures Explained(s, DoBegin(s, o), k)
  {
    hide Inv, Makes, DoBegin, Unexplained, Total;
    if DoBegin(s, o) != s {
      var p := BeginStepMakes(s, o);
      var i := s.t.outbox[o].aggregateId;
      MoveExplains(s, DoBegin(s, o), i, s.t.requests[i].key, Counted(p), k);
    }
  }

  lemma CallExplains(s: State, k': BalanceKey, script: seq<Delivery>, k: BalanceKey)
    requires Inv(s) && HonestHcm(s.hcm)
    ensures Explained(s, DoCall(s, k', script), k)
  {
    hide Inv, Makes, DoCall, Unexplained, Total, HonestHcm, Arrives, MovesOnReverse;
    if k' in s.sections && s.sections[k'].Dispatching? {
      var heard, m := CallStepMakes(s, k', script);
      if heard {
        HonestNeedsFile(s.hcm);
        MoveExplains(s, DoCall(s, k', script), s.sections[k'].row.aggregateId, k', m, k);
      } else {
        SameTablesExplain(s, DoCall(s, k', script), k);
      }
    } else {
      CallDoesNothing(s, k', script);
    }
  }

  lemma EndExplains(s: State, k': BalanceKey, k: BalanceKey)
    requires Inv(s) && HonestHcm(s.hcm)
    ensures Explained(s, DoEnd(s, k'), k)
  {
    hide Inv, Makes, DoEnd, Unexplained, Total, EndMoves;
    if k' in s.sections && s.sections[k'].Answered? {
      var moved, m := EndStepMakes(s, k');
      var i := s.sections[k'].row.aggregateId;
      if moved {
        if m.FileAcked? {
          AckedIsFiled(s, k');
        }
        MoveExplains(s, DoEnd(s, k'), i, k', m, k);
      } else {
        SameTablesExplain(s, DoEnd(s, k'), k);
      }
    } else {
      EndDoesNothing(s, k');
    }
  }

  lemma AckedIsFiled(s: State, k: BalanceKey)
    requires Inv(s) && HonestHcm(s.hcm) && k in s.sections && s.sections[k].Answered?
    requires s.sections[k].row.operation == File && s.sections[k].result.Some?
    ensures s.sections[k].row.aggregateId < |s.t.requests| && ViewOf(s, s.sections[k].row.aggregateId).filed.Some?
  {
    hide RequestsOk, RowsOk, HcmKeysOk, WarmOk, LandedOk, BooksOk, KeysOk;
    assert SectionOk(s, k, s.sections[k]);
  }

  lemma DispatchStepExplains(s: State, step: Step, k: BalanceKey)
    requires Inv(s) && HonestHcm(s.hcm) && DispatchStep(step, false)
    ensures Explained(s, Apply(s, step), k)
    ensures HonestHcm(Apply(s, step).hcm)
  {
    hide Inv, HonestHcm, Apply, Explained;
    StepKeepsHonesty(s, step);
    match step
    case BeginStep(o) => BeginStepIs(s, o); BeginExplains(s, o, k);
    case CallStep(k', script) => CallStepIs(s, k', script); CallExplains(s, k', script, k);
    case EndStep(k') => EndStepIs(s, k'); EndExplains(s, k', k);
  }

  lemma {:induction false} DispatchRunExplains(s: State, steps: seq<Step>, k: BalanceKey)
    requires Inv(s) && HonestHcm(s.hcm) && forall step :: step in steps ==> DispatchStep(step, false)
    ensures Inv(Run(s, steps)) && Explained(s, Run(s, steps), k)
    decreases |steps|
  {
    hide Inv, HonestHcm, Apply, Unexplained, Total, DispatchStep;
    if steps != [] {
      assert steps[0] in steps && forall step :: step in steps[1..] ==> step in steps;
      StepKeepsInv(s, steps[0]);
      DispatchStepExplains(s, steps[0], k);
      DispatchRunExplains(Apply(s, steps[0]), steps[1..], k);
    }
  }

  lemma NothingUnderWay(s: State, k: BalanceKey)
    requires Inv(s) && NoneQueued(s.t.outbox, File) && NoneQueued(s.t.outbox, Reverse)
    ensures Total(s, k, InFlight) == 0
  {
    hide HcmKeysOk, WarmOk, LandedOk, BooksOk, KeysOk, SectionsOk;
    var c := Column(s, k, InFlight);
    forall i | 0 <= i < |c| ensures c[i] == 0 {
      var v := ViewOf(s, i);
      assert Coupled(v, i);
      if FileQueued(v) {
        var o := ListedRowIsStored(s.t.outbox, i, 0);
      }
      if ReverseQueued(v) {
        var o := ListedRowIsStored(s.t.outbox, i, 1);
      }
    }
    SumZero(c);
  }

  // From agreement, with an honest HCM on whatever wire: after 2 * max undisturbed ticks the local balance exceeds
  // HCM's by the days of the REVERSEs given up meanwhile, and by nothing else.
  lemma TicksLeaveTheAbandoned(s: State, plans: seq<seq<seq<Delivery>>>, k: BalanceKey)
    requires Inv(s) && s.sections == map[] && HonestHcm(s.hcm) && Drift(s, k) == 0
    requires LoudPlans(plans) && |plans| >= 2 * s.config.maxAttempts && |plans| >= 2
    ensures var s' := Quiet(s, Ticks(s.t, s.hcm, plans, s.config.maxAttempts));
            && Available(s', k) == BalanceAt(s'.hcm, k) + Total(s', k, GivenUp) - Total(s, k, GivenUp)
            && Total(s', k, GivenUp) >= Total(s, k, GivenUp)
  {
    hide Inv, Ticks, HonestHcm, Run, Total;
    var s' := Quiet(s, Ticks(s.t, s.hcm, plans, s.config.maxAttempts));
    var steps := TicksAreARun(s, plans);
    DispatchRunExplains(s, steps, k);
    TicksEmptyTheOutbox(s, plans);
    NothingUnderWay(s', k);
  }

  // So the two balances are equal when every REVERSE got through.
  lemma TicksEndInEquality(s: State, plans: seq<seq<seq<Delivery>>>, k: BalanceKey)
    requires Inv(s) && s.sections == map[] && HonestHcm(s.hcm) && Drift(s, k) == 0
    requires LoudPlans(plans) && |plans| >= 2 * s.config.maxAttempts && |plans| >= 2
    requires var s' := Quiet(s, Ticks(s.t, s.hcm, plans, s.config.maxAttempts));
             forall i :: 0 <= i < |s'.t.requests| && s'.t.requests[i].key == k ==> !Abandoned(ViewOf(s', i))
    ensures var (t', h') := Ticks(s.t, s.hcm, plans, s.config.maxAttempts);
            RowAt(t'.balances, k).available == BalanceAt(h', k)
  {
    hide Inv, Ticks, HonestHcm, Drift, Abandoned;
    TicksLeaveTheAbandoned(s, plans, k);
    SumZero(Column(Quiet(s, Ticks(s.t, s.hcm, plans, s.config.maxAttempts)), k, GivenUp));
    GivenUpIsNotNegative(s, k);
  }

  lemma GivenUpIsNotNegative(s: State, k: BalanceKey)
    ensures Total(s, k, GivenUp) >= 0
  {
    hide ViewOf;
    var c := Column(s, k, GivenUp);
    var zeros := seq(|c|, i => 0);
    SumZero(zeros);
    SumAtMost(zeros, c);
  }
}
