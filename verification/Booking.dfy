// No day is booked twice, and what is booked inside a window of days fits into its working days.
module Booking {
  import opened Entities
  import opened Sums
  import opened WorkDays
  import opened Lifecycle
  import opened Machine
  import opened Automaton
  import opened Refinement
  import opened Invariant
  import opened Agreement
  import opened RunLaws

  predicate Shares(a: Request, b: Request) {
    a.key == b.key && !a.status.Terminal() && !b.status.Terminal() && a.startDay <= b.endDay && b.startDay <= a.endDay
  }

  ghost predicate Booked(requests: seq<Request>) {
    && (forall i :: 0 <= i < |requests| ==>
        requests[i].days == WorkingDays(requests[i].startDay, requests[i].endDay + 1, {}))
    && (forall i, j :: 0 <= i < j < |requests| ==> !Shares(requests[i], requests[j]))
  }

  lemma OtherStepsAddNothing(s: State, step: Step)
    requires Inv(s) && !step.SubmitStep?
    ensures |Apply(s, step).t.requests| == |s.t.requests|
  {
    hide Inv, ReconciledRow, ReconcileEvent, Fits, After, Amounts, ViewOf;
    if Transactional(s, step) {
      hide Apply, StepCharge, Snapshots;
      var moved, i, key, m := StepTransacts(s, step, BalanceKey("", ""));
    }
  }

  // A submit adds at most one request, and that one shares no day with an active request.
  lemma SubmitAddsOne(s: State, sub: Submission)
    ensures var s' := DoSubmit(s, sub);
            var n := |s.t.requests|;
            && n <= |s'.t.requests| <= n + 1
            && (|s'.t.requests| > n ==>
                  && s'.t.requests[n].days == WorkingDays(sub.startDay, sub.endDay + 1, {})
                  && s'.t.requests[n].key == sub.key
                  && s'.t.requests[n].startDay == sub.startDay && s'.t.requests[n].endDay == sub.endDay
                  && !AnyClash(s.t.requests, sub.key, sub.startDay, sub.endDay))
  {
    hide WorkingDays, AnyClash, RetiredKeyTaken;
  }

  lemma StepKeepsBooked(s: State, step: Step)
    requires Inv(s) && Booked(s.t.requests)
    ensures Booked(Apply(s, step).t.requests)
  {
    hide Inv, Apply, WorkingDays;
    var s' := Apply(s, step);
    var n := |s.t.requests|;
    if step.SubmitStep? {
      SubmitStepIs(s, step.sub);
      SubmitAddsOne(s, step.sub);
    } else {
      OtherStepsAddNothing(s, step);
    }
    forall i | 0 <= i < n ensures Settled(s, s', i) {
      StepSettles(s, step, i);
    }
    forall i, j | 0 <= i < j < |s'.t.requests| ensures !Shares(s'.t.requests[i], s'.t.requests[j]) {
      assert Settled(s, s', i);
      if j < n {
        assert Settled(s, s', j);
        assert !Shares(s.t.requests[i], s.t.requests[j]);
      } else {
        assert !Clashes(s.t.requests[i], step.sub.key, step.sub.startDay, step.sub.endDay);
      }
    }
    forall i | 0 <= i < |s'.t.requests|
      ensures s'.t.requests[i].days == WorkingDays(s'.t.requests[i].startDay, s'.t.requests[i].endDay + 1, {})
    {
      if i < n {
        assert Settled(s, s', i);
      }
    }
  }

  lemma {:induction false} RunKeepsBooked(s: State, steps: seq<Step>)
    requires Inv(s) && Booked(s.t.requests)
    ensures Booked(Run(s, steps).t.requests)
    decreases |steps|
  {
    hide Inv, Apply, Booked;
    if steps != [] {
      StepKeepsInv(s, steps[0]);
      StepKeepsBooked(s, steps[0]);
      RunKeepsBooked(Apply(s, steps[0]), steps[1..]);
    }
  }

  // ---- Counting days in a window ------------------------------------------------------------------------

  function Max(a: int, b: int): int {
    if a < b then b else a
  }

  function Min(a: int, b: int): int {
    if a < b then a else b
  }

  predicate ActiveOn(r: Request, k: BalanceKey) {
    r.key == k && !r.status.Terminal()
  }

  // The working days of r inside [lo, hi).
  function DaysWithin(r: Request, k: BalanceKey, lo: int, hi: int): int {
    if ActiveOn(r, k) then WorkingDays(Max(r.startDay, lo), Min(r.endDay + 1, hi), {}) else 0
  }

  function WithinColumn(requests: seq<Request>, k: BalanceKey, lo: int, hi: int): seq<int> {
    seq(|requests|, i requires 0 <= i < |requests| => DaysWithin(requests[i], k, lo, hi))
  }

  function CoversDay(r: Request, k: BalanceKey, lo: int, day: int): int {
    if ActiveOn(r, k) && lo <= day && r.startDay <= day <= r.endDay && Works(day, {}) then 1 else 0
  }

  function CoverColumn(requests: seq<Request>, k: BalanceKey, lo: int, day: int): seq<int> {
    seq(|requests|, i requires 0 <= i < |requests| => CoversDay(requests[i], k, lo, day))
  }

  lemma {:induction false} SumOfLoneOne(xs: seq<int>)
    requires forall i :: 0 <= i < |xs| ==> xs[i] == 0 || xs[i] == 1
    requires forall i, j :: 0 <= i < j < |xs| ==> xs[i] == 0 || xs[j] == 0
    ensures Sum(xs) <= 1
  {
    if xs != [] {
      var n := |xs| - 1;
      if xs[n] == 0 {
        SumOfLoneOne(xs[..n]);
      } else {
        SumZero(xs[..n]);
      }
    }
  }

  lemma OneMoreDay(r: Request, k: BalanceKey, lo: int, hi: int)
    requires lo < hi
    ensures DaysWithin(r, k, lo, hi) == DaysWithin(r, k, lo, hi - 1) + CoversDay(r, k, lo, hi - 1)
  {
    hide Works;
  }

  lemma CoveredOnce(requests: seq<Request>, k: BalanceKey, lo: int, day: int)
    requires Booked(requests)
    ensures Sum(CoverColumn(requests, k, lo, day)) <= if Works(day, {}) then 1 else 0
  {
    hide Works;
    var cover := CoverColumn(requests, k, lo, day);
    if Works(day, {}) {
      forall i, j | 0 <= i < j < |cover| ensures cover[i] == 0 || cover[j] == 0 {
        assert !Shares(requests[i], requests[j]);
      }
      SumOfLoneOne(cover);
    } else {
      SumZero(cover);
    }
  }

  lemma {:induction false} WindowBound(requests: seq<Request>, k: BalanceKey, lo: int, hi: int)
    requires Booked(requests)
    ensures Sum(WithinColumn(requests, k, lo, hi)) <= WorkingDays(lo, hi, {})
    decreases hi - lo
  {
    hide Booked, Works, CoversDay;
    if hi <= lo {
      SumZero(WithinColumn(requests, k, lo, hi));
    } else {
      hide DaysWithin;
      WindowBound(requests, k, lo, hi - 1);
      var before, cover := WithinColumn(requests, k, lo, hi - 1), CoverColumn(requests, k, lo, hi - 1);
      forall i | 0 <= i < |requests| ensures WithinColumn(requests, k, lo, hi)[i] == before[i] + cover[i] {
        OneMoreDay(requests[i], k, lo, hi);
      }
      SumPlus(before, cover, WithinColumn(requests, k, lo, hi));
      CoveredOnce(requests, k, lo, hi - 1);
    }
  }

  function InsideColumn(requests: seq<Request>, k: BalanceKey, lo: int, hi: int): seq<int> {
    seq(|requests|, i requires 0 <= i < |requests| =>
      if ActiveOn(requests[i], k) && lo <= requests[i].startDay && requests[i].endDay < hi then requests[i].days else 0)
  }

  // In every reachable state the active requests of one balance that lie in a window of days have, taken
  // together, no more days than the window has working days.
  lemma NeverOverbooked(s: State, steps: seq<Step>, k: BalanceKey, lo: int, hi: int)
    requires Initial(s)
    ensures Sum(InsideColumn(Run(s, steps).t.requests, k, lo, hi)) <= WorkingDays(lo, hi, {})
  {
    InitialInv(s);
    RunKeepsBooked(s, steps);
    var requests := Run(s, steps).t.requests;
    hide Run;
    SumAtMost(InsideColumn(requests, k, lo, hi), WithinColumn(requests, k, lo, hi));
    WindowBound(requests, k, lo, hi);
  }
}
