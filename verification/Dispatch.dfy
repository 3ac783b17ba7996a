// dispatchOne and dispatchPending without interruption (src/hcm/outbox-dispatcher.service.ts): what the service
// class is proved against, that it is a run of the state machine, and how soon it leaves nothing to dispatch.
module Dispatch {
  import opened Entities
  import opened OutboxTable
  import opened MockHcm
  import HcmClient
  import opened HcmCall
  import opened Lifecycle
  import opened Machine
  import opened Automaton
  import opened Refinement
  import opened Invariant

  predicate Dispatchable(t: Tables, o: nat) {
    o < |t.outbox| && t.outbox[o].status == Queued && t.outbox[o].aggregateId < |t.requests|
  }

  function DispatchOne(t: Tables, h: Hcm, o: nat, script: seq<Delivery>, max: nat): (Tables, Hcm) {
    if !Dispatchable(t, o) then (t, h)
    else
      var row := t.outbox[o].(attempts := t.outbox[o].attempts + 1);
      var (h', result) := Send(h, row.payload, row.operation, script, max);
      (EndDispatch(BeginDispatch(t, o).0, o, row, t.requests[row.aggregateId], result, max), h')
  }

  function Script(scripts: seq<seq<Delivery>>): seq<Delivery> {
    if scripts == [] then [] else scripts[0]
  }

  function Later(scripts: seq<seq<Delivery>>): seq<seq<Delivery>> {
    if scripts == [] then [] else scripts[1..]
  }

  function DispatchAll(t: Tables, h: Hcm, ids: seq<nat>, scripts: seq<seq<Delivery>>, max: nat): (Tables, Hcm)
    decreases |ids|
  {
    if ids == [] then (t, h)
    else
      var (t', h') := DispatchOne(t, h, ids[0], Script(scripts), max);
      DispatchAll(t', h', ids[1..], Later(scripts), max)
  }

  // The ids of the PENDING rows, oldest first.
  function QueuedIds(outbox: seq<OutboxRow>): (ids: seq<nat>)
    ensures forall o: nat :: o in ids <==> o < |outbox| && outbox[o].status == Queued
    ensures forall i, j :: 0 <= i < j < |ids| ==> ids[i] < ids[j]
  {
    if outbox == [] then []
    else
      var n := |outbox| - 1;
      var older := QueuedIds(outbox[..n]);
      assert forall i :: 0 <= i < |older| ==> older[i] in older;
      older + if outbox[n].status == Queued then [n] else []
  }

  function Tick(t: Tables, h: Hcm, scripts: seq<seq<Delivery>>, max: nat): (Tables, Hcm) {
    DispatchAll(t, h, QueuedIds(t.outbox), scripts, max)
  }

  function Ticks(t: Tables, h: Hcm, plans: seq<seq<seq<Delivery>>>, max: nat): (Tables, Hcm)
    decreases |plans|
  {
    if plans == [] then (t, h)
    else
      var (t', h') := Tick(t, h, plans[0], max);
      Ticks(t', h', plans[1..], max)
  }

  // ---- A dispatch is three steps ------------------------------------------------------------------------

  function Quiet(s: State, th: (Tables, Hcm)): State {
    s.(t := th.0, hcm := th.1)
  }

  // A step of a dispatch; `silent` tells whether posts may meet the silent-insufficient scenario.
  predicate DispatchStep(step: Step, silent: bool) {
    (step.BeginStep? || step.CallStep? || step.EndStep?) && (step.CallStep? ==> silent || Loud(step.script))
  }

  predicate Loud(script: seq<Delivery>) {
    forall d :: d in script && d.Delivered? ==> !d.silent
  }

  predicate LoudPlan(scripts: seq<seq<Delivery>>) {
    forall script :: script in scripts ==> Loud(script)
  }

  predicate LoudPlans(plans: seq<seq<seq<Delivery>>>) {
    forall plan :: plan in plans ==> LoudPlan(plan)
  }

  lemma RunOfThree(s: State, a: Step, b: Step, c: Step)
    ensures Run(s, [a, b, c]) == Apply(Apply(Apply(s, a), b), c)
  {
    hide Apply;
    assert [a, b, c][1..] == [b, c] && [b, c][1..] == [c] && [c][1..] == [];
    var s1 := Apply(s, a);
    assert Run(s1, [b, c]) == Run(Apply(s1, b), [c]);
    assert Run(Apply(s1, b), [c]) == Run(Apply(Apply(s1, b), c), []);
  }

  lemma DispatchIsThreeSteps(s: State, o: nat, script: seq<Delivery>) returns (steps: seq<Step>)
    requires s.sections == map[]
    ensures Run(s, steps) == Quiet(s, DispatchOne(s.t, s.hcm, o, script, s.config.maxAttempts))
    ensures forall step :: step in steps ==> DispatchStep(step, !Loud(script))
  {
    hide Send, EndDispatch, Apply, Run;
    if Dispatchable(s.t, o) {
      var k := s.t.requests[s.t.outbox[o].aggregateId].key;
      steps := [BeginStep(o), CallStep(k, script), EndStep(k)];
      BeginStepIs(s, o);
      var s1 := DoBegin(s, o);
      CallStepIs(s1, k, script);
      var s2 := DoCall(s1, k, script);
      EndStepIs(s2, k);
      assert DoEnd(s2, k).sections == map[];
      RunOfThree(s, steps[0], steps[1], steps[2]);
    } else {
      steps := [];
      RunOfNone(s);
    }
  }

  lemma RunOfNone(s: State)
    ensures Run(s, []) == s
  {
  }

  lemma {:induction false} RunsCompose(s: State, a: seq<Step>, b: seq<Step>)
    ensures Run(s, a + b) == Run(Run(s, a), b)
    decreases |a|
  {
    hide Apply;
    if a == [] {
      assert a + b == b;
    } else {
      assert (a + b)[1..] == a[1..] + b;
      RunsCompose(Apply(s, a[0]), a[1..], b);
    }
  }

  lemma {:induction false} DispatchAllIsRun(s: State, ids: seq<nat>,
      scripts: seq<seq<Delivery>>) returns (steps: seq<Step>)
    requires s.sections == map[]
    ensures Run(s, steps) == Quiet(s, DispatchAll(s.t, s.hcm, ids, scripts, s.config.maxAttempts))
    ensures forall step :: step in steps ==> DispatchStep(step, !LoudPlan(scripts))
    decreases |ids|
  {
    hide Apply, DispatchOne;
    if ids == [] {
      steps := [];
    } else {
      var first := DispatchIsThreeSteps(s, ids[0], Script(scripts));
      var s' := Run(s, first);
      var rest := DispatchAllIsRun(s', ids[1..], Later(scripts));
      steps := first + rest;
      RunsCompose(s, first, rest);
    }
  }

  lemma {:induction false} TicksAreARun(s: State, plans: seq<seq<seq<Delivery>>>) returns (steps: seq<Step>)
    requires s.sections == map[]
    ensures Run(s, steps) == Quiet(s, Ticks(s.t, s.hcm, plans, s.config.maxAttempts))
    ensures forall step :: step in steps ==> DispatchStep(step, !LoudPlans(plans))
    decreases |plans|
  {
    hide Apply, DispatchAll;
    if plans == [] {
      steps := [];
    } else {
      var first := DispatchAllIsRun(s, QueuedIds(s.t.outbox), plans[0]);
      var s' := Run(s, first);
      var rest := TicksAreARun(s', plans[1..]);
      steps := first + rest;
      RunsCompose(s, first, rest);
    }
  }

  // ---- Quiescence ---------------------------------------------------------------------------------------

  ghost predicate Sound(t: Tables) {
    && KeysOk(t.requests)
    && forall o :: 0 <= o < |t.outbox| ==> t.outbox[o].aggregateId < |t.requests|
  }

  // Every queued row of this operation has been tried at least `lo` times.
  predicate Tried(outbox: seq<OutboxRow>, op: Operation, lo: nat) {
    forall o :: 0 <= o < |outbox| && outbox[o].operation == op && outbox[o].status == Queued ==>
        outbox[o].attempts >= lo
  }

  predicate NoneQueued(outbox: seq<OutboxRow>, op: Operation) {
    forall o :: 0 <= o < |outbox| ==> outbox[o].operation == op ==> outbox[o].status != Queued
  }

  // What one dispatch does to the outbox: it counts the attempt, a row that stays queued has attempts left, and
  // the only new row is the REVERSE of a FILE.
  lemma DispatchOneRows(t: Tables, h: Hcm, o: nat, script: seq<Delivery>, max: nat)
    requires Sound(t) && Dispatchable(t, o)
    ensures var t' := DispatchOne(t, h, o, script, max).0;
            && Sound(t')
            && |t.outbox| <= |t'.outbox| <= |t.outbox| + 1
            && (forall p :: 0 <= p < |t.outbox| && p != o ==> t'.outbox[p] == t.outbox[p])
            && t'.outbox[o].operation == t.outbox[o].operation
            && t'.outbox[o].payload == t.outbox[o].payload
            && t'.outbox[o].attempts == t.outbox[o].attempts + 1
            && (t'.outbox[o].status == Queued ==> t'.outbox[o].attempts < max)
            && (|t'.outbox| > |t.outbox| ==>
                t.outbox[o].operation == File && t'.outbox[|t.outbox|].operation == Reverse)
  {
    hide Send;
  }

  // Rows of `op` still to be visited are in `ids`; all others have been tried `lo` times and have attempts left.
  predicate Visited(outbox: seq<OutboxRow>, op: Operation, ids: seq<nat>, lo: nat, max: nat) {
    forall o: nat :: o < |outbox| && outbox[o].operation == op && outbox[o].status == Queued ==>
      if o in ids then outbox[o].attempts + 1 >= lo else lo <= outbox[o].attempts < max
  }

  lemma {:induction false} DispatchAllRaises(t: Tables, h: Hcm, ids: seq<nat>, scripts: seq<seq<Delivery>>, max: nat,
      op: Operation, lo: nat)
    requires Sound(t) && Visited(t.outbox, op, ids, lo, max)
    requires op == Reverse ==> NoneQueued(t.outbox, File)
    ensures var t' := DispatchAll(t, h, ids, scripts, max).0;
            && Sound(t') && Visited(t'.outbox, op, [], lo, max)
            && (op == Reverse ==> NoneQueued(t'.outbox, File))
    decreases |ids|
  {
    hide DispatchOne;
    if ids != [] {
      var (t', h') := DispatchOne(t, h, ids[0], Script(scripts), max);
      if Dispatchable(t, ids[0]) {
        DispatchOneRows(t, h, ids[0], Script(scripts), max);
      } else {
        DispatchNothing(t, h, ids[0], Script(scripts), max);
      }
      forall o: nat | o < |t'.outbox| && t'.outbox[o].operation == op && t'.outbox[o].status == Queued
        ensures if o in ids[1..] then t'.outbox[o].attempts + 1 >= lo else lo <= t'.outbox[o].attempts < max
      {
        assert o in ids <==> o == ids[0] || o in ids[1..];
      }
      DispatchAllRaises(t', h', ids[1..], Later(scripts), max, op, lo);
    }
  }

  lemma DispatchNothing(t: Tables, h: Hcm, o: nat, script: seq<Delivery>, max: nat)
    requires !Dispatchable(t, o)
    ensures DispatchOne(t, h, o, script, max) == (t, h)
  {
  }

  lemma TickRaises(t: Tables, h: Hcm, scripts: seq<seq<Delivery>>, max: nat, op: Operation, lo: nat)
    requires Sound(t) && Tried(t.outbox, op, lo)
    requires op == Reverse ==> NoneQueued(t.outbox, File)
    ensures var t' := Tick(t, h, scripts, max).0;
            && Sound(t') && Tried(t'.outbox, op, lo + 1)
            && (lo + 1 >= max ==> NoneQueued(t'.outbox, op))
            && (op == Reverse ==> NoneQueued(t'.outbox, File))
  {
    DispatchAllRaises(t, h, QueuedIds(t.outbox), scripts, max, op, lo + 1);
    var t' := Tick(t, h, scripts, max).0;
    assert Visited(t'.outbox, op, [], lo + 1, max);
  }

  lemma {:induction false} TicksRaise(t: Tables, h: Hcm, plans: seq<seq<seq<Delivery>>>, max: nat, op: Operation,
      lo: nat)
    requires Sound(t) && Tried(t.outbox, op, lo)
    requires op == Reverse ==> NoneQueued(t.outbox, File)
    requires plans != [] && lo + |plans| >= max
    ensures var t' := Ticks(t, h, plans, max).0;
            && Sound(t') && NoneQueued(t'.outbox, op)
            && (op == Reverse ==> NoneQueued(t'.outbox, File))
    decreases |plans|
  {
    hide Tick;
    TickRaises(t, h, plans[0], max, op, lo);
    var (t', h') := Tick(t, h, plans[0], max);
    if plans[1..] != [] {
      TicksRaise(t', h', plans[1..], max, op, lo + 1);
    }
  }

  lemma {:induction false} TicksSplit(t: Tables, h: Hcm, a: seq<seq<seq<Delivery>>>, b: seq<seq<seq<Delivery>>>,
      max: nat)
    ensures Ticks(t, h, a + b, max) == (var (t', h') := Ticks(t, h, a, max); Ticks(t', h', b, max))
    decreases |a|
  {
    hide Tick;
    if a == [] {
      assert a + b == b;
    } else {
      assert (a + b)[1..] == a[1..] + b;
      var (t', h') := Tick(t, h, a[0], max);
      TicksSplit(t', h', a[1..], b, max);
    }
  }

  // What undisturbed ticks keep; module Attempts says which steps of a run lose it.
  predicate WithinBudget(outbox: seq<OutboxRow>, max: nat) {
    forall o :: 0 <= o < |outbox| ==>
        outbox[o].attempts <= max && (outbox[o].status == Queued ==> outbox[o].attempts < max)
  }

  lemma {:induction false} DispatchAllKeepsBudget(t: Tables, h: Hcm, ids: seq<nat>, scripts: seq<seq<Delivery>>,
      max: nat)
    requires Sound(t) && WithinBudget(t.outbox, max)
    ensures Sound(DispatchAll(t, h, ids, scripts, max).0)
    ensures WithinBudget(DispatchAll(t, h, ids, scripts, max).0.outbox, max)
    decreases |ids|
  {
    hide DispatchOne;
    if ids != [] {
      var (t', h') := DispatchOne(t, h, ids[0], Script(scripts), max);
      if Dispatchable(t, ids[0]) {
        DispatchOneRows(t, h, ids[0], Script(scripts), max);
        FreshRowHasAttempts(t, h, ids[0], Script(scripts), max);
      } else {
        DispatchNothing(t, h, ids[0], Script(scripts), max);
      }
      DispatchAllKeepsBudget(t', h', ids[1..], Later(scripts), max);
    }
  }

  lemma {:induction false} TicksKeepBudget(t: Tables, h: Hcm, plans: seq<seq<seq<Delivery>>>, max: nat)
    requires Sound(t) && WithinBudget(t.outbox, max)
    ensures WithinBudget(Ticks(t, h, plans, max).0.outbox, max)
    decreases |plans|
  {
    hide DispatchAll;
    if plans != [] {
      DispatchAllKeepsBudget(t, h, QueuedIds(t.outbox), plans[0], max);
      var (t', h') := Tick(t, h, plans[0], max);
      TicksKeepBudget(t', h', plans[1..], max);
    }
  }

  lemma FreshRowHasAttempts(t: Tables, h: Hcm, o: nat, script: seq<Delivery>, max: nat)
    requires Sound(t) && Dispatchable(t, o)
    ensures var t' := DispatchOne(t, h, o, script, max).0;
            |t'.outbox| > |t.outbox| ==> t'.outbox[|t.outbox|].attempts == 0 && t'.outbox[|t.outbox|].status == Queued
  {
    hide Send;
  }

  // ---- Posts per row --------------------------------------------------------------------------------------

  // The HTTP posts one dispatch sends ...
  function PostsOfOne(t: Tables, h: Hcm, o: nat, script: seq<Delivery>, max: nat): nat {
    if Dispatchable(t, o) then HcmClient.Posts(Wire(h, t.outbox[o].payload, t.outbox[o].operation, script), max) else 0
  }

  // ... the dispatches of one tick send for row o ...
  function PostsFor(t: Tables, h: Hcm, ids: seq<nat>, scripts: seq<seq<Delivery>>, max: nat, o: nat): nat
    decreases |ids|
  {
    if ids == [] then 0
    else
      var (t', h') := DispatchOne(t, h, ids[0], Script(scripts), max);
      (if ids[0] == o then PostsOfOne(t, h, o, Script(scripts), max) else 0) +
          PostsFor(t', h', ids[1..], Later(scripts), max, o)
  }

  // ... and any number of ticks.
  function PostsInTicks(t: Tables, h: Hcm, plans: seq<seq<seq<Delivery>>>, max: nat, o: nat): nat
    decreases |plans|
  {
    if plans == [] then 0
    else
      var (t', h') := Tick(t, h, plans[0], max);
      PostsFor(t, h, QueuedIds(t.outbox), plans[0], max, o) + PostsInTicks(t', h', plans[1..], max, o)
  }

  // Row o is still there, with the payload it was written with.
  predicate SameCommand(before: seq<OutboxRow>, after: seq<OutboxRow>, o: nat) {
    o < |before| <= |after| && after[o].payload == before[o].payload && after[o].operation == before[o].operation
  }

  lemma PostsAtMost(t: Tables, h: Hcm, o: nat, script: seq<Delivery>, max: nat)
    ensures PostsOfOne(t, h, o, script, max) <= if Dispatchable(t, o) then max else 0
  {
  }

  lemma {:induction false} PostsAreAttempts(t: Tables, h: Hcm, ids: seq<nat>, scripts: seq<seq<Delivery>>, max: nat,
      o: nat)
    requires Sound(t) && o < |t.outbox|
    ensures var t' := DispatchAll(t, h, ids, scripts, max).0;
            && Sound(t') && SameCommand(t.outbox, t'.outbox, o)
            && PostsFor(t, h, ids, scripts, max, o) <= max * (t'.outbox[o].attempts - t.outbox[o].attempts)
    decreases |ids|
  {
    hide DispatchOne, PostsOfOne;
    if ids != [] {
      var (t', h') := DispatchOne(t, h, ids[0], Script(scripts), max);
      if Dispatchable(t, ids[0]) {
        DispatchOneRows(t, h, ids[0], Script(scripts), max);
      } else {
        DispatchNothing(t, h, ids[0], Script(scripts), max);
      }
      PostsAtMost(t, h, o, Script(scripts), max);
      var tried := t'.outbox[o].attempts - t.outbox[o].attempts;
      assert tried == if ids[0] == o && Dispatchable(t, o) then 1 else 0;
      assert max * tried == if tried == 1 then max else 0;
      PostsAreAttempts(t', h', ids[1..], Later(scripts), max, o);
      var end := DispatchAll(t', h', ids[1..], Later(scripts), max).0.outbox[o].attempts;
      assert max * (end - t'.outbox[o].attempts) + max * (t'.outbox[o].attempts - t.outbox[o].attempts)
          == max * (end - t.outbox[o].attempts);
    }
  }

  lemma {:induction false} TicksArePosts(t: Tables, h: Hcm, plans: seq<seq<seq<Delivery>>>, max: nat, o: nat)
    requires Sound(t) && o < |t.outbox|
    ensures var t' := Ticks(t, h, plans, max).0;
            && SameCommand(t.outbox, t'.outbox, o)
            && PostsInTicks(t, h, plans, max, o) <= max * (t'.outbox[o].attempts - t.outbox[o].attempts)
    decreases |plans|
  {
    hide DispatchAll, PostsFor;
    if plans != [] {
      PostsAreAttempts(t, h, QueuedIds(t.outbox), plans[0], max, o);
      var (t', h') := Tick(t, h, plans[0], max);
      TicksArePosts(t', h', plans[1..], max, o);
      var end := Ticks(t', h', plans[1..], max).0.outbox[o].attempts;
      assert max * (end - t'.outbox[o].attempts) + max * (t'.outbox[o].attempts - t.outbox[o].attempts)
          == max * (end - t.outbox[o].attempts);
    }
  }

  // However long the dispatcher runs, one row costs at most max * max posts, all of the same command.
  lemma PostsPerRow(t: Tables, h: Hcm, plans: seq<seq<seq<Delivery>>>, max: nat, o: nat)
    requires Sound(t) && WithinBudget(t.outbox, max) && o < |t.outbox|
    ensures PostsInTicks(t, h, plans, max, o) <= max * max
    ensures SameCommand(t.outbox, Ticks(t, h, plans, max).0.outbox, o)
  {
    hide Ticks, PostsInTicks;
    TicksKeepBudget(t, h, plans, max);
    TicksArePosts(t, h, plans, max, o);
    MoreTimes(max, Ticks(t, h, plans, max).0.outbox[o].attempts - t.outbox[o].attempts);
  }

  lemma MoreTimes(max: nat, n: int)
    requires n <= max
    ensures max * n <= max * max
  {
  }

  // ---- Nothing is left ------------------------------------------------------------------------------------

  // However HCM and the wire behave, `max` ticks settle every FILE row (and so every PENDING_SYNC request) and
  // as many again leave nothing to dispatch. With max = 0 one tick does what `max` ticks do otherwise.
  lemma FilesSettle(s: State, plans: seq<seq<seq<Delivery>>>)
    requires Inv(s) && s.sections == map[]
    requires |plans| >= s.config.maxAttempts && plans != []
    ensures var s' := Quiet(s, Ticks(s.t, s.hcm, plans, s.config.maxAttempts));
            && Inv(s') && NoneQueued(s'.t.outbox, File)
            && forall i :: 0 <= i < |s'.t.requests| ==> s'.t.requests[i].status != PendingSync
  {
    hide Ticks, Run, BooksOk, WarmOk, LandedOk, HcmKeysOk, SectionsOk;
    var steps := TicksAreARun(s, plans);
    RunKeepsInv(s, steps);
    TicksRaise(s.t, s.hcm, plans, s.config.maxAttempts, File, 0);
    var s' := Quiet(s, Ticks(s.t, s.hcm, plans, s.config.maxAttempts));
    forall i | 0 <= i < |s'.t.requests| ensures s'.t.requests[i].status != PendingSync {
      assert Coupled(ViewOf(s', i), i);
      if s'.t.requests[i].status == PendingSync {
        var o := ListedRowIsStored(s'.t.outbox, i, 0);
      }
    }
  }

  lemma {:induction false} NothingQueued(outbox: seq<OutboxRow>)
    requires NoneQueued(outbox, File) && NoneQueued(outbox, Reverse)
    ensures QueuedIds(outbox) == []
  {
    if outbox != [] {
      var n := |outbox| - 1;
      NothingQueued(outbox[..n]);
      assert outbox[n].operation == File || outbox[n].operation == Reverse;
    }
  }

  lemma TicksEmptyTheOutbox(s: State, plans: seq<seq<seq<Delivery>>>)
    requires Inv(s) && s.sections == map[]
    requires |plans| >= 2 * s.config.maxAttempts && |plans| >= 2
    ensures var t' := Ticks(s.t, s.hcm, plans, s.config.maxAttempts).0;
            NoneQueued(t'.outbox, File) && NoneQueued(t'.outbox, Reverse)
  {
    hide Ticks, BooksOk, WarmOk, LandedOk, HcmKeysOk, SectionsOk, RequestsOk;
    var max := s.config.maxAttempts;
    var half := |plans| / 2;
    var a, b := plans[..half], plans[half..];
    assert plans == a + b;
    TicksSplit(s.t, s.hcm, a, b, max);
    var (t', h') := Ticks(s.t, s.hcm, a, max);
    TicksRaise(s.t, s.hcm, a, max, File, 0);
    TicksRaise(t', h', b, max, Reverse, 0);
  }

  lemma NothingLeftToDispatch(s: State, plans: seq<seq<seq<Delivery>>>)
    requires Inv(s) && s.sections == map[]
    requires |plans| >= 2 * s.config.maxAttempts && |plans| >= 2
    ensures QueuedIds(Ticks(s.t, s.hcm, plans, s.config.maxAttempts).0.outbox) == []
  {
    hide Ticks, Inv;
    TicksEmptyTheOutbox(s, plans);
    NothingQueued(Ticks(s.t, s.hcm, plans, s.config.maxAttempts).0.outbox);
  }
}
