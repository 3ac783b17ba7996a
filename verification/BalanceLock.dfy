// The per-key lock built from a chain of promises (src/common/lock/balance-lock.service.ts).
//
// JavaScript runs the code between two awaits without interruption, so `runExclusive` is three steps: register
// in the chain, enter once the previous promise has resolved, and the `finally` block, which runs whether `fn`
// returned or threw. A promise is named by its ticket, the position of the caller that made it.
module BalanceLock {
  import opened Entities

  datatype Phase = Waiting | Inside | Done

  // `prev` is the promise this caller awaits, None for Promise.resolve(). `parent` is the caller from inside
  // whose `fn` this call is made and awaited.
  datatype Caller = Caller(key: string, prev: Option<nat>, phase: Phase, parent: Option<nat>)

  datatype Lock = Lock(callers: seq<Caller>, chains: map<string, nat>)

  datatype Step = Register(key: string, parent: Option<nat>) | Enter(ticket: nat) | Exit(ticket: nat)

  predicate IsDone(l: Lock, t: nat) {
    t < |l.callers| && l.callers[t].phase == Done
  }

  predicate AwaitedByParent(l: Lock, t: nat) {
    forall u :: 0 <= u < |l.callers| && l.callers[u].parent == Some(t) ==> l.callers[u].phase == Done
  }

  predicate Enabled(l: Lock, step: Step) {
    match step
    case Register(_, None) => true
    case Register(_, Some(p)) => p < |l.callers| && l.callers[p].phase == Inside
    case Enter(t) =>
      && t < |l.callers| && l.callers[t].phase == Waiting
      && (l.callers[t].prev.Some? ==> IsDone(l, l.callers[t].prev.value))
    case Exit(t) => t < |l.callers| && l.callers[t].phase == Inside && AwaitedByParent(l, t)
  }

  function Tail(l: Lock, key: string): Option<nat> {
    if key in l.chains then Some(l.chains[key]) else None
  }

  function SetPhase(l: Lock, t: nat, phase: Phase): Lock
    requires t < |l.callers|
  {
    l.(callers := l.callers[t := l.callers[t].(phase := phase)])
  }

  // A step that is not enabled does nothing, so every sequence of steps is a run.
  function Apply(l: Lock, step: Step): Lock {
    if !Enabled(l, step) then l
    else
      match step
      case Register(key, parent) =>
        Lock(l.callers + [Caller(key, Tail(l, key), Waiting, parent)], l.chains[key := |l.callers|])
      case Enter(t) => SetPhase(l, t, Inside)
      case Exit(t) =>
        var key := l.callers[t].key;
        SetPhase(l, t, Done).(chains := if Tail(l, key) == Some(t) then l.chains - {key} else l.chains)
  }

  function Run(l: Lock, steps: seq<Step>): Lock
    decreases |steps|
  {
    if steps == [] then l else Run(Apply(l, steps[0]), steps[1..])
  }

  const IDLE := Lock([], map[])

  // The service over its one map. `callers` records the async frames: who awaits what and how far each came.
  class BalanceLockService {
    var chains: map<string, nat>
    var nextTicket: nat
    ghost var callers: seq<Caller>

    ghost predicate Valid()
      reads this
    {
      nextTicket == |callers|
    }

    ghost function State(): Lock
      reads this
    {
      Lock(callers, chains)
    }

    constructor ()
      ensures Valid() && State() == IDLE
    {
      chains, nextTicket, callers := map[], 0, [];
    }

    // Up to `await prev`.
    method Begin(key: string, ghost parent: Option<nat>) returns (prev: Option<nat>, myTurn: nat)
      requires Valid() && Enabled(State(), Register(key, parent))
      modifies this
      ensures Valid() && State() == Apply(old(State()), Register(key, parent))
      ensures prev == Tail(old(State()), key) && myTurn == |old(callers)|
      ensures callers[myTurn] == Caller(key, prev, Waiting, parent)
    {
      prev := if key in chains then Some(chains[key]) else None;
      myTurn := nextTicket;
      nextTicket := nextTicket + 1;
      callers := callers + [Caller(key, prev, Waiting, parent)];
      chains := chains[key := myTurn];
    }

    // `prev` has resolved: the critical section begins.
    ghost method Admit(myTurn: nat)
      requires Valid() && Enabled(State(), Enter(myTurn))
      modifies this`callers
      ensures Valid() && State() == Apply(old(State()), Enter(myTurn))
    {
      callers := callers[myTurn := callers[myTurn].(phase := Inside)];
    }

    // The finally block.
    method Finally(key: string, myTurn: nat)
      requires Valid() && Enabled(State(), Exit(myTurn)) && callers[myTurn].key == key
      modifies this`chains, this`callers
      ensures Valid() && State() == Apply(old(State()), Exit(myTurn))
    {
      if key in chains && chains[key] == myTurn {
        chains := chains - {key};
      }
      callers := callers[myTurn := callers[myTurn].(phase := Done)];
    }
  }

  // ---- What every reachable state keeps -----------------------------------------------------------------

  ghost predicate AheadDone(l: Lock, t: nat)
    requires t < |l.callers|
  {
    forall u :: 0 <= u < t && l.callers[u].key == l.callers[t].key ==> l.callers[u].phase == Done
  }

  // A caller awaits the last caller of its key before it, or nobody when all of those were done.
  ghost predicate AwaitsLast(l: Lock, t: nat)
    requires t < |l.callers|
  {
    match l.callers[t].prev
    case None => AheadDone(l, t)
    case Some(p) =>
      && p < t && l.callers[p].key == l.callers[t].key
      && forall u :: p < u < t ==> l.callers[u].key != l.callers[t].key
  }

  ghost predicate TailIsLast(l: Lock, key: string) {
    match Tail(l, key)
    case None => forall u :: 0 <= u < |l.callers| && l.callers[u].key == key ==> l.callers[u].phase == Done
    case Some(t) =>
      && t < |l.callers| && l.callers[t].key == key && l.callers[t].phase != Done
      && forall u :: t < u < |l.callers| ==> l.callers[u].key != key
  }

  ghost predicate Inv(l: Lock) {
    && (forall t :: 0 <= t < |l.callers| ==> AwaitsLast(l, t))
    && (forall t :: 0 <= t < |l.callers| && l.callers[t].phase != Waiting ==> AheadDone(l, t))
    && (forall key :: TailIsLast(l, key))
  }

  // The promise a caller awaits resolves exactly when everyone ahead of it on its key is done.
  lemma AdmittedIffAheadDone(l: Lock, t: nat)
    requires Inv(l) && t < |l.callers| && l.callers[t].phase == Waiting
    ensures Enabled(l, Enter(t)) <==> AheadDone(l, t)
  {
    assert AwaitsLast(l, t);
    if Enabled(l, Enter(t)) && l.callers[t].prev.Some? {
      var p := l.callers[t].prev.value;
      assert AheadDone(l, p);
    }
  }

  lemma RegisterKeepsInv(l: Lock, key: string, parent: Option<nat>)
    requires Inv(l) && Enabled(l, Register(key, parent))
    ensures Inv(Apply(l, Register(key, parent)))
  {
    var l' := Apply(l, Register(key, parent));
    var n := |l.callers|;
    assert forall t :: 0 <= t < n ==> l'.callers[t] == l.callers[t];
    forall t | 0 <= t < |l'.callers| ensures AwaitsLast(l', t) {
      if t < n {
        assert AwaitsLast(l, t);
      } else {
        assert TailIsLast(l, key);
      }
    }
    forall t | 0 <= t < |l'.callers| && l'.callers[t].phase != Waiting ensures AheadDone(l', t) {
      assert AheadDone(l, t);
    }
    forall other ensures TailIsLast(l', other) {
      assert TailIsLast(l, other);
    }
  }

  lemma EnterKeepsInv(l: Lock, t: nat)
    requires Inv(l) && Enabled(l, Enter(t))
    ensures Inv(Apply(l, Enter(t)))
  {
    AdmittedIffAheadDone(l, t);
    var l' := Apply(l, Enter(t));
    forall u | 0 <= u < |l'.callers| ensures AwaitsLast(l', u) {
      assert AwaitsLast(l, u);
    }
    forall u | 0 <= u < |l'.callers| && l'.callers[u].phase != Waiting ensures AheadDone(l', u) {
      assert AheadDone(l, u);
    }
    forall key ensures TailIsLast(l', key) {
      assert TailIsLast(l, key);
    }
  }

  lemma ExitKeepsInv(l: Lock, t: nat)
    requires Inv(l) && Enabled(l, Exit(t))
    ensures Inv(Apply(l, Exit(t)))
  {
    var l' := Apply(l, Exit(t));
    assert AheadDone(l, t);
    forall u | 0 <= u < |l'.callers| ensures AwaitsLast(l', u) {
      assert AwaitsLast(l, u);
    }
    forall u | 0 <= u < |l'.callers| && l'.callers[u].phase != Waiting ensures AheadDone(l', u) {
      assert AheadDone(l, u);
    }
    forall key ensures TailIsLast(l', key) {
      assert TailIsLast(l, key);
    }
  }

  lemma {:induction false} ReachableInv(l: Lock, steps: seq<Step>)
    requires Inv(l)
    ensures Inv(Run(l, steps))
    decreases |steps|
  {
    hide Inv;
    if steps != [] {
      if Enabled(l, steps[0]) {
        match steps[0]
        case Register(key, parent) => RegisterKeepsInv(l, key, parent);
        case Enter(t) => EnterKeepsInv(l, t);
        case Exit(t) => ExitKeepsInv(l, t);
      }
      ReachableInv(Apply(l, steps[0]), steps[1..]);
    }
  }

  lemma IdleInv()
    ensures Inv(IDLE)
  {
  }

  // ---- Mutual exclusion, order, and the map ---------------------------------------------------------------

  // Under every interleaving, whoever has entered has nobody of its key unfinished before it: entries are one
  // at a time and in registration order.
  lemma OneAtATimeInOrder(steps: seq<Step>, t: nat, u: nat)
    requires var l := Run(IDLE, steps);
             t < u < |l.callers| && l.callers[t].key == l.callers[u].key && l.callers[u].phase != Waiting
    ensures Run(IDLE, steps).callers[t].phase == Done
  {
    IdleInv();
    ReachableInv(IDLE, steps);
    assert AheadDone(Run(IDLE, steps), u);
  }

  lemma MutualExclusion(steps: seq<Step>, t: nat, u: nat)
    requires var l := Run(IDLE, steps);
             && t < |l.callers| && u < |l.callers| && l.callers[t].key == l.callers[u].key
             && l.callers[t].phase == Inside && l.callers[u].phase == Inside
    ensures t == u
  {
    if t < u {
      OneAtATimeInOrder(steps, t, u);
    } else if u < t {
      OneAtATimeInOrder(steps, u, t);
    }
  }

  // The map holds a key exactly while somebody holds or waits for it.
  lemma KeyPresentIffInUse(steps: seq<Step>, key: string)
    ensures var l := Run(IDLE, steps);
            key in l.chains <==> exists t :: t in l.callers && t.key == key && t.phase != Done
  {
    IdleInv();
    ReachableInv(IDLE, steps);
    assert TailIsLast(Run(IDLE, steps), key);
  }

  // ---- Progress -------------------------------------------------------------------------------------------

  // The steps a caller still has to make.
  function WorkOf(c: Caller): nat {
    match c.phase
    case Waiting => 2
    case Inside => 1
    case Done => 0
  }

  function Work(callers: seq<Caller>, key: string): nat {
    if callers == [] then 0
    else
      var n := |callers| - 1;
      Work(callers[..n], key) + if callers[n].key == key then WorkOf(callers[n]) else 0
  }

  // What the callers before t on its key still have to do.
  function Ahead(l: Lock, t: nat): nat
    requires t < |l.callers|
  {
    Work(l.callers[..t], l.callers[t].key)
  }

  lemma {:induction false} WorkOfUpdate(callers: seq<Caller>, t: nat, c: Caller, key: string)
    requires t < |callers| && c.key == callers[t].key
    ensures Work(callers[t := c], key)
         == Work(callers, key) - if c.key == key then WorkOf(callers[t]) - WorkOf(c) else 0
  {
    var n := |callers| - 1;
    if t == n {
      assert callers[t := c][..n] == callers[..n];
    } else {
      assert callers[t := c][..n] == callers[..n][t := c];
      WorkOfUpdate(callers[..n], t, c, key);
    }
  }

  ghost predicate KeyDone(callers: seq<Caller>, key: string) {
    forall u :: 0 <= u < |callers| && callers[u].key == key ==> callers[u].phase == Done
  }

  lemma {:induction false} FirstUnfinished(callers: seq<Caller>, key: string) returns (t: nat)
    ensures Work(callers, key) > 0 ==>
              && t < |callers| && callers[t].key == key && callers[t].phase != Done
              && forall u :: 0 <= u < t && callers[u].key == key ==> callers[u].phase == Done
    ensures Work(callers, key) == 0 <==> KeyDone(callers, key)
  {
    if callers == [] {
      t := 0;
    } else {
      var n := |callers| - 1;
      t := FirstUnfinished(callers[..n], key);
      if Work(callers[..n], key) == 0 {
        t := n;
      }
    }
  }

  // The step is one that a caller before t on its key makes.
  predicate MovesAhead(l: Lock, step: Step, t: nat)
    requires t < |l.callers|
  {
    Enabled(l, step) && !step.Register? && step.ticket < t && l.callers[step.ticket].key == l.callers[t].key
  }

  lemma StepsAheadCount(l: Lock, step: Step, t: nat)
    requires t < |l.callers|
    ensures t < |Apply(l, step).callers| && Apply(l, step).callers[t].key == l.callers[t].key
    ensures Ahead(Apply(l, step), t) == Ahead(l, t) - if MovesAhead(l, step, t) then 1 else 0
  {
    var l' := Apply(l, step);
    if !Enabled(l, step) || step.Register? {
      assert l'.callers[..t] == l.callers[..t];
    } else {
      var u := step.ticket;
      var c := l.callers[u].(phase := if step.Enter? then Inside else Done);
      if u < t {
        assert l'.callers[..t] == l.callers[..t][u := c];
        WorkOfUpdate(l.callers[..t], u, c, l.callers[t].key);
      } else {
        assert l'.callers[..t] == l.callers[..t];
      }
    }
  }

  // How many of the run's steps the callers ahead of t make.
  function Moves(l: Lock, steps: seq<Step>, t: nat): nat
    requires t < |l.callers|
    decreases |steps|
  {
    if steps == [] then 0
    else
      StepsAheadCount(l, steps[0], t);
      (if MovesAhead(l, steps[0], t) then 1 else 0) + Moves(Apply(l, steps[0]), steps[1..], t)
  }

  lemma {:induction false} RunAheadCounts(l: Lock, steps: seq<Step>, t: nat)
    requires t < |l.callers|
    ensures t < |Run(l, steps).callers| && Run(l, steps).callers[t].key == l.callers[t].key
    ensures Ahead(Run(l, steps), t) == Ahead(l, t) - Moves(l, steps, t)
    decreases |steps|
  {
    hide Apply, MovesAhead, Ahead;
    if steps != [] {
      StepsAheadCount(l, steps[0], t);
      RunAheadCounts(Apply(l, steps[0]), steps[1..], t);
    }
  }

  // Over any run, with whoever registers meanwhile, nested or not, on this key or another: a caller that still
  // waits may enter exactly when the callers ahead of it have made all the steps they had to make.
  lemma AdmittedAfterExactly(l: Lock, steps: seq<Step>, t: nat)
    requires Inv(l) && t < |l.callers|
    requires t < |Run(l, steps).callers| && Run(l, steps).callers[t].phase == Waiting
    ensures Enabled(Run(l, steps), Enter(t)) <==> Moves(l, steps, t) == Ahead(l, t)
  {
    hide Run, Moves, Work;
    var end := Run(l, steps);
    ReachableInv(l, steps);
    RunAheadCounts(l, steps, t);
    AdmittedIffAheadDone(end, t);
    var _ := FirstUnfinished(end.callers[..t], end.callers[t].key);
    assert forall u :: 0 <= u < t ==> end.callers[..t][u] == end.callers[u];
  }

  // And until they have, one of them can move: the first unfinished one, unless it is inside and awaits a call of
  // its own. Whatever happens on other keys or behind t plays no part.
  lemma SomebodyAheadCanMove(l: Lock, t: nat) returns (step: Step)
    requires Inv(l) && t < |l.callers| && Ahead(l, t) > 0
    requires forall u :: 0 <= u < t && l.callers[u].key == l.callers[t].key ==> AwaitedByParent(l, u)
    ensures MovesAhead(l, step, t)
  {
    var u := FirstUnfinished(l.callers[..t], l.callers[t].key);
    assert l.callers[..t][u] == l.callers[u];
    assert forall w :: 0 <= w < u ==> l.callers[..t][w] == l.callers[w];
    if l.callers[u].phase == Waiting {
      AdmittedIffAheadDone(l, u);
      step := Enter(u);
    } else {
      step := Exit(u);
    }
  }

  // ---- Re-entry -------------------------------------------------------------------------------------------

  // `child` is a call on the key its caller `t` holds.
  ghost predicate Reentered(l: Lock, t: nat, child: nat) {
    && t < child < |l.callers|
    && l.callers[t].phase == Inside && l.callers[child].phase == Waiting
    && l.callers[child].parent == Some(t) && l.callers[child].key == l.callers[t].key
  }

  // The holder waits for the call, the call waits for the holder: neither moves again, nor does anyone who
  // comes to that key later.
  lemma {:induction false} ReentryIsForGood(l: Lock, steps: seq<Step>, t: nat, child: nat)
    requires Inv(l) && Reentered(l, t, child)
    ensures var l' := Run(l, steps);
            && Reentered(l', t, child)
            && forall u :: t < u < |l'.callers| && l'.callers[u].key == l'.callers[t].key ==>
                l'.callers[u].phase == Waiting
    decreases |steps|
  {
    if steps == [] {
      forall u | t < u < |l.callers| && l.callers[u].key == l.callers[t].key ensures l.callers[u].phase == Waiting {
        assert l.callers[u].phase != Waiting ==> AheadDone(l, u);
      }
    } else {
      ReentryStays(l, steps[0], t, child);
      ReachableInv(l, [steps[0]]);
      assert [steps[0]][1..] == [];
      assert Run(l, [steps[0]]) == Run(Apply(l, steps[0]), []);
      ReentryIsForGood(Apply(l, steps[0]), steps[1..], t, child);
    }
  }

  lemma ReentryStays(l: Lock, step: Step, t: nat, child: nat)
    requires Inv(l) && Reentered(l, t, child)
    ensures Reentered(Apply(l, step), t, child)
  {
    AdmittedIffAheadDone(l, child);
    assert !AheadDone(l, child);
    assert !AwaitedByParent(l, t);
  }

  // ---- What the lock is to its users ----------------------------------------------------------------------

  // `held` is who is inside, key by key: the shape in which module Machine keeps its critical sections.
  ghost predicate Represents(l: Lock, held: map<string, nat>) {
    && (forall key :: key in held ==>
          held[key] < |l.callers| && l.callers[held[key]].key == key && l.callers[held[key]].phase == Inside)
    && (forall t :: 0 <= t < |l.callers| && l.callers[t].phase == Inside ==>
          l.callers[t].key in held && held[l.callers[t].key] == t)
  }

  // Entering takes a key, the finally block frees it, and registering does neither.
  function HeldAfter(l: Lock, held: map<string, nat>, step: Step): map<string, nat> {
    if !Enabled(l, step) then held
    else
      match step
      case Register(_, _) => held
      case Enter(t) => held[l.callers[t].key := t]
      case Exit(t) => held - {l.callers[t].key}
  }

  lemma NobodyInsideAtEntry(l: Lock, t: nat)
    requires Inv(l) && Enabled(l, Enter(t))
    ensures forall u :: 0 <= u < |l.callers| && l.callers[u].key == l.callers[t].key ==> l.callers[u].phase != Inside
  {
    AdmittedIffAheadDone(l, t);
    forall u | t < u < |l.callers| && l.callers[u].key == l.callers[t].key ensures l.callers[u].phase == Waiting {
      assert l.callers[u].phase != Waiting ==> AheadDone(l, u);
    }
  }

  // Only a free key is ever entered, and only the holder frees it.
  lemma StepTakesOrFreesOneKey(l: Lock, held: map<string, nat>, step: Step)
    requires Inv(l) && Represents(l, held) && Enabled(l, step)
    ensures Represents(Apply(l, step), HeldAfter(l, held, step))
    ensures step.Enter? ==> l.callers[step.ticket].key !in held
    ensures step.Exit? ==> l.callers[step.ticket].key in held && held[l.callers[step.ticket].key] == step.ticket
  {
    var l' := Apply(l, step);
    match step
    case Register(key, parent) =>
      assert forall t :: 0 <= t < |l.callers| ==> l'.callers[t] == l.callers[t];
    case Enter(t) =>
      NobodyInsideAtEntry(l, t);
    case Exit(t) =>
  }

  function HeldAtEnd(l: Lock, held: map<string, nat>, steps: seq<Step>): map<string, nat>
    decreases |steps|
  {
    if steps == [] then held else HeldAtEnd(Apply(l, steps[0]), HeldAfter(l, held, steps[0]), steps[1..])
  }

  lemma {:induction false} RunTakesAndFrees(l: Lock, held: map<string, nat>, steps: seq<Step>)
    requires Inv(l) && Represents(l, held)
    ensures Represents(Run(l, steps), HeldAtEnd(l, held, steps))
    decreases |steps|
  {
    hide Inv, Apply, Represents, HeldAfter;
    if steps != [] {
      if Enabled(l, steps[0]) {
        StepTakesOrFreesOneKey(l, held, steps[0]);
      } else {
        NotEnabledDoesNothing(l, held, steps[0]);
      }
      ReachableInv(l, [steps[0]]);
      assert [steps[0]][1..] == [];
      assert Run(l, [steps[0]]) == Run(Apply(l, steps[0]), []);
      RunTakesAndFrees(Apply(l, steps[0]), HeldAfter(l, held, steps[0]), steps[1..]);
    }
  }

  // Every run of the promise chain is a run of a map with one holder per key: what the state machine takes for
  // granted when it enters a section only where there is none.
  lemma ChainIsOneHolderPerKey(steps: seq<Step>)
    ensures Represents(Run(IDLE, steps), HeldAtEnd(IDLE, map[], steps))
  {
    IdleInv();
    RunTakesAndFrees(IDLE, map[], steps);
  }

  lemma NotEnabledDoesNothing(l: Lock, held: map<string, nat>, step: Step)
    requires !Enabled(l, step)
    ensures Apply(l, step) == l && HeldAfter(l, held, step) == held
  {
  }
}
