// The HCM's balance store and idempotency store (src/mock-hcm/hcm.controller.ts).
//
// `effects` is the model's own record: the instant at which a key moved a balance. The source has no such
// field; the laws that relate the HCM balance to what was filed are stated with it.
module MockHcm {
  import opened Entities

  // The stored result of a key: `{ok: true, ackedAt}` or `{ok: false, ackedAt: ''}`.
  datatype Answer = Acked(at: int) | Refused

  // `reverseNeedsFile` tells the contract (hcm.types.ts:66, a reverse of a FILE that never landed moves
  // nothing) from the mock (hcm.controller.ts:215-216, it credits the days all the same).
  datatype Hcm = Hcm(
    balances: map<BalanceKey, int>,
    answers: map<HcmKey, Answer>,
    effects: map<HcmKey, int>,
    reverseNeedsFile: bool)

  function BalanceAt(h: Hcm, k: BalanceKey): int {
    if k in h.balances then h.balances[k] else 0
  }

  // GET /hcm/balance provisions a zero entry.
  function Provision(h: Hcm, k: BalanceKey): Hcm {
    if k in h.balances then h else h.(balances := h.balances[k := 0])
  }

  function Remember(h: Hcm, key: HcmKey, a: Answer): Hcm {
    h.(answers := h.answers[key := a])
  }

  function Move(h: Hcm, c: Command, delta: int, at: int): Hcm
    requires c.key in h.balances
  {
    Remember(h, c.idempotencyKey, Acked(at))
      .(balances := h.balances[c.key := h.balances[c.key] + delta],
        effects := h.effects[c.idempotencyKey := at])
  }

  // POST /hcm/timeoff, scenario `correct`, or `silent-insufficient` when `silent`.
  function FilePost(h: Hcm, c: Command, at: int, silent: bool): (Hcm, Answer) {
    if c.idempotencyKey in h.answers then (h, h.answers[c.idempotencyKey])
    else if silent then (Remember(h, c.idempotencyKey, Acked(at)), Acked(at))
    else if c.key !in h.balances || h.balances[c.key] < c.days then
      (Remember(h, c.idempotencyKey, Answer.Refused), Answer.Refused)
    else (Move(h, c, 0 - c.days, at), Acked(at))
  }

  predicate MovesOnReverse(h: Hcm, c: Command) {
    && c.key in h.balances
    && (h.reverseNeedsFile ==> HcmKey(c.idempotencyKey.request, File) in h.effects)
  }

  // POST /hcm/timeoff/reverse
  function ReversePost(h: Hcm, c: Command, at: int): (Hcm, Answer) {
    if c.idempotencyKey in h.answers then (h, h.answers[c.idempotencyKey])
    else if MovesOnReverse(h, c) then (Move(h, c, c.days, at), Acked(at))
    else (Remember(h, c.idempotencyKey, Acked(at)), Acked(at))
  }

  datatype Scenario = Correct | SilentInsufficient | Timeout

  // What a POST comes back with: a stored answer, or 503.
  datatype HttpReply = Ok(answer: Answer) | Unavailable

  // The controller over its two module-level maps.
  class HcmController {
    var balanceStore: map<BalanceKey, int>
    var idempotencyStore: map<HcmKey, Answer>
    var scenario: Scenario
    ghost var effects: map<HcmKey, int>

    constructor (balances: map<BalanceKey, int>)
      ensures State() == Hcm(balances, map[], map[], false) && scenario == Correct
    {
      balanceStore, idempotencyStore, scenario, effects := balances, map[], Correct, map[];
    }

    ghost function State(): Hcm
      reads this
    {
      Hcm(balanceStore, idempotencyStore, effects, false)
    }

    method FileTimeOff(c: Command, now: int) returns (r: HttpReply)
      modifies this`balanceStore, this`idempotencyStore, this`effects
      ensures scenario == Timeout ==> r == Unavailable && State() == old(State())
      ensures scenario != Timeout && c.idempotencyKey in old(idempotencyStore) ==>
                r == Ok(old(idempotencyStore)[c.idempotencyKey]) && State() == old(State())
      ensures scenario == Correct && c.idempotencyKey !in old(idempotencyStore) ==>
                if c.key in old(balanceStore) && c.days <= old(balanceStore)[c.key] then
                  && r == Ok(Acked(now))
                  && balanceStore == old(balanceStore)[c.key := old(balanceStore)[c.key] - c.days]
                  && idempotencyStore == old(idempotencyStore)[c.idempotencyKey := Acked(now)]
                else
                  && r == Ok(Answer.Refused) && balanceStore == old(balanceStore)
                  && idempotencyStore == old(idempotencyStore)[c.idempotencyKey := Answer.Refused]
      ensures scenario == SilentInsufficient && c.idempotencyKey !in old(idempotencyStore) ==>
                && r == Ok(Acked(now)) && balanceStore == old(balanceStore)
                && idempotencyStore == old(idempotencyStore)[c.idempotencyKey := Acked(now)]
      ensures scenario != Timeout ==>
                (State(), r) == (var (h, a) := FilePost(old(State()), c, now, scenario ==
                    SilentInsufficient); (h, Ok(a)))
    {
      if scenario == Timeout {
        return Unavailable;
      }
      if c.idempotencyKey in idempotencyStore {
        return Ok(idempotencyStore[c.idempotencyKey]);
      }
      if scenario == SilentInsufficient {
        idempotencyStore := idempotencyStore[c.idempotencyKey := Acked(now)];
        return Ok(Acked(now));
      }
      if c.key !in balanceStore {
        idempotencyStore := idempotencyStore[c.idempotencyKey := Answer.Refused];
        return Ok(Answer.Refused);
      }
      if balanceStore[c.key] < c.days {
        idempotencyStore := idempotencyStore[c.idempotencyKey := Answer.Refused];
        return Ok(Answer.Refused);
      }
      balanceStore := balanceStore[c.key := balanceStore[c.key] - c.days];
      effects := effects[c.idempotencyKey := now];
      idempotencyStore := idempotencyStore[c.idempotencyKey := Acked(now)];
      r := Ok(Acked(now));
    }

    method ReverseTimeOff(c: Command, now: int) returns (r: HttpReply)
      modifies this`balanceStore, this`idempotencyStore, this`effects
      ensures scenario == Timeout ==> r == Unavailable && State() == old(State())
      ensures scenario != Timeout && c.idempotencyKey in old(idempotencyStore) ==>
                r == Ok(old(idempotencyStore)[c.idempotencyKey]) && State() == old(State())
      ensures scenario != Timeout && c.idempotencyKey !in old(idempotencyStore) ==>
                && r == Ok(Acked(now))
                && idempotencyStore == old(idempotencyStore)[c.idempotencyKey := Acked(now)]
                && balanceStore == if c.key in old(balanceStore)
                                   then old(balanceStore)[c.key := old(balanceStore)[c.key] + c.days]
                                   else old(balanceStore)
      ensures scenario != Timeout ==>
                (State(), r) == (var (h, a) := ReversePost(old(State()), c, now); (h, Ok(a)))
    {
      if scenario == Timeout {
        return Unavailable;
      }
      if c.idempotencyKey in idempotencyStore {
        return Ok(idempotencyStore[c.idempotencyKey]);
      }
      if c.key in balanceStore {
        balanceStore := balanceStore[c.key := balanceStore[c.key] + c.days];
        effects := effects[c.idempotencyKey := now];
      }
      idempotencyStore := idempotencyStore[c.idempotencyKey := Acked(now)];
      r := Ok(Acked(now));
    }

    method GetBalance(k: BalanceKey) returns (r: Option<int>)
      modifies this`balanceStore
      ensures r.None? <==> scenario == Timeout
      ensures r.Some? ==>
                && balanceStore == (if k in old(balanceStore) then old(balanceStore) else old(balanceStore)[k := 0])
                && r.value == balanceStore[k]
      ensures r.None? ==> State() == old(State())
      ensures r.Some? ==> State() == Provision(old(State()), k) && r.value == BalanceAt(old(State()), k)
    {
      if scenario == Timeout {
        return None;
      }
      if k !in balanceStore {
        balanceStore := balanceStore[k := 0];
      }
      r := Some(balanceStore[k]);
    }
  }

  // ---- Exactly once -------------------------------------------------------------------------------------

  // One POST on the wire; `timedOut` calls never reach the stores.
  datatype Call = Call(operation: Operation, command: Command, at: int, timedOut: bool)

  function Serve(h: Hcm, call: Call): (Hcm, Option<Answer>) {
    if call.timedOut then (h, None)
    else
      var (h', a) := if call.operation == File then FilePost(h, call.command, call.at, false)
                     else ReversePost(h, call.command, call.at);
      (h', Some(a))
  }

  function ServeAll(h: Hcm, calls: seq<Call>): Hcm
    decreases |calls|
  {
    if calls == [] then h else ServeAll(Serve(h, calls[0]).0, calls[1..])
  }

  function Answers(h: Hcm, calls: seq<Call>): (r: seq<Option<Answer>>)
    ensures |r| == |calls|
    decreases |calls|
  {
    if calls == [] then [] else [Serve(h, calls[0]).1] + Answers(Serve(h, calls[0]).0, calls[1..])
  }

  // The calls that get through with a key not seen before.
  function FirstPerKey(calls: seq<Call>, seen: set<HcmKey>): seq<Call> {
    if calls == [] then []
    else
      var key := calls[0].command.idempotencyKey;
      if calls[0].timedOut || key in seen then FirstPerKey(calls[1..], seen)
      else [calls[0]] + FirstPerKey(calls[1..], seen + {key})
  }

  // Timeouts and repeats leave no trace: the stores end as if each key had been posted once.
  lemma {:induction false} ExactlyOnce(h: Hcm, calls: seq<Call>)
    ensures ServeAll(h, calls) == ServeAll(h, FirstPerKey(calls, h.answers.Keys))
    decreases |calls|
  {
    if calls != [] {
      var key := calls[0].command.idempotencyKey;
      var h' := Serve(h, calls[0]).0;
      ExactlyOnce(h', calls[1..]);
      if !calls[0].timedOut && key !in h.answers {
        assert h'.answers.Keys == h.answers.Keys + {key};
        var rest := FirstPerKey(calls[1..], h'.answers.Keys);
        assert FirstPerKey(calls, h.answers.Keys) == [calls[0]] + rest;
        assert ([calls[0]] + rest)[1..] == rest;
      }
    }
  }

  // Once answered, a key keeps that answer.
  lemma {:induction false} AnswersStick(h: Hcm, calls: seq<Call>, key: HcmKey)
    requires key in h.answers
    ensures key in ServeAll(h, calls).answers && ServeAll(h, calls).answers[key] == h.answers[key]
    decreases |calls|
  {
    if calls != [] {
      AnswersStick(Serve(h, calls[0]).0, calls[1..], key);
    }
  }

  // Every call that gets through is told what the final store says about its key: all the posts of one key
  // hear one answer.
  lemma {:induction false} OneAnswerPerKey(h: Hcm, calls: seq<Call>, n: nat)
    requires n < |calls| && !calls[n].timedOut
    ensures calls[n].command.idempotencyKey in ServeAll(h, calls).answers
    ensures Answers(h, calls)[n] == Some(ServeAll(h, calls).answers[calls[n].command.idempotencyKey])
    decreases |calls|
  {
    var h' := Serve(h, calls[0]).0;
    if n == 0 {
      AnswersStick(h', calls[1..], calls[0].command.idempotencyKey);
    } else {
      OneAnswerPerKey(h', calls[1..], n - 1);
    }
  }

  // No sequence of calls overdraws a balance.
  lemma {:induction false} NeverOverdrawn(h: Hcm, calls: seq<Call>, k: BalanceKey)
    requires BalanceAt(h, k) >= 0
    ensures BalanceAt(ServeAll(h, calls), k) >= 0
    decreases |calls|
  {
    if calls != [] {
      NeverOverdrawn(Serve(h, calls[0]).0, calls[1..], k);
    }
  }
}
