// One call of the dispatcher: up to `budget` posts of one command through the retry loop of HcmClient against
// the stores of MockHcm, over a wire that may lose a post or its answer.
module HcmCall {
  import opened Entities
  import opened MockHcm
  import opened HcmClient

  // What becomes of one post: it never arrives, or it is applied at `at` and its answer arrives or is lost.
  datatype Delivery = Undelivered | Delivered(at: int, silent: bool, answerLost: bool)

  function Post(h: Hcm, c: Command, op: Operation, at: int, silent: bool): (Hcm, Answer) {
    if op == File then FilePost(h, c, at, silent) else ReversePost(h, c, at)
  }

  function Next(script: seq<Delivery>): Delivery {
    if script == [] then Undelivered else script[0]
  }

  function Rest(script: seq<Delivery>): seq<Delivery> {
    if script == [] then [] else script[1..]
  }

  // fileTimeOff / reverseTimeOff: the HCM afterwards, and the acknowledgement instant if the call is ok. A
  // script that runs out leaves the remaining posts undelivered.
  function Send(h: Hcm, c: Command, op: Operation, script: seq<Delivery>, budget: nat): (Hcm, Option<int>)
    decreases budget
  {
    if budget == 0 then (h, None)
    else
      match Next(script)
      case Undelivered => Send(h, c, op, Rest(script), budget - 1)
      case Delivered(at, silent, answerLost) =>
        var (h', a) := Post(h, c, op, at, silent);
        if answerLost then Send(h', c, op, Rest(script), budget - 1)
        else (h', match a case Acked(acked) => Some(acked) case Refused => None)
  }

  // ---- The call is the client's retry loop over the HCM's replies ----------------------------------------

  // The HCM after the first n posts of a client that never stops.
  function AfterPosts(h: Hcm, c: Command, op: Operation, script: seq<Delivery>, n: nat): Hcm
    decreases n
  {
    if n == 0 then h else AfterPosts(Arrive(h, c, op, Next(script)), c, op, Rest(script), n - 1)
  }

  function Arrive(h: Hcm, c: Command, op: Operation, d: Delivery): Hcm {
    if d.Delivered? then Post(h, c, op, d.at, d.silent).0 else h
  }

  function ResponseTo(h: Hcm, c: Command, op: Operation, d: Delivery): Response {
    match d
    case Undelivered => NoResponse(None)
    case Delivered(at, silent, answerLost) =>
      if answerLost then NoResponse(None)
      else
        match Post(h, c, op, at, silent).1
        case Acked(acked) => Body(Some(true), Some(acked), None)
        case Refused => Body(Some(false), None, None)
  }

  // What the tries of such a client come back with.
  function Wire(h: Hcm, c: Command, op: Operation, script: seq<Delivery>): seq<Response>
    decreases |script|
  {
    if script == [] then []
    else [ResponseTo(h, c, op, script[0])] + Wire(Arrive(h, c, op, script[0]), c, op, script[1..])
  }

  function Outcome(r: PostResult): Option<int> {
    match r
    case Acknowledged(at) => Some(at)
    case NotOk(_) => None
  }

  lemma VerdictOfRest(wire: seq<Response>, max: nat, now: int)
    requires max > 0 && Retryable(At(wire, 0))
    ensures Outcome(Verdict(wire, max, now)) == Outcome(Verdict(From(wire, 1), max - 1, now))
    ensures Posts(wire, max) == Posts(From(wire, 1), max - 1) + 1
  {
    var rest := Decisive(From(wire, 1), max - 1);
    assert At(From(wire, 1), rest) == At(wire, rest + 1);
  }

  lemma VerdictAtOnce(wire: seq<Response>, max: nat, now: int)
    requires max == 0 || !Retryable(At(wire, 0))
    ensures Posts(wire, max) == if max == 0 then 0 else 1
    ensures Outcome(Verdict(wire, max, now))
         == if max > 0 && Success(At(wire, 0)) then Some(OrElse(At(wire, 0).ackedAt, now)) else None
  {
  }

  // Send tells the dispatcher exactly what PostWithRetry returns on this wire, and leaves the HCM as the posts
  // made so far left it.
  lemma {:induction false} SendIsPostWithRetry(
      h: Hcm, c: Command, op: Operation, script: seq<Delivery>, budget: nat, now: int)
    ensures Send(h, c, op, script, budget).1 == Outcome(Verdict(Wire(h, c, op, script), budget, now))
    ensures Send(h, c, op, script, budget).0
         == AfterPosts(h, c, op, script, Posts(Wire(h, c, op, script), budget))
    decreases budget
  {
    hide FilePost, ReversePost, Verdict, Decisive, Posts;
    var wire := Wire(h, c, op, script);
    if budget > 0 {
      var d := Next(script);
      assert At(wire, 0) == ResponseTo(h, c, op, d);
      var h' := Arrive(h, c, op, d);
      assert From(wire, 1) == Wire(h', c, op, Rest(script));
      if d == Undelivered || d.answerLost {
        VerdictOfRest(wire, budget, now);
        SendIsPostWithRetry(h', c, op, Rest(script), budget - 1, now);
      } else {
        VerdictAtOnce(wire, budget, now);
        assert AfterPosts(h', c, op, Rest(script), 0) == h';
      }
    } else {
      VerdictAtOnce(wire, budget, now);
    }
  }

  // An answer that arrives ends the call, a refusal as well: nothing more is posted.
  lemma AnswerEndsCall(h: Hcm, c: Command, op: Operation, script: seq<Delivery>, budget: nat)
    requires budget >= 1 && script != [] && script[0].Delivered? && !script[0].answerLost
    ensures Send(h, c, op, script, budget)
         == (var (h', a) := Post(h, c, op, script[0].at, script[0].silent);
             (h', if a == Answer.Refused then None else Some(a.at)))
  {
  }

  // ---- What a call can do to the HCM --------------------------------------------------------------------

  // Some post within the budget reaches HCM.
  predicate Arrives(script: seq<Delivery>, budget: nat) {
    exists n :: 0 <= n < |script| && n < budget && script[n].Delivered?
  }

  lemma ArrivesLater(script: seq<Delivery>, budget: nat)
    requires budget > 0 && Next(script) == Undelivered
    ensures Arrives(script, budget) <==> Arrives(Rest(script), budget - 1)
  {
    if Arrives(script, budget) {
      var n :| 0 <= n < |script| && n < budget && script[n].Delivered?;
      assert Rest(script)[n - 1] == script[n];
    }
    if Arrives(Rest(script), budget - 1) {
      var n :| 0 <= n < |Rest(script)| && n < budget - 1 && Rest(script)[n].Delivered?;
      assert script[n + 1] == Rest(script)[n];
    }
  }

  // The HCM is as it was, or, exactly when a post arrives, as after one post at the instant `at`.
  lemma {:induction false} SendIsOnePost(h: Hcm, c: Command, op: Operation, script: seq<Delivery>, budget: nat)
      returns (at: int, silent: bool)
    ensures !Arrives(script, budget) ==> Send(h, c, op, script, budget) == (h, None)
    ensures Arrives(script, budget) ==>
              && Send(h, c, op, script, budget).0 == Post(h, c, op, at, silent).0
              && Delivered(at, silent, true) in Heard(script)
    ensures Arrives(script, budget) && Send(h, c, op, script, budget).1.Some? ==>
              Post(h, c, op, at, silent).1 == Acked(Send(h, c, op, script, budget).1.value)
    decreases budget
  {
    at, silent := 0, false;
    if budget > 0 {
      HeardRest(script);
      match Next(script)
      case Undelivered =>
        ArrivesLater(script, budget);
        at, silent := SendIsOnePost(h, c, op, Rest(script), budget - 1);
      case Delivered(at0, silent0, answerLost) =>
        var (h', a) := Post(h, c, op, at0, silent0);
        assert script[0].Delivered?;
        at, silent := at0, silent0;
        if answerLost {
          var _, _ := SendIsOnePost(h', c, op, Rest(script), budget - 1);
        }
    }
  }

  // The deliveries of a script, without whether their answers came back.
  function Heard(script: seq<Delivery>): set<Delivery> {
    set d | d in script && d.Delivered? :: Delivered(d.at, d.silent, true)
  }

  lemma HeardRest(script: seq<Delivery>)
    ensures Heard(Rest(script)) <= Heard(script)
    ensures Next(script).Delivered? ==> Delivered(Next(script).at, Next(script).silent, true) in Heard(script)
  {
    if script != [] {
      assert script[0] in script;
      assert forall d :: d in script[1..] ==> d in script;
    }
  }
}
