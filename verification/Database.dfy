// What the services share: the tables, and the HCM at the other end of the client.
module Database {
  import opened Entities
  import opened MockHcm
  import opened HcmCall
  import opened Machine

  class Database {
    var requests: seq<Request>
    var outbox: seq<OutboxRow>
    var balances: map<BalanceKey, Balance>
    var events: seq<ReconEvent>
    var batchLog: seq<BatchLogEntry>

    constructor ()
      ensures Contents() == Tables([], [], map[], [], [])
    {
      requests, outbox, balances, events, batchLog := [], [], map[], [], [];
    }

    function Contents(): Tables
      reads this
    {
      Tables(requests, outbox, balances, events, batchLog)
    }
  }

  // The client together with the HCM it talks to; a script says what the wire does to each post.
  class HcmGateway {
    var hcm: Hcm
    const maxAttempts: nat

    constructor (hcm: Hcm, maxAttempts: nat)
      ensures this.hcm == hcm && this.maxAttempts == maxAttempts
    {
      this.hcm, this.maxAttempts := hcm, maxAttempts;
    }

    // fileTimeOff and reverseTimeOff
    method Call(c: Command, op: Operation, script: seq<Delivery>) returns (result: Option<int>)
      modifies this
      ensures (hcm, result) == Send(old(hcm), c, op, script, maxAttempts)
    {
      var attempt, rest := 0, script;
      while attempt < maxAttempts
        invariant 0 <= attempt <= maxAttempts
        invariant Send(old(hcm), c, op, script, maxAttempts) == Send(hcm, c, op, rest, maxAttempts - attempt)
      {
        var delivery := Next(rest);
        if delivery.Delivered? {
          var (after, answer) := Post(hcm, c, op, delivery.at, delivery.silent);
          hcm := after;
          if !delivery.answerLost {
            match answer
            case Acked(at) => return Some(at);
            case Refused => return None;
          }
        }
        rest := Rest(rest);
        attempt := attempt + 1;
      }
      result := None;
    }

    // GET /hcm/balance, one try
    method GetBalance(k: BalanceKey, refresh: Refresh) returns (snapshot: Option<(int, int)>)
      modifies this
      ensures refresh.Unreachable? ==> snapshot == None && hcm == old(hcm)
      ensures refresh.Reached? ==>
          snapshot == Some((BalanceAt(old(hcm), k), refresh.asOf)) && hcm == Provision(old(hcm), k)
    {
      match refresh
      case Unreachable => snapshot := None;
      case Reached(asOf) =>
        hcm := Provision(hcm, k);
        snapshot := Some((hcm.balances[k], asOf));
    }
  }
}
