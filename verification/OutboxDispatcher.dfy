// OutboxDispatcherService (src/hcm/outbox-dispatcher.service.ts) on the tables and the HCM behind the client.
module OutboxDispatcher {
  import opened Entities
  import opened HcmCall
  import opened Lifecycle
  import opened Database
  import opened Balances
  import opened Dispatch
  import opened DispatchOrder
  import Invariant

  class OutboxDispatcherService {
    const db: Database
    const client: HcmGateway
    const balances: BalanceService

    constructor (balances: BalanceService)
      ensures this.balances == balances && Valid()
    {
      this.balances, db, client := balances, balances.db, balances.client;
    }

    predicate Valid() {
      db == balances.db && client == balances.client
    }

    // Transaction 1.
    method Begin(o: nat) returns (captured: Option<(OutboxRow, Request)>)
      modifies db`outbox
      ensures (db.Contents(), captured) == BeginDispatch(old(db.Contents()), o)
    {
      if o >= |db.outbox| || db.outbox[o].status != Queued {
        return None;
      }
      var row := db.outbox[o];
      if row.aggregateId >= |db.requests| {
        db.outbox := db.outbox[o := row.(status := Failed)];
        return None;
      }
      row := row.(attempts := row.attempts + 1);
      db.outbox := db.outbox[o := row];
      captured := Some((row, db.requests[row.aggregateId]));
    }

    // Transaction 2. False is the exception of a violated UNIQUE(idempotencyKey), which rolls it back.
    method End(o: nat, row: OutboxRow, held: Request, result: Option<int>) returns (ok: bool)
      requires Valid() && o < |db.outbox| && row.aggregateId < |db.requests|
      modifies db
      ensures db.Contents() == EndDispatch(old(db.Contents()), o, row, held, result, client.maxAttempts)
      ensures !ok <==>
                && (result.Some? || (row.attempts >= client.maxAttempts && row.operation == File))
                && exists j :: 0 <= j < |old(db.requests)| && j != row.aggregateId
                     && old(db.requests)[j].idempotencyKey == held.idempotencyKey
    {
      var id := row.aggregateId;
      if result.Some? {
        if SaveClashes(db.requests, id, held) {
          return false;
        }
        var request := held.(hcmAckAt := result);
        if row.operation == File {
          request := request.(status := Approved);
        }
        db.outbox := db.outbox[o := row.(status := Sent)];
        db.requests := db.requests[id := request];
      } else if row.attempts < client.maxAttempts {
        db.outbox := db.outbox[o := row];
      } else if row.operation == File {
        if SaveClashes(db.requests, id, held) {
          return false;
        }
        balances.Restore(held.key, held.days);
        var request := held.(status := Rejected);
        var command := Command(request.key, request.days, request.startDay, request.endDay, HcmKey(id, Reverse));
        var reverse := OutboxRow(id, Reverse, command, Queued, 0);
        db.outbox := db.outbox[o := row.(status := Failed)];
        db.requests := db.requests[id := request];
        db.outbox := db.outbox + [reverse];
      } else {
        db.outbox := db.outbox[o := row.(status := Failed)];
      }
      ok := true;
    }

    // False when the exception of transaction 2 leaves the method.
    method DispatchOne(o: nat, script: seq<Delivery>) returns (ok: bool)
      requires Valid()
      modifies db, client
      ensures (db.Contents(), client.hcm) ==
          Dispatch.DispatchOne(old(db.Contents()), old(client.hcm), o, script, client.maxAttempts)
      ensures Invariant.KeysOk(old(db.requests)) ==> ok && Invariant.KeysOk(db.requests)
    {
      hide Send;
      if o >= |db.outbox| || db.outbox[o].status != Queued || db.outbox[o].aggregateId >= |db.requests| {
        return true;
      }
      var captured := Begin(o);
      var (row, held) := captured.value;
      var result := client.Call(row.payload, row.operation, script);
      ok := End(o, row, held, result);
    }

    // One tick. The exception of a row ends it for all later rows; while idempotency keys are unique there is
    // none.
    method DispatchPending(scripts: seq<seq<Delivery>>)
      requires Valid() && Invariant.KeysOk(db.requests)
      modifies db, client
      ensures (db.Contents(), client.hcm) == Tick(old(db.Contents()), old(client.hcm), scripts, client.maxAttempts)
      ensures Sound(old(db.Contents())) ==>
                forall o :: 0 <= o < |old(db.outbox)| && old(db.outbox)[o].status == Queued ==>
                  o < |db.outbox| && db.outbox[o].attempts == old(db.outbox)[o].attempts + 1
    {
      hide Dispatch.DispatchOne, Invariant.KeysOk;
      ghost var (before, hcm) := (db.Contents(), client.hcm);
      if Sound(before) {
        forall o: nat | o < |before.outbox| && before.outbox[o].status == Queued
          ensures var t' := Tick(before, hcm, scripts, client.maxAttempts).0;
                  o < |t'.outbox| && t'.outbox[o].attempts == before.outbox[o].attempts + 1
        {
          TickTriesEachQueuedRowOnce(before, hcm, scripts, client.maxAttempts, o);
        }
      }
      var pendingRows := QueuedIds(db.outbox);
      var rest, later := pendingRows, scripts;
      while rest != []
        invariant Invariant.KeysOk(db.requests)
        invariant DispatchAll(db.Contents(), client.hcm, rest, later, client.maxAttempts)
               == DispatchAll(old(db.Contents()), old(client.hcm), pendingRows, scripts, client.maxAttempts)
        decreases |rest|
      {
        var ok := DispatchOne(rest[0], Script(later));
        if !ok {
          return;
        }
        rest, later := rest[1..], Later(later);
      }
    }
  }
}
