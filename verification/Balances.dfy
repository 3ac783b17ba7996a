// BalanceService (src/balance/balance.service.ts) on the tables. Every method but GetBalance and ResolveReview
// runs under the lock of its key; saveWithRetry is one update of the row (see OptimisticSave).
module Balances {
  import opened Entities
  import opened Sums
  import opened Lifecycle
  import opened Machine
  import opened Database

  class BalanceService {
    const db: Database
    const client: HcmGateway
    const ttl: nat
    const lazyLoad: bool

    constructor (db: Database, client: HcmGateway, ttl: nat, lazyLoad: bool)
      ensures this.db == db && this.client == client && this.ttl == ttl && this.lazyLoad == lazyLoad
    {
      this.db, this.client, this.ttl, this.lazyLoad := db, client, ttl, lazyLoad;
    }

    // The service at rest: nobody inside a critical section.
    ghost function State(): Machine.State
      reads db, client
    {
      Machine.State.State(db.Contents(), client.hcm, map[], multiset{}, Config(client.maxAttempts, ttl))
    }

    method FindOrCreate(k: BalanceKey) returns (b: Balance)
      ensures b == RowAt(db.balances, k)
    {
      b := if k in db.balances then db.balances[k] else ZERO_BALANCE;
    }

    // False is the ConflictException.
    method Reserve(k: BalanceKey, days: nat) returns (ok: bool)
      modifies db`balances
      ensures ok <==> Covers(RowAt(old(db.balances), k), days)
      ensures db.balances == if ok then old(db.balances)[k := Lifecycle.Reserve(RowAt(old(db.balances), k), days)]
                             else old(db.balances)
    {
      var b := FindOrCreate(k);
      ok := b.available - b.reserved >= days;
      if ok {
        db.balances := db.balances[k := b.(reserved := b.reserved + days)];
      }
    }

    method Release(k: BalanceKey, days: nat)
      modifies db`balances
      ensures db.balances == old(db.balances)[k := Lifecycle.Release(RowAt(old(db.balances), k), days)]
    {
      var b := FindOrCreate(k);
      var left := b.reserved - days;
      db.balances := db.balances[k := b.(reserved := if left > 0 then left else 0)];
    }

    method Commit(k: BalanceKey, days: nat)
      modifies db`balances
      ensures db.balances == old(db.balances)[k := Lifecycle.Commit(RowAt(old(db.balances), k), days)]
    {
      var b := FindOrCreate(k);
      b := b.(available := b.available - days);
      var left := b.reserved - days;
      b := b.(reserved := if left > 0 then left else 0);
      db.balances := db.balances[k := b];
    }

    method Restore(k: BalanceKey, days: nat)
      modifies db`balances
      ensures db.balances == old(db.balances)[k := Lifecycle.Restore(RowAt(old(db.balances), k), days)]
    {
      var b := FindOrCreate(k);
      db.balances := db.balances[k := b.(available := b.available + days)];
    }

    method ApplyHcmSnapshot(k: BalanceKey, value: int, asOf: int)
      modifies db`balances
      ensures db.balances == old(db.balances)[k := ApplySnapshot(RowAt(old(db.balances), k), value, asOf)]
    {
      var b := FindOrCreate(k);
      b := b.(available := value);
      b := b.(lastHcmAsOf := Some(asOf));
      db.balances := db.balances[k := b];
    }

    // The row as the caller sees it, and whether it is the unsaved stand-in for an HCM that is down. Without lazy
    // loading a missing row is saved as zero and HCM is never asked.
    method GetBalance(k: BalanceKey, refresh: Refresh) returns (b: Balance, degraded: bool)
      modifies db`balances, client
      ensures lazyLoad ==> State() == Read(old(State()), k, refresh)
      ensures lazyLoad ==> (degraded <==> !Warm(db.Contents(), k))
      ensures !lazyLoad ==> !degraded && client.hcm == old(client.hcm)
      ensures !lazyLoad ==> db.balances == old(db.balances)[k := RowAt(old(db.balances), k)]
      ensures b == if degraded then ZERO_BALANCE else RowAt(db.balances, k)
    {
      if k in db.balances && db.balances[k].lastHcmAsOf.Some? {
        assert db.balances[k := db.balances[k]] == db.balances;
        return db.balances[k], false;
      }
      if !lazyLoad {
        if k in db.balances {
          assert db.balances[k := db.balances[k]] == db.balances;
          return db.balances[k], false;
        }
        db.balances := db.balances[k := ZERO_BALANCE];
        return ZERO_BALANCE, false;
      }
      b, degraded := HydrateUnderLock(k, refresh);
    }

    // Whoever had the lock before may have hydrated the row.
    method HydrateUnderLock(k: BalanceKey, refresh: Refresh) returns (b: Balance, degraded: bool)
      modifies db`balances, client
      ensures State() == Read(old(State()), k, refresh)
      ensures degraded <==> !Warm(db.Contents(), k)
      ensures b == if degraded then ZERO_BALANCE else RowAt(db.balances, k)
    {
      if k in db.balances && db.balances[k].lastHcmAsOf.Some? {
        return db.balances[k], false;
      }
      var snapshot := client.GetBalance(k, refresh);
      if snapshot.None? {
        return ZERO_BALANCE, true;
      }
      ApplyHcmSnapshot(k, snapshot.value.0, snapshot.value.1);
      b, degraded := db.balances[k], false;
    }

    method ReconcileBalance(k: BalanceKey, value: int, asOf: int)
      modifies db`balances, db`events
      ensures db.Contents() == Lifecycle.Reconcile(old(db.Contents()), k, value, asOf)
    {
      hide Sum, UnackedColumn, ReversalColumn, ReservedColumn;
      var before := FindOrCreate(k);
      var unacked := SumOfUnacked(k, asOf);
      var reversals := SumOfReversals(k);
      var reserved := SumOfReserved(k);
      var available := value - unacked + reversals;
      var hasAdjustments :=
        unacked != 0 || reversals != 0 || available != before.available || reserved != before.reserved;
      var isNegative := available < 0;
      var b := before.(available := available, reserved := reserved, lastHcmAsOf := Some(asOf));
      if isNegative {
        b := b.(needsReview := true);
      }
      db.balances := db.balances[k := b];
      var resolution := if isNegative then FlaggedNegative else if hasAdjustments then Replayed else NoChange;
      db.events := db.events + [ReconEvent(Some(k), before.available, value, resolution)];
    }

    method SumOfUnacked(k: BalanceKey, asOf: int) returns (days: int)
      ensures days == Sum(UnackedColumn(db.requests, k, asOf))
    {
      ghost var column := UnackedColumn(db.requests, k, asOf);
      days := 0;
      for i := 0 to |db.requests|
        invariant days == Sum(column[..i])
      {
        var r := db.requests[i];
        if r.key == k && (r.status == Approved || r.status == PendingSync) &&
          (r.hcmAckAt.None? || r.hcmAckAt.value > asOf) {
          days := days + r.days;
        }
        SumAppend(column[..i], column[i]);
        assert column[..i] + [column[i]] == column[..i + 1];
      }
      assert column[..|db.requests|] == column;
    }

    method SumOfReversals(k: BalanceKey) returns (days: int)
      ensures days == Sum(ReversalColumn(db.requests, db.outbox, k))
    {
      ghost var column := ReversalColumn(db.requests, db.outbox, k);
      days := 0;
      for o := 0 to |db.outbox|
        invariant days == Sum(column[..o])
      {
        var row := db.outbox[o];
        if row.operation == Reverse && row.status == Queued && row.aggregateId < |db.requests| {
          var r := db.requests[row.aggregateId];
          if r.key == k && r.status == Cancelled {
            days := days + r.days;
          }
        }
        SumAppend(column[..o], column[o]);
        assert column[..o] + [column[o]] == column[..o + 1];
      }
      assert column[..|db.outbox|] == column;
    }

    method SumOfReserved(k: BalanceKey) returns (days: int)
      ensures days == Sum(ReservedColumn(db.requests, k))
    {
      ghost var column := ReservedColumn(db.requests, k);
      days := 0;
      for i := 0 to |db.requests|
        invariant days == Sum(column[..i])
      {
        var r := db.requests[i];
        if r.key == k && r.status == Pending {
          days := days + r.days;
        }
        SumAppend(column[..i], column[i]);
        assert column[..i] + [column[i]] == column[..i + 1];
      }
      assert column[..|db.requests|] == column;
    }

    method ResolveReview(k: BalanceKey)
      modifies db`balances
      ensures State() == Apply(old(State()), Step.ResolveReview(k))
      ensures db.balances == old(db.balances)[k := RowAt(old(db.balances), k).(needsReview := false)]
    {
      var b := FindOrCreate(k);
      db.balances := db.balances[k := b.(needsReview := false)];
    }
  }
}
