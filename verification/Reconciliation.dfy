// ReconciliationService (src/reconciliation/reconciliation.service.ts) on the tables.
module Reconciliation {
  import opened Entities
  import opened Lifecycle
  import opened Database
  import opened Balances
  import opened Ingest

  class ReconciliationService {
    const db: Database
    const balances: BalanceService

    constructor (balances: BalanceService)
      ensures this.balances == balances && db == balances.db
    {
      this.balances, db := balances, balances.db;
    }

    // findOne, order by sequence DESC
    method FindLast() returns (last: Option<int>)
      ensures last == LastApplied(db.batchLog)
    {
      last := None;
      for i := 0 to |db.batchLog|
        invariant last == LastApplied(db.batchLog[..i])
      {
        var sequence := db.batchLog[i].sequence;
        if last.None? || sequence > last.value {
          last := Some(sequence);
        }
        assert db.batchLog[..i + 1][..i] == db.batchLog[..i];
      }
      assert db.batchLog[..|db.batchLog|] == db.batchLog;
    }

    method IngestBatch(corpus: Corpus)
      requires db == balances.db
      modifies db
      ensures db.Contents() == Ingest.IngestBatch(old(db.Contents()), corpus)
    {
      hide LastApplied, Lifecycle.Reconcile;
      var last := FindLast();
      if last.Some? && corpus.sequence <= last.value {
        db.events := db.events + [ReconEvent(None, 0, 0, StaleRejected)];
        return;
      }
      for i := 0 to |corpus.entries|
        invariant db.Contents() == ReconcileAll(old(db.Contents()), corpus.entries[..i], corpus.asOf)
      {
        var entry := corpus.entries[i];
        balances.ReconcileBalance(entry.key, entry.value, corpus.asOf);
        assert corpus.entries[..i + 1][..i] == corpus.entries[..i];
      }
      assert corpus.entries[..|corpus.entries|] == corpus.entries;
      db.batchLog := db.batchLog + [BatchLogEntry(corpus.sequence, corpus.asOf)];
    }
  }
}
