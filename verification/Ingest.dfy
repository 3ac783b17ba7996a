// Batch ingest (src/reconciliation/reconciliation.service.ts): a sequence guard, one transaction per entry, the
// log written last. The laws are about any order of deliveries, repeats and crashes, one ingest at a time and
// no request activity in between.
module Ingest {
  import opened Entities
  import opened Sums
  import opened Lifecycle

  datatype Entry = Entry(key: BalanceKey, value: int)

  // Entries carry an `asOf` of their own, which the source does not read.
  datatype Corpus = Corpus(sequence: int, asOf: int, entries: seq<Entry>)

  // findOne, order by sequence DESC
  function LastApplied(log: seq<BatchLogEntry>): (last: Option<int>)
    ensures last.None? <==> log == []
    ensures last.Some? ==> exists e :: e in log && e.sequence == last.value
    ensures forall e :: e in log ==> e.sequence <= last.value
  {
    if log == [] then None
    else
      var n := |log| - 1;
      match LastApplied(log[..n])
      case None => Some(log[n].sequence)
      case Some(m) => Some(if log[n].sequence > m then log[n].sequence else m)
  }

  predicate Stale(log: seq<BatchLogEntry>, sequence: int) {
    var last := LastApplied(log);
    last.Some? && sequence <= last.value
  }

  const STALE_EVENT := ReconEvent(None, 0, 0, StaleRejected)

  function ReconcileAll(t: Tables, entries: seq<Entry>, asOf: int): Tables
    decreases |entries|
  {
    if entries == [] then t
    else
      var n := |entries| - 1;
      Reconcile(ReconcileAll(t, entries[..n], asOf), entries[n].key, entries[n].value, asOf)
  }

  function WriteLog(t: Tables, c: Corpus): Tables {
    t.(batchLog := t.batchLog + [BatchLogEntry(c.sequence, c.asOf)])
  }

  function IngestBatch(t: Tables, c: Corpus): Tables {
    if Stale(t.batchLog, c.sequence) then t.(events := t.events + [STALE_EVENT])
    else WriteLog(ReconcileAll(t, c.entries, c.asOf), c)
  }

  // One delivery: complete, or cut short by a crash after `crashAfter` entries.
  datatype Delivery = Delivery(corpus: Corpus, crashAfter: Option<nat>)

  function Reached(d: Delivery): seq<Entry> {
    if d.crashAfter.Some? && d.crashAfter.value < |d.corpus.entries| then d.corpus.entries[..d.crashAfter.value]
    else d.corpus.entries
  }

  function Deliver(t: Tables, d: Delivery): Tables {
    if d.crashAfter.None? || Stale(t.batchLog, d.corpus.sequence) then IngestBatch(t, d.corpus)
    else ReconcileAll(t, Reached(d), d.corpus.asOf)
  }

  function DeliverAll(t: Tables, ds: seq<Delivery>): Tables
    decreases |ds|
  {
    if ds == [] then t else DeliverAll(Deliver(t, ds[0]), ds[1..])
  }

  // A batch is applied exactly when it is newer than every batch in the log; then it is logged, after one event per
  // entry, in the order of the entries.
  lemma NewerIsApplied(t: Tables, c: Corpus)
    ensures var t' := IngestBatch(t, c);
            if forall e :: e in t.batchLog ==> e.sequence < c.sequence then
              && t'.batchLog == t.batchLog + [BatchLogEntry(c.sequence, c.asOf)]
              && |t'.events| == |t.events| + |c.entries| && t'.events[..|t.events|] == t.events
              && forall i :: 0 <= i < |c.entries| ==>
                   var e := t'.events[|t.events| + i];
                   && e.about == Some(c.entries[i].key) && e.hcmValue == c.entries[i].value
                   && e.resolution != StaleRejected
            else t' == t.(events := t.events + [ReconEvent(None, 0, 0, StaleRejected)])
  {
    hide Reconcile, LastApplied;
    if forall e :: e in t.batchLog ==> e.sequence < c.sequence {
      OneEventPerEntry(t, c.entries, c.asOf);
    }
  }

  lemma {:induction false} OneEventPerEntry(t: Tables, entries: seq<Entry>, asOf: int)
    ensures var t' := ReconcileAll(t, entries, asOf);
            && t'.batchLog == t.batchLog
            && |t'.events| == |t.events| + |entries| && t'.events[..|t.events|] == t.events
            && forall i :: 0 <= i < |entries| ==>
                 var e := t'.events[|t.events| + i];
                 e.about == Some(entries[i].key) && e.hcmValue == entries[i].value && e.resolution != StaleRejected
    decreases |entries|
  {
    hide Sum, UnackedColumn, ReversalColumn, ReservedColumn;
    if entries != [] {
      OneEventPerEntry(t, entries[..|entries| - 1], asOf);
    }
  }

  // A rejected batch moves nothing and leaves one event behind.
  lemma StaleLeavesOneEvent(t: Tables, d: Delivery)
    requires exists e :: e in t.batchLog && d.corpus.sequence <= e.sequence
    ensures Deliver(t, d) == t.(events := t.events + [ReconEvent(None, 0, 0, StaleRejected)])
  {
  }

  // What the audit row says about the balance row: flagged exactly when the figure went negative (and then the
  // row asks for review), NO_CHANGE exactly when the snapshot says what the row already said and nothing was
  // replayed on it.
  lemma ReconcileReports(t: Tables, k: BalanceKey, value: int, asOf: int)
    ensures var (before, after) := (RowAt(t.balances, k), RowAt(Reconcile(t, k, value, asOf).balances, k));
            var event := ReconcileEvent(t, k, value, asOf);
            && event.about == Some(k) && event.localValue == before.available && event.hcmValue == value
            && (event.resolution == FlaggedNegative <==> after.available < 0)
            && (after.needsReview <==> before.needsReview || event.resolution == FlaggedNegative)
            && (event.resolution == NoChange <==>
                  && after.available >= 0
                  && Sum(UnackedColumn(t.requests, k, asOf)) == 0
                  && Sum(ReversalColumn(t.requests, t.outbox, k)) == 0
                  && before.available == after.available == value && before.reserved == after.reserved)
            && (event.resolution == FlaggedNegative || event.resolution == NoChange || event.resolution == Replayed)
            && after.lastHcmAsOf == Some(asOf)
  {
    hide Sum, UnackedColumn, ReversalColumn, ReservedColumn;
  }

  // ---- What any deliveries leave in a balance row --------------------------------------------------------

  datatype Write = Write(key: BalanceKey, value: int, asOf: int)

  function Writes(entries: seq<Entry>, asOf: int): (ws: seq<Write>)
    ensures |ws| == |entries|
    ensures forall i :: 0 <= i < |ws| ==> ws[i] == Write(entries[i].key, entries[i].value, asOf)
  {
    seq(|entries|, i requires 0 <= i < |entries| => Write(entries[i].key, entries[i].value, asOf))
  }

  function LogAfter(log: seq<BatchLogEntry>, d: Delivery): seq<BatchLogEntry> {
    if Stale(log, d.corpus.sequence) || d.crashAfter.Some? then log
    else log + [BatchLogEntry(d.corpus.sequence, d.corpus.asOf)]
  }

  // The entries that get past the guard, in the order in which they are written.
  function Applied(log: seq<BatchLogEntry>, ds: seq<Delivery>): seq<Write>
    decreases |ds|
  {
    if ds == [] then []
    else
      (if Stale(log, ds[0].corpus.sequence) then [] else Writes(Reached(ds[0]), ds[0].corpus.asOf))
      + Applied(LogAfter(log, ds[0]), ds[1..])
  }

  function LastWrite(ws: seq<Write>, k: BalanceKey): (w: Option<Write>)
    ensures w.None? <==> forall i :: 0 <= i < |ws| ==> ws[i].key != k
    ensures w.Some? ==> w.value in ws && w.value.key == k
  {
    if ws == [] then None
    else
      var n := |ws| - 1;
      if ws[n].key == k then Some(ws[n]) else LastWrite(ws[..n], k)
  }

  predicate Flags(t: Tables, w: Write) {
    ReconciledAvailable(t, w.key, w.value, w.asOf) < 0
  }

  predicate AnyFlags(t: Tables, ws: seq<Write>, k: BalanceKey) {
    exists w :: w in ws && w.key == k && Flags(t, w)
  }

  // The last write decides the amounts; the review flag remembers every negative one.
  function Outcome(t: Tables, ws: seq<Write>, k: BalanceKey): Balance {
    match LastWrite(ws, k)
    case None => RowAt(t.balances, k)
    case Some(w) =>
      Balance(ReconciledAvailable(t, k, w.value, w.asOf), Sum(ReservedColumn(t.requests, k)),
              RowAt(t.balances, k).needsReview || AnyFlags(t, ws, k), Some(w.asOf))
  }

  ghost predicate LeftBy(t: Tables, ws: seq<Write>, t': Tables) {
    && t'.requests == t.requests && t'.outbox == t.outbox
    && (forall k :: RowAt(t'.balances, k) == Outcome(t, ws, k))
    && (forall k :: k in t'.balances <==> k in t.balances || LastWrite(ws, k).Some?)
  }

  lemma NothingLeft(t: Tables)
    ensures LeftBy(t, [], t)
  {
  }

  lemma LastWriteOfAll(ws: seq<Write>, w: Write, k: BalanceKey)
    ensures LastWrite(ws + [w], k) == if w.key == k then Some(w) else LastWrite(ws, k)
  {
    assert (ws + [w])[..|ws|] == ws;
  }

  lemma OneMoreWrite(t: Tables, ws: seq<Write>, t': Tables, w: Write)
    requires LeftBy(t, ws, t')
    ensures LeftBy(t, ws + [w], Reconcile(t', w.key, w.value, w.asOf))
  {
    hide LastWrite, UnackedColumn, ReversalColumn, ReservedColumn, Sum, ReconcileEvent;
    var t'' := Reconcile(t', w.key, w.value, w.asOf);
    forall k ensures RowAt(t''.balances, k) == Outcome(t, ws + [w], k)
      ensures k in t''.balances <==> k in t.balances || LastWrite(ws + [w], k).Some?
    {
      LastWriteOfAll(ws, w, k);
      assert RowAt(t'.balances, k) == Outcome(t, ws, k);
      assert AnyFlags(t, ws + [w], k) <==> AnyFlags(t, ws, k) || (w.key == k && Flags(t, w));
      if LastWrite(ws, k).None? {
        assert !AnyFlags(t, ws, k);
      }
    }
  }

  lemma {:induction false} ReconcileAllLeaves(t: Tables, ws: seq<Write>, t': Tables, entries: seq<Entry>, asOf: int)
    requires LeftBy(t, ws, t')
    ensures LeftBy(t, ws + Writes(entries, asOf), ReconcileAll(t', entries, asOf))
    ensures ReconcileAll(t', entries, asOf).batchLog == t'.batchLog
    decreases |entries|
  {
    hide LeftBy;
    if entries == [] {
      assert ws + Writes(entries, asOf) == ws;
    } else {
      var n := |entries| - 1;
      ReconcileAllLeaves(t, ws, t', entries[..n], asOf);
      var w := Write(entries[n].key, entries[n].value, asOf);
      OneMoreWrite(t, ws + Writes(entries[..n], asOf), ReconcileAll(t', entries[..n], asOf), w);
      assert ws + Writes(entries, asOf) == ws + Writes(entries[..n], asOf) + [w];
    }
  }

  lemma LeftWithOtherLogs(t: Tables, ws: seq<Write>, t': Tables, events: seq<ReconEvent>, log: seq<BatchLogEntry>)
    requires LeftBy(t, ws, t')
    ensures LeftBy(t, ws, t'.(events := events, batchLog := log))
  {
  }

  function FirstApplied(log: seq<BatchLogEntry>, d: Delivery): seq<Write> {
    if Stale(log, d.corpus.sequence) then [] else Writes(Reached(d), d.corpus.asOf)
  }

  lemma OneDeliveryApplied(log: seq<BatchLogEntry>, ds: seq<Delivery>)
    requires ds != []
    ensures Applied(log, ds) == FirstApplied(log, ds[0]) + Applied(LogAfter(log, ds[0]), ds[1..])
  {
    hide Stale, Writes, Reached, LogAfter;
  }

  lemma DeliverLeaves(t: Tables, ws: seq<Write>, t': Tables, d: Delivery)
    requires LeftBy(t, ws, t')
    ensures LeftBy(t, ws + FirstApplied(t'.batchLog, d), Deliver(t', d))
    ensures Deliver(t', d).batchLog == LogAfter(t'.batchLog, d)
  {
    hide LeftBy, ReconcileAll, Stale;
    if Stale(t'.batchLog, d.corpus.sequence) {
      assert ws + FirstApplied(t'.batchLog, d) == ws;
      LeftWithOtherLogs(t, ws, t', t'.events + [STALE_EVENT], t'.batchLog);
    } else {
      var reached := Writes(Reached(d), d.corpus.asOf);
      ReconcileAllLeaves(t, ws, t', Reached(d), d.corpus.asOf);
      var t'' := ReconcileAll(t', Reached(d), d.corpus.asOf);
      LeftWithOtherLogs(t, ws + reached, t'', t''.events,
        t''.batchLog + [BatchLogEntry(d.corpus.sequence, d.corpus.asOf)]);
    }
  }

  lemma {:induction false} DeliverAllLeaves(t: Tables, ws: seq<Write>, t': Tables, ds: seq<Delivery>)
    requires LeftBy(t, ws, t')
    ensures LeftBy(t, ws + Applied(t'.batchLog, ds), DeliverAll(t', ds))
    decreases |ds|
  {
    hide LeftBy, Deliver, Stale, Writes, LogAfter, FirstApplied;
    if ds == [] {
      assert ws + Applied(t'.batchLog, ds) == ws;
    } else {
      DeliverLeaves(t, ws, t', ds[0]);
      OneDeliveryApplied(t'.batchLog, ds);
      hide Applied;
      var now := FirstApplied(t'.batchLog, ds[0]);
      var later := Applied(LogAfter(t'.batchLog, ds[0]), ds[1..]);
      DeliverAllLeaves(t, ws + now, Deliver(t', ds[0]), ds[1..]);
      assert ws + now + later == ws + (now + later);
    }
  }

  // Whatever is delivered, in whatever order and however often: each row is what its last applied entry makes
  // of it, whichever entries came before.
  lemma DeliveriesLeave(t: Tables, ds: seq<Delivery>)
    ensures LeftBy(t, Applied(t.batchLog, ds), DeliverAll(t, ds))
  {
    hide LeftBy, Deliver, Stale;
    NothingLeft(t);
    DeliverAllLeaves(t, [], t, ds);
    assert [] + Applied(t.batchLog, ds) == Applied(t.batchLog, ds);
  }

  // ---- The highest sequence wins -------------------------------------------------------------------------

  lemma {:induction false} NothingPassesAfter(log: seq<BatchLogEntry>, ds: seq<Delivery>, e: BatchLogEntry)
    requires e in log && forall d :: d in ds ==> d.corpus.sequence <= e.sequence
    ensures Applied(log, ds) == []
    decreases |ds|
  {
    if ds != [] {
      assert ds[0] in ds;
      NothingPassesAfter(LogAfter(log, ds[0]), ds[1..], e);
    }
  }

  lemma StaleAfterLog(log: seq<BatchLogEntry>, e: BatchLogEntry, sequence: int)
    ensures Stale(log + [e], sequence) <==> Stale(log, sequence) || sequence <= e.sequence
  {
    assert (log + [e])[..|log|] == log;
  }

  // Deliveries of nothing newer than `c`, one of which is `c` in full.
  ghost predicate TopsOff(ds: seq<Delivery>, c: Corpus) {
    && Delivery(c, None) in ds
    && forall d :: d in ds ==> d.corpus.sequence < c.sequence || d.corpus == c
  }

  lemma TopSettlesIt(log: seq<BatchLogEntry>, ds: seq<Delivery>, c: Corpus)
    requires ds != [] && ds[0] == Delivery(c, None) && TopsOff(ds, c) && !Stale(log, c.sequence)
    ensures Applied(LogAfter(log, ds[0]), ds[1..]) == []
    ensures FirstApplied(log, ds[0]) == Writes(c.entries, c.asOf)
  {
    hide Stale, Applied;
    var entry := BatchLogEntry(c.sequence, c.asOf);
    assert LogAfter(log, ds[0])[|log|] == entry;
    assert forall later :: later in ds[1..] ==> later in ds;
    NothingPassesAfter(LogAfter(log, ds[0]), ds[1..], entry);
  }

  lemma TopStaysNewest(log: seq<BatchLogEntry>, d: Delivery, c: Corpus)
    requires !Stale(log, c.sequence) && d != Delivery(c, None)
    requires d.corpus.sequence < c.sequence || d.corpus == c
    ensures !Stale(LogAfter(log, d), c.sequence)
  {
    hide Stale;
    StaleAfterLog(log, BatchLogEntry(d.corpus.sequence, d.corpus.asOf), c.sequence);
  }

  lemma TopComesLater(ds: seq<Delivery>, c: Corpus)
    requires ds != [] && ds[0] != Delivery(c, None) && TopsOff(ds, c)
    ensures TopsOff(ds[1..], c) && (ds[0].corpus.sequence < c.sequence || ds[0].corpus == c)
  {
    assert ds == [ds[0]] + ds[1..];
  }

  lemma {:induction false} AppliedEndsWith(log: seq<BatchLogEntry>, ds: seq<Delivery>, c: Corpus)
      returns (before: seq<Write>)
    requires TopsOff(ds, c) && !Stale(log, c.sequence)
    ensures Applied(log, ds) == before + Writes(c.entries, c.asOf)
    decreases |ds|
  {
    assert ds != [];
    hide Stale, Applied, LogAfter, FirstApplied, Writes, TopsOff;
    if ds[0] == Delivery(c, None) {
      before := [];
      TopEndsIt(log, ds, c);
    } else {
      TopComesLater(ds, c);
      TopStaysNewest(log, ds[0], c);
      var rest := AppliedEndsWith(LogAfter(log, ds[0]), ds[1..], c);
      before := FirstApplied(log, ds[0]) + rest;
      OneDeliveryApplied(log, ds);
      Regroup(FirstApplied(log, ds[0]), rest, Writes(c.entries, c.asOf));
    }
  }

  lemma TopEndsIt(log: seq<BatchLogEntry>, ds: seq<Delivery>, c: Corpus)
    requires ds != [] && ds[0] == Delivery(c, None) && TopsOff(ds, c) && !Stale(log, c.sequence)
    ensures Applied(log, ds) == [] + Writes(c.entries, c.asOf)
  {
    hide Stale, Applied, LogAfter, TopsOff, FirstApplied, Writes;
    OneDeliveryApplied(log, ds);
    TopSettlesIt(log, ds, c);
    assert Writes(c.entries, c.asOf) + [] == Writes(c.entries, c.asOf);
  }

  lemma Regroup(a: seq<Write>, b: seq<Write>, c: seq<Write>)
    ensures a + (b + c) == a + b + c
  {
  }

  lemma {:induction false} LastWriteOfSuffix(a: seq<Write>, b: seq<Write>, k: BalanceKey)
    requires LastWrite(b, k).Some?
    ensures LastWrite(a + b, k) == LastWrite(b, k)
    decreases |b|
  {
    var n := |b| - 1;
    assert (a + b)[..|a| + n] == a + b[..n];
    if b[n].key != k {
      LastWriteOfSuffix(a, b[..n], k);
    }
  }

  // With duplicates, reorderings and crashed deliveries around it, a corpus that is delivered in full at least
  // once and never overtaken leaves each of its keys with the amounts that one clean ingest gives it.
  lemma HighestSequenceWins(t: Tables, ds: seq<Delivery>, c: Corpus, k: BalanceKey)
    requires TopsOff(ds, c) && !Stale(t.batchLog, c.sequence)
    requires exists i :: 0 <= i < |c.entries| && c.entries[i].key == k
    ensures var (end, clean) := (RowAt(DeliverAll(t, ds).balances, k), RowAt(IngestBatch(t, c).balances, k));
            && end.(needsReview := clean.needsReview) == clean
            && (end.needsReview <==> RowAt(t.balances, k).needsReview || AnyFlags(t, Applied(t.batchLog, ds), k))
            && (clean.needsReview ==> end.needsReview)
  {
    hide Deliver, Stale, ReconcileAll, LastWrite;
    var ws := Writes(c.entries, c.asOf);
    var before := AppliedEndsWith(t.batchLog, ds, c);
    DeliveriesLeave(t, ds);
    NothingLeft(t);
    ReconcileAllLeaves(t, [], t, c.entries, c.asOf);
    assert [] + ws == ws;
    var i :| 0 <= i < |c.entries| && c.entries[i].key == k;
    assert ws[i].key == k;
    LastWriteOfSuffix(before, ws, k);
    assert AnyFlags(t, ws, k) ==> AnyFlags(t, before + ws, k);
  }

  // ---- Crash and redeliver -------------------------------------------------------------------------------

  ghost predicate CrashedAttempts(ds: seq<Delivery>, c: Corpus) {
    forall d :: d in ds ==> d.corpus == c && d.crashAfter.Some?
  }

  lemma {:induction false} CrashesApply(log: seq<BatchLogEntry>, ds: seq<Delivery>, c: Corpus)
    requires CrashedAttempts(ds, c) && !Stale(log, c.sequence)
    ensures forall w :: w in Applied(log, ds) ==> w in Writes(c.entries, c.asOf)
    decreases |ds|
  {
    hide Stale;
    if ds != [] {
      assert ds[0] in ds;
      CrashesApply(log, ds[1..], c);
      var now := Writes(Reached(ds[0]), c.asOf);
      forall w | w in Applied(log, ds) ensures w in Writes(c.entries, c.asOf) {
        if w in now {
          var i :| 0 <= i < |now| && now[i] == w;
          assert Writes(c.entries, c.asOf)[i] == w;
        }
      }
    }
  }

  // Any number of attempts that crash after any prefix, followed by a complete one, leave the very balances of
  // one clean ingest.
  lemma CrashesAndRedelivery(t: Tables, ds: seq<Delivery>, c: Corpus)
    requires CrashedAttempts(ds, c) && !Stale(t.batchLog, c.sequence)
    ensures DeliverAll(t, ds + [Delivery(c, None)]).balances == IngestBatch(t, c).balances
  {
    hide Deliver, Stale, ReconcileAll, LastWrite;
    var all := ds + [Delivery(c, None)];
    var ws := Writes(c.entries, c.asOf);
    var applied := Applied(t.batchLog, all);
    assert all[|ds|] == Delivery(c, None);
    var before := AppliedEndsWith(t.batchLog, all, c);
    AppliedAppend(t.batchLog, ds, c);
    CrashesApply(t.batchLog, ds, c);
    DeliveriesLeave(t, all);
    NothingLeft(t);
    ReconcileAllLeaves(t, [], t, c.entries, c.asOf);
    assert [] + ws == ws;
    var end, clean := DeliverAll(t, all).balances, IngestBatch(t, c).balances;
    forall k ensures (k in end <==> k in clean) && RowAt(end, k) == RowAt(clean, k) {
      assert AnyFlags(t, applied, k) <==> AnyFlags(t, ws, k);
      if LastWrite(ws, k).Some? {
        LastWriteOfSuffix(before, ws, k);
      } else {
        assert forall w :: w in ws ==> w.key != k;
        assert forall i :: 0 <= i < |applied| ==> applied[i] in ws;
      }
    }
    SameRows(end, clean);
  }

  lemma SameRows(a: map<BalanceKey, Balance>, b: map<BalanceKey, Balance>)
    requires forall k :: (k in a <==> k in b) && RowAt(a, k) == RowAt(b, k)
    ensures a == b
  {
    forall k | k in a ensures k in b && a[k] == b[k] {
      assert RowAt(a, k) == RowAt(b, k);
    }
    forall k | k in b ensures k in a {
      assert RowAt(a, k) == RowAt(b, k);
    }
  }

  lemma {:induction false} AppliedAppend(log: seq<BatchLogEntry>, ds: seq<Delivery>, c: Corpus)
    requires CrashedAttempts(ds, c) && !Stale(log, c.sequence)
    ensures Applied(log, ds + [Delivery(c, None)]) == Applied(log, ds) + Writes(c.entries, c.asOf)
    decreases |ds|
  {
    hide Stale;
    var all := ds + [Delivery(c, None)];
    if ds == [] {
      assert all == [Delivery(c, None)] && all[1..] == [];
    } else {
      assert ds[0] in ds && all[1..] == ds[1..] + [Delivery(c, None)];
      AppliedAppend(log, ds[1..], c);
      var now := Writes(Reached(ds[0]), c.asOf);
      assert now + Applied(log, ds[1..]) + Writes(c.entries, c.asOf) ==
        now + (Applied(log, ds[1..]) + Writes(c.entries, c.asOf));
    }
  }
}
