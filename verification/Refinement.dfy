// The state machine refines the per-request automaton: a transaction changes one request's view by one move and
// leaves every other view, balance and captured entity alone.
module Refinement {
  import opened Entities
  import opened Sums
  import opened OutboxTable
  import opened MockHcm
  import opened HcmCall
  import opened Lifecycle
  import opened Machine
  import opened Automaton

  function Lookup<K, V>(m: map<K, V>, k: K): Option<V> {
    if k in m then Some(m[k]) else None
  }

  function ViewOf(s: State, i: nat): View
    requires i < |s.t.requests|
  {
    View(Bare(s.t.requests[i]), RowsOf(s.t.outbox, i),
         Lookup(s.hcm.effects, HcmKey(i, File)), Lookup(s.hcm.answers, HcmKey(i, File)),
         Lookup(s.hcm.effects, HcmKey(i, Reverse)), Lookup(s.hcm.answers, HcmKey(i, Reverse)))
  }

  // ---- Totals over the requests of one balance ----------------------------------------------------------

  function Share(s: State, k: BalanceKey, m: Measure, i: nat): int
    requires i < |s.t.requests|
  {
    if s.t.requests[i].key == k then Weight(m, ViewOf(s, i)) else 0
  }

  function Column(s: State, k: BalanceKey, m: Measure): seq<int> {
    seq(|s.t.requests|, i requires 0 <= i < |s.t.requests| => Share(s, k, m, i))
  }

  function Total(s: State, k: BalanceKey, m: Measure): int {
    Sum(Column(s, k, m))
  }

  // ---- What is left alone -------------------------------------------------------------------------------

  ghost predicate SameViews(s: State, s': State) {
    && |s'.t.requests| == |s.t.requests|
    && forall i :: 0 <= i < |s.t.requests| ==> ViewOf(s', i) == ViewOf(s, i)
  }

  ghost predicate SameBalancesBut(s: State, s': State, k: BalanceKey) {
    && (forall k' :: k' != k ==> RowAt(s'.t.balances, k') == RowAt(s.t.balances, k'))
    && (forall k' :: k' != k ==> BalanceAt(s'.hcm, k') == BalanceAt(s.hcm, k'))
  }

  // Only request i (of balance k) has changed, in the tables and at HCM; row positions are stable.
  ghost predicate OnlyRequest(s: State, s': State, i: nat, k: BalanceKey) {
    && i < |s.t.requests| == |s'.t.requests|
    && s.t.requests[i].key == k == s'.t.requests[i].key
    && (forall j :: 0 <= j < |s.t.requests| && j != i ==> s'.t.requests[j] == s.t.requests[j])
    && (forall j :: 0 <= j < |s.t.requests| && j != i ==> ViewOf(s', j) == ViewOf(s, j))
    && |s.t.outbox| <= |s'.t.outbox|
    && (forall o :: 0 <= o < |s.t.outbox| && s.t.outbox[o].aggregateId != i ==> s'.t.outbox[o] == s.t.outbox[o])
    && (forall o :: 0 <= o < |s'.t.outbox| ==>
          s'.t.outbox[o].aggregateId ==
              i || (o < |s.t.outbox| && s'.t.outbox[o].aggregateId == s.t.outbox[o].aggregateId))
    && SameBalancesBut(s, s', k)
    && s.t.balances.Keys <= s'.t.balances.Keys
    && s.hcm.balances.Keys <= s'.hcm.balances.Keys
    && s'.config == s.config
    && s'.hcm.reverseNeedsFile == s.hcm.reverseNeedsFile
  }

  // Request i has made the move m.
  ghost predicate Makes(s: State, s': State, i: nat, k: BalanceKey, m: Move) {
    && OnlyRequest(s, s', i, k)
    && var v := ViewOf(s, i);
       && Fits(v, m)
       && ViewOf(s', i) == After(v, i, m)
       && var d := Amounts(v, m);
          && RowAt(s'.t.balances, k).available == RowAt(s.t.balances, k).available + d.available
          && RowAt(s'.t.balances, k).reserved == RowAt(s.t.balances, k).reserved + d.reserved
          && RowAt(s'.t.balances, k).lastHcmAsOf == RowAt(s.t.balances, k).lastHcmAsOf
          && RowAt(s'.t.balances, k).needsReview == RowAt(s.t.balances, k).needsReview
          && BalanceAt(s'.hcm, k) == BalanceAt(s.hcm, k) + d.hcm
          && (d.hcm != 0 ==> k in s.hcm.balances)
  }

  // ---- How totals follow --------------------------------------------------------------------------------

  lemma TotalAfterMove(s: State, s': State, i: nat, k: BalanceKey, m: Measure, k': BalanceKey)
    requires OnlyRequest(s, s', i, k)
    ensures Total(s', k', m)
         == Total(s, k', m) + if k == k' then Weight(m, ViewOf(s', i)) - Weight(m, ViewOf(s, i)) else 0
  {
    var c := Column(s, k', m);
    var c' := Column(s', k', m);
    assert c' == c[i := Share(s', k', m, i)];
    SumUpdate(c, i, Share(s', k', m, i));
  }

  lemma TotalOfSameViews(s: State, s': State, m: Measure, k: BalanceKey)
    requires SameViews(s, s')
    ensures Total(s', k, m) == Total(s, k, m)
  {
    forall i | 0 <= i < |s.t.requests| ensures s'.t.requests[i].key == s.t.requests[i].key {
      assert ViewOf(s', i).req.key == s'.t.requests[i].key;
      assert ViewOf(s, i).req.key == s.t.requests[i].key;
    }
    assert Column(s', k, m) == Column(s, k, m);
  }

  lemma TotalOfOneKind(s: State, k: BalanceKey, m: Measure, i: nat)
    requires i < |s.t.requests| && s.t.requests[i].key == k
    requires forall j :: 0 <= j < |s.t.requests| ==> Share(s, k, m, j) >= 0
    ensures Total(s, k, m) >= Share(s, k, m, i)
  {
    var c := Column(s, k, m);
    var lone := seq(|c|, j requires 0 <= j < |c| => if j == i then c[i] else 0);
    var zeros := seq(|c|, j requires 0 <= j < |c| => 0);
    SumZero(zeros);
    assert lone == zeros[i := c[i]];
    SumUpdate(zeros, i, c[i]);
    SumAtMost(lone, c);
  }

  // ---- The transactions, one by one ---------------------------------------------------------------------

  // Enough of the invariant for one transaction: every row belongs to a request, and the request at hand is
  // coupled and its reservation is in the books.
  ghost predicate Ready(s: State, i: nat, held: Request) {
    && i < |s.t.requests|
    && (forall o :: 0 <= o < |s.t.outbox| ==> s.t.outbox[o].aggregateId < |s.t.requests|)
    && Coupled(ViewOf(s, i), i)
    && Bare(held) == Bare(s.t.requests[i])
    && (held.status == Pending ==> RowAt(s.t.balances, held.key).reserved >= held.days)
  }

  lemma ViewsAfterVoid(s: State, s': State, i: nat, j: nat)
    requires s'.t.outbox == VoidQueuedFiles(s.t.outbox, i)
    ensures RowsOf(s'.t.outbox, j) == if i == j then VoidQueuedFiles(RowsOf(s.t.outbox, i), i)
        else RowsOf(s.t.outbox, j)
  {
    RowsAfterVoid(s.t.outbox, i, j);
  }

  lemma NothingToVoid(outbox: seq<OutboxRow>, id: nat)
    requires RowsOf(outbox, id) == []
    ensures VoidQueuedFiles(outbox, id) == outbox
  {
    forall o | 0 <= o < |outbox| ensures VoidQueuedFiles(outbox, id)[o] == outbox[o] {
      RowIsListed(outbox, o);
    }
  }

  lemma ReleaseMakes(s: State, i: nat, held: Request, to: RequestStatus, void: bool)
    requires Ready(s, i, held) && held.status == Pending && to.Terminal()
    ensures var t' := ReleaseAs(s.t, i, held, to);
            Makes(s, s.(t := if void then VoidFiles(t', i) else t'), i, held.key, Released(to))
  {
    hide RowsOf, VoidQueuedFiles, BalanceAt;
    var s' := s.(t := ReleaseAs(s.t, i, held, to));
    NothingToVoid(s.t.outbox, i);
    assert VoidFiles(s'.t, i) == s'.t;
    assert ViewOf(s', i) == After(ViewOf(s, i), i, Released(to));
  }

  lemma RestoreMakes(s: State, i: nat, held: Request, to: RequestStatus)
    requires Ready(s, i, held) && held.status == PendingSync && to.Terminal()
    ensures Makes(s, s.(t := RestoreAs(s.t, i, held, to)), i, held.key, Restored(to))
  {
    hide RowsOf, BalanceAt, Coupled, VoidQueuedFiles;
    var s' := s.(t := RestoreAs(s.t, i, held, to));
    forall j | 0 <= j < |s.t.requests|
      ensures RowsOf(s'.t.outbox, j) == if i == j then VoidQueuedFiles(RowsOf(s.t.outbox, i), i)
          else RowsOf(s.t.outbox, j)
    {
      ViewsAfterVoid(s, s', i, j);
    }
    assert ViewOf(s', i) == After(ViewOf(s, i), i, Restored(to));
  }

  lemma EnqueueViews(outbox: seq<OutboxRow>, row: OutboxRow)
    ensures forall j: nat :: RowsOf(outbox + [row], j) == RowsOf(outbox, j) + if row.aggregateId == j then [row] else []
  {
    forall j: nat ensures RowsOf(outbox + [row], j) == RowsOf(outbox, j) + if row.aggregateId == j then [row] else [] {
      RowsAfterAppend(outbox, row, j);
    }
  }

  lemma UndoMakes(s: State, i: nat, held: Request)
    requires Ready(s, i, held) && held.status == Approved
    ensures Makes(s, s.(t := RestoreAndReverse(s.t, i, held)), i, held.key, Undone)
  {
    hide RowsOf, BalanceAt;
    var s' := s.(t := RestoreAndReverse(s.t, i, held));
    EnqueueViews(s.t.outbox, BuildRow(i, held, Reverse));
    assert BuildRow(i, held, Reverse) == BuildRow(i, Bare(held), Reverse);
    assert ViewOf(s', i) == After(ViewOf(s, i), i, Undone);
  }

  lemma CommitMakes(s: State, i: nat, held: Request, now: int)
    requires Ready(s, i, held) && held.status == Pending
    ensures Makes(s, s.(t := CommitForSync(s.t, i, held, now)), i, held.key, Committed(now))
  {
    hide RowsOf, BalanceAt;
    var s' := s.(t := CommitForSync(s.t, i, held, now));
    var r := held.(committedAt := Some(now), status := PendingSync);
    EnqueueViews(s.t.outbox, BuildRow(i, r, File));
    assert BuildRow(i, r, File) == BuildRow(i, Bare(held), File);
    assert ViewOf(s', i) == After(ViewOf(s, i), i, Committed(now));
  }

  lemma UpdateViews(outbox: seq<OutboxRow>, o: nat, row: OutboxRow) returns (p: nat)
    requires o < |outbox| && row.aggregateId == outbox[o].aggregateId
    ensures p < |RowsOf(outbox, row.aggregateId)| && RowsOf(outbox, row.aggregateId)[p] == outbox[o]
    ensures RowsOf(outbox[o := row], row.aggregateId) == RowsOf(outbox, row.aggregateId)[p := row]
    ensures forall j: nat :: j != row.aggregateId ==> RowsOf(outbox[o := row], j) == RowsOf(outbox, j)
  {
    p := RowsAfterUpdate(outbox, o, row, row.aggregateId);
    forall j: nat | j != row.aggregateId ensures RowsOf(outbox[o := row], j) == RowsOf(outbox, j) {
      var _ := RowsAfterUpdate(outbox, o, row, j);
    }
  }

  lemma BeginMakes(s: State, o: nat, held: Request) returns (p: nat)
    requires o < |s.t.outbox| && s.t.outbox[o].status == Queued
    requires Ready(s, s.t.outbox[o].aggregateId, held)
    ensures Makes(s, s.(t := BeginDispatch(s.t, o).0), s.t.outbox[o].aggregateId, held.key, Counted(p))
  {
    hide Coupled, RowsOf, BalanceAt;
    var i := s.t.outbox[o].aggregateId;
    var row := s.t.outbox[o].(attempts := s.t.outbox[o].attempts + 1);
    p := UpdateViews(s.t.outbox, o, row);
    var s' := s.(t := BeginDispatch(s.t, o).0);
    assert ViewOf(s', i) == After(ViewOf(s, i), i, Counted(p));
  }

  lemma QueuedRow(s: State, o: nat, p: nat)
    requires o < |s.t.outbox| && s.t.outbox[o].status == Queued
    requires s.t.outbox[o].aggregateId < |s.t.requests|
    requires Coupled(ViewOf(s, s.t.outbox[o].aggregateId), s.t.outbox[o].aggregateId)
    requires p < |RowsOf(s.t.outbox, s.t.outbox[o].aggregateId)| &&
        RowsOf(s.t.outbox, s.t.outbox[o].aggregateId)[p] == s.t.outbox[o]
    ensures var row := s.t.outbox[o];
            var v := ViewOf(s, row.aggregateId);
            && row.payload == BuildCommand(row.aggregateId, s.t.requests[row.aggregateId], row.operation)
            && (if row.operation == File then p == 0 && FileQueued(v) && v.req.status == PendingSync
                else p == 1 && ReverseQueued(v) && v.req.status.Terminal())
  {
    QueuedRowPosition(ViewOf(s, s.t.outbox[o].aggregateId), s.t.outbox[o].aggregateId, p);
  }

  lemma QueuedRowOf(s: State, o: nat)
    requires o < |s.t.outbox| && s.t.outbox[o].status == Queued
    requires s.t.outbox[o].aggregateId < |s.t.requests|
    requires Coupled(ViewOf(s, s.t.outbox[o].aggregateId), s.t.outbox[o].aggregateId)
    ensures var row := s.t.outbox[o];
            var v := ViewOf(s, row.aggregateId);
            && row.payload == BuildCommand(row.aggregateId, s.t.requests[row.aggregateId], row.operation)
            && (if row.operation == File then FileQueued(v) && v.rows[0] == row && v.req.status == PendingSync
                else ReverseQueued(v) && v.rows[1] == row && v.req.status.Terminal())
  {
    RowIsListed(s.t.outbox, o);
    var i := s.t.outbox[o].aggregateId;
    var p :| 0 <= p < |RowsOf(s.t.outbox, i)| && RowsOf(s.t.outbox, i)[p] == s.t.outbox[o];
    QueuedRow(s, o, p);
  }

  function FilePostLands(h: Hcm, c: Command, silent: bool): bool {
    !silent && c.key in h.balances && h.balances[c.key] >= c.days
  }

  lemma FirstFilePostMakes(s: State, i: nat, at: int, silent: bool)
    requires i < |s.t.requests| && FileQueued(ViewOf(s, i)) && ViewOf(s, i).fileAnswer.None?
    requires forall o :: 0 <= o < |s.t.outbox| ==> s.t.outbox[o].aggregateId < |s.t.requests|
    ensures var c := BuildCommand(i, s.t.requests[i], File);
            Makes(s, s.(hcm := FilePost(s.hcm, c, at, silent).0), i, s.t.requests[i].key,
                  FileHeard(FilePost(s.hcm, c, at, silent).1, FilePostLands(s.hcm, c, silent)))
  {
    hide RowsOf, RowAt;
    var c := BuildCommand(i, s.t.requests[i], File);
    var s' := s.(hcm := FilePost(s.hcm, c, at, silent).0);
    assert HcmKey(i, File) !in s.hcm.answers;
    forall j | 0 <= j < |s.t.requests| && j != i ensures ViewOf(s', j) == ViewOf(s, j) {
    }
  }

  lemma FirstReversePostMakes(s: State, i: nat, at: int)
    requires i < |s.t.requests| && ReverseQueued(ViewOf(s, i)) && ViewOf(s, i).reverseAnswer.None?
    requires ViewOf(s, i).filed.Some? ==> s.t.requests[i].key in s.hcm.balances
    requires forall o :: 0 <= o < |s.t.outbox| ==> s.t.outbox[o].aggregateId < |s.t.requests|
    ensures var c := BuildCommand(i, s.t.requests[i], Reverse);
            Makes(s, s.(hcm := ReversePost(s.hcm, c, at).0), i, s.t.requests[i].key,
                ReverseHeard(at, MovesOnReverse(s.hcm, c)))
  {
    hide RowsOf, RowAt;
    var c := BuildCommand(i, s.t.requests[i], Reverse);
    var s' := s.(hcm := ReversePost(s.hcm, c, at).0);
    assert HcmKey(i, Reverse) !in s.hcm.answers;
    forall j | 0 <= j < |s.t.requests| && j != i ensures ViewOf(s', j) == ViewOf(s, j) {
    }
  }

  // What the environment had to do for a call to have the effect m.
  ghost predicate Explains(s: State, i: nat, script: seq<Delivery>, m: Move)
    requires i < |s.t.requests|
  {
    match m
    case FileHeard(answer, landed) =>
      && (landed && answer.Acked? ==> Delivered(answer.at, false, true) in Heard(script))
      && (answer.Acked? && !landed ==> Delivered(answer.at, true, true) in Heard(script))
    case ReverseHeard(at, landed) =>
      && (landed ==> exists silent :: Delivered(at, silent, true) in Heard(script))
      && (landed && s.hcm.reverseNeedsFile ==> ViewOf(s, i).filed.Some?)
    case _ => false
  }

  predicate Unheard(h: Hcm, row: OutboxRow) {
    HcmKey(row.aggregateId, row.operation) !in h.answers
  }

  // The HCM call made for a queued row: nothing, or one first answer for the row's key.
  lemma CallMakes(s: State, o: nat, script: seq<Delivery>) returns (heard: bool, m: Move)
    requires o < |s.t.outbox| && s.t.outbox[o].status == Queued
    requires forall q :: 0 <= q < |s.t.outbox| ==> s.t.outbox[q].aggregateId < |s.t.requests|
    requires Coupled(ViewOf(s, s.t.outbox[o].aggregateId), s.t.outbox[o].aggregateId)
    requires ViewOf(s, s.t.outbox[o].aggregateId).filed.Some? ==>
        s.t.requests[s.t.outbox[o].aggregateId].key in s.hcm.balances
    ensures var row := s.t.outbox[o];
            var h' := Send(s.hcm, row.payload, row.operation, script, s.config.maxAttempts).0;
            if heard then Makes(s, s.(hcm := h'), row.aggregateId, s.t.requests[row.aggregateId].key, m)
                          && Explains(s, row.aggregateId, script, m)
            else h' == s.hcm
    ensures var row := s.t.outbox[o];
            && (heard <==> Arrives(script, s.config.maxAttempts) && Unheard(s.hcm, row))
            && (heard ==> if row.operation == File then m.FileHeard?
                          else m.ReverseHeard? && m.landed == MovesOnReverse(s.hcm, row.payload))
    ensures var row := s.t.outbox[o];
            var (h', result) := Send(s.hcm, row.payload, row.operation, script, s.config.maxAttempts);
            && h'.answers.Keys <= s.hcm.answers.Keys + {HcmKey(row.aggregateId, row.operation)}
            && h'.effects.Keys <= s.hcm.effects.Keys + {HcmKey(row.aggregateId, row.operation)}
            && (result.Some? ==> Lookup(h'.answers, row.payload.idempotencyKey) == Some(Acked(result.value)))
  {
    hide RowsOf, Makes, Send, RowAt, Coupled;
    var row := s.t.outbox[o];
    var i := row.aggregateId;
    QueuedRowOf(s, o);
    var at, silent := SendIsOnePost(s.hcm, row.payload, row.operation, script, s.config.maxAttempts);
    heard := Arrives(script, s.config.maxAttempts) && HcmKey(i, row.operation) !in s.hcm.answers;
    if row.operation == File {
      m := FileHeard(FilePost(s.hcm, row.payload, at, silent).1, FilePostLands(s.hcm, row.payload, silent));
      if heard {
        FirstFilePostMakes(s, i, at, silent);
      }
    } else {
      m := ReverseHeard(at, MovesOnReverse(s.hcm, row.payload));
      if heard {
        FirstReversePostMakes(s, i, at);
      }
    }
  }

  lemma AckMakes(s: State, o: nat, held: Request, at: int)
    requires o < |s.t.outbox| && s.t.outbox[o].status == Queued
    requires Ready(s, s.t.outbox[o].aggregateId, held)
    requires Lookup(s.hcm.answers, s.t.outbox[o].payload.idempotencyKey) == Some(Acked(at))
    requires !SaveClashes(s.t.requests, s.t.outbox[o].aggregateId, held)
    ensures Makes(s, s.(t := EndDispatch(s.t, o, s.t.outbox[o], held, Some(at), s.config.maxAttempts)),
                  s.t.outbox[o].aggregateId, held.key,
                  if s.t.outbox[o].operation == File then FileAcked(at) else ReverseAcked(at))
  {
    hide RowsOf, Coupled, BalanceAt, SaveClashes;
    var row := s.t.outbox[o];
    var i := row.aggregateId;
    var p := UpdateViews(s.t.outbox, o, row.(status := Sent));
    QueuedRow(s, o, p);
    var s' := s.(t := EndDispatch(s.t, o, row, held, Some(at), s.config.maxAttempts));
    var m := if row.operation == File then FileAcked(at) else ReverseAcked(at);
    assert ViewOf(s', i) == After(ViewOf(s, i), i, m);
  }

  lemma GiveUpFileMakes(s: State, o: nat, held: Request)
    requires o < |s.t.outbox| && s.t.outbox[o].status == Queued && s.t.outbox[o].operation == File
    requires Ready(s, s.t.outbox[o].aggregateId, held)
    requires s.t.outbox[o].attempts >= s.config.maxAttempts
    requires !SaveClashes(s.t.requests, s.t.outbox[o].aggregateId, held)
    ensures Makes(s, s.(t := EndDispatch(s.t, o, s.t.outbox[o], held, None, s.config.maxAttempts)),
                  s.t.outbox[o].aggregateId, held.key, FileGivenUp)
  {
    hide RowsOf, Coupled, BalanceAt, SaveClashes;
    var row := s.t.outbox[o];
    var i := row.aggregateId;
    var p := UpdateViews(s.t.outbox, o, row.(status := RowStatus.Failed));
    QueuedRow(s, o, p);
    var s' := s.(t := EndDispatch(s.t, o, row, held, None, s.config.maxAttempts));
    assert BuildRow(i, held, Reverse) == BuildRow(i, Bare(held), Reverse);
    EnqueueViews(s.t.outbox[o := row.(status := RowStatus.Failed)], BuildRow(i, held, Reverse));
    assert ViewOf(s', i) == After(ViewOf(s, i), i, FileGivenUp);
  }

  lemma GiveUpReverseMakes(s: State, o: nat, held: Request)
    requires o < |s.t.outbox| && s.t.outbox[o].status == Queued && s.t.outbox[o].operation == Reverse
    requires Ready(s, s.t.outbox[o].aggregateId, held)
    requires s.t.outbox[o].attempts >= s.config.maxAttempts
    ensures Makes(s, s.(t := EndDispatch(s.t, o, s.t.outbox[o], held, None, s.config.maxAttempts)),
                  s.t.outbox[o].aggregateId, held.key, ReverseGivenUp)
  {
    hide RowsOf, Coupled, BalanceAt, SaveClashes;
    var row := s.t.outbox[o];
    var i := row.aggregateId;
    var p := UpdateViews(s.t.outbox, o, row.(status := RowStatus.Failed));
    QueuedRow(s, o, p);
    var s' := s.(t := EndDispatch(s.t, o, row, held, None, s.config.maxAttempts));
    assert ViewOf(s', i) == After(ViewOf(s, i), i, ReverseGivenUp);
  }

  // Transaction 2 for a row captured by transaction 1: nothing (retry later, or aborted by UNIQUE), or one move.
  lemma EndMakes(s: State, o: nat, held: Request, result: Option<int>) returns (moved: bool, m: Move)
    requires o < |s.t.outbox| && s.t.outbox[o].status == Queued
    requires Ready(s, s.t.outbox[o].aggregateId, held)
    requires result.Some? ==> Lookup(s.hcm.answers, s.t.outbox[o].payload.idempotencyKey) == Some(Acked(result.value))
    ensures var t' := EndDispatch(s.t, o, s.t.outbox[o], held, result, s.config.maxAttempts);
            if moved then Makes(s, s.(t := t'), s.t.outbox[o].aggregateId, held.key, m) else t' == s.t
    ensures var row := s.t.outbox[o];
            var aborted := SaveClashes(s.t.requests, row.aggregateId, held);
            && (moved <==> if result.Some? then !aborted
                           else row.attempts >= s.config.maxAttempts && (row.operation == File ==> !aborted))
            && (moved ==> m == if result.Some? then if row.operation == File then FileAcked(result.value)
                else ReverseAcked(result.value)
                               else if row.operation == File then FileGivenUp else ReverseGivenUp)
  {
    var row := s.t.outbox[o];
    moved, m := false, Undone;
    if result.Some? {
      if !SaveClashes(s.t.requests, row.aggregateId, held) {
        AckMakes(s, o, held, result.value);
        moved, m := true, if row.operation == File then FileAcked(result.value) else ReverseAcked(result.value);
      }
    } else if row.attempts < s.config.maxAttempts {
      assert s.t.outbox[o := row] == s.t.outbox;
    } else if row.operation == File {
      if !SaveClashes(s.t.requests, row.aggregateId, held) {
        GiveUpFileMakes(s, o, held);
        moved, m := true, FileGivenUp;
      }
    } else {
      GiveUpReverseMakes(s, o, held);
      moved, m := true, ReverseGivenUp;
    }
  }
}
