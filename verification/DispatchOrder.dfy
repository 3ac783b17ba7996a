// One tick of the dispatcher, row by row: every queued row is tried once, and the older of two rows is posted first.
module DispatchOrder {
  import opened Entities
  import opened OutboxTable
  import opened MockHcm
  import opened HcmCall
  import opened Lifecycle
  import opened Machine
  import opened Automaton
  import opened Refinement
  import opened Invariant
  import opened Dispatch

  // ---- Every queued row once --------------------------------------------------------------------------------

  predicate Distinct(ids: seq<nat>) {
    forall i, j :: 0 <= i < j < |ids| ==> ids[i] != ids[j]
  }

  lemma {:induction false} DispatchAllTriesOnce(t: Tables, h: Hcm, ids: seq<nat>, scripts: seq<seq<Delivery>>, max: nat,
      o: nat)
    requires Sound(t) && Distinct(ids) && o < |t.outbox|
    ensures var t' := DispatchAll(t, h, ids, scripts, max).0;
            && |t.outbox| <= |t'.outbox|
            && (if o in ids && t.outbox[o].status == Queued then t'.outbox[o].attempts == t.outbox[o].attempts + 1
                else t'.outbox[o] == t.outbox[o])
    decreases |ids|
  {
    hide DispatchOne;
    if ids != [] {
      var (t', h') := DispatchOne(t, h, ids[0], Script(scripts), max);
      if Dispatchable(t, ids[0]) {
        DispatchOneRows(t, h, ids[0], Script(scripts), max);
      } else {
        DispatchNothing(t, h, ids[0], Script(scripts), max);
      }
      assert o in ids <==> o == ids[0] || o in ids[1..];
      assert forall i :: 0 < i < |ids| ==> ids[0] != ids[i];
      DispatchAllTriesOnce(t', h', ids[1..], Later(scripts), max, o);
    }
  }

  // The REVERSE rows a tick writes wait for the next one.
  ghost predicate NewRowsWait(outbox: seq<OutboxRow>, n: nat) {
    forall p :: n <= p < |outbox| ==>
      outbox[p].operation == Reverse && outbox[p].status == Queued && outbox[p].attempts == 0
  }

  lemma {:induction false} DispatchAllLeavesNewRows(t: Tables, h: Hcm, ids: seq<nat>, scripts: seq<seq<Delivery>>,
      max: nat, n: nat)
    requires Sound(t) && n <= |t.outbox| && NewRowsWait(t.outbox, n) && forall o :: o in ids ==> o < n
    ensures NewRowsWait(DispatchAll(t, h, ids, scripts, max).0.outbox, n)
    decreases |ids|
  {
    hide DispatchOne;
    if ids != [] {
      assert ids[0] in ids && forall o :: o in ids[1..] ==> o in ids;
      var (t', h') := DispatchOne(t, h, ids[0], Script(scripts), max);
      if Dispatchable(t, ids[0]) {
        DispatchOneRows(t, h, ids[0], Script(scripts), max);
        FreshRowHasAttempts(t, h, ids[0], Script(scripts), max);
      } else {
        DispatchNothing(t, h, ids[0], Script(scripts), max);
      }
      DispatchAllLeavesNewRows(t', h', ids[1..], Later(scripts), max, n);
    }
  }

  // A tick adds one attempt to every row that is queued when it starts, and leaves every other row as it is; what
  // it adds to the table is tried by the next tick.
  lemma TickTriesEachQueuedRowOnce(t: Tables, h: Hcm, scripts: seq<seq<Delivery>>, max: nat, o: nat)
    requires Sound(t)
    ensures var t' := Tick(t, h, scripts, max).0;
            && NewRowsWait(t'.outbox, |t.outbox|)
            && (o < |t.outbox| ==>
                  && |t.outbox| <= |t'.outbox|
                  && (t.outbox[o].status == Queued ==> t'.outbox[o].attempts == t.outbox[o].attempts + 1)
                  && (t.outbox[o].status != Queued ==> t'.outbox[o] == t.outbox[o]))
  {
    hide DispatchAll;
    if o < |t.outbox| {
      DispatchAllTriesOnce(t, h, QueuedIds(t.outbox), scripts, max, o);
    }
    DispatchAllLeavesNewRows(t, h, QueuedIds(t.outbox), scripts, max, |t.outbox|);
  }

  // ---- Oldest first -----------------------------------------------------------------------------------------

  // What moved a balance has been answered.
  predicate Recorded(h: Hcm) {
    h.effects.Keys <= h.answers.Keys
  }

  predicate SameEffect(h: Hcm, h': Hcm, hk: HcmKey) {
    Lookup(h'.effects, hk) == Lookup(h.effects, hk)
  }

  predicate DeliversAt(script: seq<Delivery>, at: int) {
    exists d :: d in script && d.Delivered? && d.at == at
  }

  lemma SendTouchesItsKey(h: Hcm, c: Command, op: Operation, script: seq<Delivery>, max: nat, hk: HcmKey)
    requires Recorded(h)
    ensures var h' := Send(h, c, op, script, max).0;
            && Recorded(h')
            && (hk != c.idempotencyKey ==> SameEffect(h, h', hk) && (hk in h'.answers <==> hk in h.answers))
            && (hk in h.answers ==> hk in h'.answers && SameEffect(h, h', hk))
            && (hk in h'.effects && hk !in h.effects ==> DeliversAt(script, h'.effects[hk]))
  {
    hide Send, Heard;
    var at, silent := SendIsOnePost(h, c, op, script, max);
    if Arrives(script, max) {
      HeardIsDelivered(script, at, silent);
    }
  }

  lemma HeardIsDelivered(script: seq<Delivery>, at: int, silent: bool)
    requires Delivered(at, silent, true) in Heard(script)
    ensures DeliversAt(script, at)
  {
  }

  lemma DispatchOneRecord(t: Tables, h: Hcm, o: nat, script: seq<Delivery>, max: nat, hk: HcmKey)
    requires Recorded(h) && o < |t.outbox|
    ensures var h' := DispatchOne(t, h, o, script, max).1;
            && Recorded(h')
            && (hk != t.outbox[o].payload.idempotencyKey ==>
                  SameEffect(h, h', hk) && (hk in h'.answers <==> hk in h.answers))
            && (hk in h.answers ==> hk in h'.answers && SameEffect(h, h', hk))
            && (hk in h'.effects && hk !in h.effects ==> DeliversAt(script, h'.effects[hk]))
  {
    hide Send, EndDispatch, Recorded, DeliversAt;
    if Dispatchable(t, o) {
      SendTouchesItsKey(h, t.outbox[o].payload, t.outbox[o].operation, script, max, hk);
    }
  }

  // The rows `ids` are there, and the one row among them that carries the key hk, if any, is row `o`.
  ghost predicate OnlyRowOf(outbox: seq<OutboxRow>, ids: seq<nat>, hk: HcmKey, o: nat) {
    forall p :: p in ids ==> p < |outbox| && (outbox[p].payload.idempotencyKey == hk ==> p == o)
  }

  lemma RowsStay(t: Tables, h: Hcm, ids: seq<nat>, script: seq<Delivery>, max: nat, hk: HcmKey, o: nat)
    requires Sound(t) && ids != [] && OnlyRowOf(t.outbox, ids, hk, o)
    ensures var t' := DispatchOne(t, h, ids[0], script, max).0;
            Sound(t') && OnlyRowOf(t'.outbox, ids[1..], hk, o)
  {
    hide DispatchOne;
    assert ids[0] in ids && forall p :: p in ids[1..] ==> p in ids;
    if Dispatchable(t, ids[0]) {
      DispatchOneRows(t, h, ids[0], script, max);
    } else {
      DispatchNothing(t, h, ids[0], script, max);
    }
  }

  // A key of which no row is listed is not touched, nor is one that has been answered.
  lemma {:induction false} OthersLeaveKey(t: Tables, h: Hcm, ids: seq<nat>, scripts: seq<seq<Delivery>>, max: nat,
      hk: HcmKey, o: nat)
    requires Sound(t) && Recorded(h) && OnlyRowOf(t.outbox, ids, hk, o) && (o !in ids || hk in h.answers)
    ensures SameEffect(h, DispatchAll(t, h, ids, scripts, max).1, hk)
    decreases |ids|
  {
    hide DispatchOne, Recorded;
    if ids != [] {
      var (t', h') := DispatchOne(t, h, ids[0], Script(scripts), max);
      assert ids[0] in ids && forall p :: p in ids[1..] ==> p in ids;
      DispatchOneRecord(t, h, ids[0], Script(scripts), max, hk);
      RowsStay(t, h, ids, Script(scripts), max, hk, o);
      OthersLeaveKey(t', h', ids[1..], Later(scripts), max, hk, o);
    }
  }

  // A key is applied, if it is, by a delivery of the script of its own row.
  lemma {:induction false} LandsByOwnScript(t: Tables, h: Hcm, ids: seq<nat>, scripts: seq<seq<Delivery>>, max: nat,
      hk: HcmKey, o: nat) returns (n: nat)
    requires Sound(t) && Recorded(h) && Distinct(ids) && OnlyRowOf(t.outbox, ids, hk, o)
    requires o in ids && hk !in h.effects
    ensures n < |ids| && ids[n] == o
    ensures var h' := DispatchAll(t, h, ids, scripts, max).1;
            hk in h'.effects ==> n < |scripts| && DeliversAt(scripts[n], h'.effects[hk])
    decreases |ids|
  {
    hide DispatchOne, Recorded;
    var (t', h') := DispatchOne(t, h, ids[0], Script(scripts), max);
    assert ids[0] in ids;
    DispatchOneRecord(t, h, ids[0], Script(scripts), max, hk);
    RowsStay(t, h, ids, Script(scripts), max, hk, o);
    if ids[0] == o {
      n := 0;
      assert o !in ids[1..];
      OthersLeaveKey(t', h', ids[1..], Later(scripts), max, hk, o);
    } else {
      var m := LandsByOwnScript(t', h', ids[1..], Later(scripts), max, hk, o);
      n := m + 1;
    }
  }

  // A queued FILE is the only row of its request.
  lemma QueuedFileIsAlone(s: State, o: nat, p: nat)
    requires Inv(s) && o < |s.t.outbox| && p < |s.t.outbox| && o != p
    requires s.t.outbox[o].operation == File && s.t.outbox[o].status == Queued
    ensures s.t.outbox[p].aggregateId != s.t.outbox[o].aggregateId
  {
    hide BooksOk, WarmOk, LandedOk, HcmKeysOk, SectionsOk, KeysOk;
    var i := s.t.outbox[o].aggregateId;
    assert Coupled(ViewOf(s, i), i);
    RowIsListed(s.t.outbox, o);
    if s.t.outbox[p].aggregateId == i {
      TwoRowsAreTwo(s.t.outbox, if o < p then o else p, if o < p then p else o);
      var n :| 0 <= n < |RowsOf(s.t.outbox, i)| && RowsOf(s.t.outbox, i)[n] == s.t.outbox[o];
      QueuedRowPosition(ViewOf(s, i), i, n);
    }
  }

  lemma InvRecords(s: State)
    requires Inv(s)
    ensures Recorded(s.hcm)
  {
    hide BooksOk, WarmOk, LandedOk, SectionsOk, KeysOk;
    forall hk | hk in s.hcm.effects ensures hk in s.hcm.answers {
      assert hk in s.hcm.answers.Keys + s.hcm.effects.Keys;
      var v := ViewOf(s, hk.request);
      assert Coupled(v, hk.request);
      if hk.operation == File {
        assert hk == HcmKey(hk.request, File) && v.filed.Some?;
      } else {
        assert hk == HcmKey(hk.request, Reverse) && v.reversed.Some?;
      }
    }
  }

  // The key in the payload of a row.
  lemma RowCarriesKey(s: State, o: nat)
    requires Inv(s) && o < |s.t.outbox|
    ensures s.t.outbox[o].payload.idempotencyKey == HcmKey(s.t.outbox[o].aggregateId, s.t.outbox[o].operation)
  {
    hide BooksOk, WarmOk, LandedOk, SectionsOk, KeysOk, HcmKeysOk;
    var i := s.t.outbox[o].aggregateId;
    assert Coupled(ViewOf(s, i), i);
    RowIsListed(s.t.outbox, o);
    var n :| 0 <= n < |RowsOf(s.t.outbox, i)| && RowsOf(s.t.outbox, i)[n] == s.t.outbox[o];
    assert RowFor(ViewOf(s, i).rows[n], i, ViewOf(s, i).req, if n == 0 then File else Reverse);
  }

  // The scripts of a plan follow each other in time.
  ghost predicate InTime(scripts: seq<seq<Delivery>>) {
    forall m, n, at, at' :: 0 <= m < n < |scripts| && DeliversAt(scripts[m], at) && DeliversAt(scripts[n], at') ==>
      at < at'
  }

  // Of two queued FILE rows HCM has not answered yet, whoever they belong to, one tick posts the older before the
  // newer: if it applies both, it applies the older at an earlier instant.
  lemma OlderIsPostedFirst(s: State, scripts: seq<seq<Delivery>>, older: nat, newer: nat)
    requires Inv(s) && InTime(scripts) && older < newer < |s.t.outbox|
    requires s.t.outbox[older].operation == File && s.t.outbox[older].status == Queued
    requires s.t.outbox[newer].operation == File && s.t.outbox[newer].status == Queued
    requires HcmKey(s.t.outbox[older].aggregateId, File) !in s.hcm.answers
    requires HcmKey(s.t.outbox[newer].aggregateId, File) !in s.hcm.answers
    ensures var (a, b) := (HcmKey(s.t.outbox[older].aggregateId, File), HcmKey(s.t.outbox[newer].aggregateId, File));
            var effects := Tick(s.t, s.hcm, scripts, s.config.maxAttempts).1.effects;
            a in effects && b in effects ==> effects[a] < effects[b]
  {
    hide Tick, DeliversAt;
    var m := OneRowLands(s, scripts, older);
    var n := OneRowLands(s, scripts, newer);
    var ids := QueuedIds(s.t.outbox);
    assert m < n && ids[m] < ids[n];
  }

  lemma OneRowLands(s: State, scripts: seq<seq<Delivery>>, o: nat) returns (n: nat)
    requires Inv(s) && o < |s.t.outbox|
    requires s.t.outbox[o].operation == File && s.t.outbox[o].status == Queued
    requires HcmKey(s.t.outbox[o].aggregateId, File) !in s.hcm.answers
    ensures n < |QueuedIds(s.t.outbox)| && QueuedIds(s.t.outbox)[n] == o
    ensures var (hk, effects) := (HcmKey(s.t.outbox[o].aggregateId, File),
                                  Tick(s.t, s.hcm, scripts, s.config.maxAttempts).1.effects);
            hk in effects ==> n < |scripts| && DeliversAt(scripts[n], effects[hk])
  {
    hide Inv, DispatchAll, DeliversAt;
    var hk := HcmKey(s.t.outbox[o].aggregateId, File);
    var ids := QueuedIds(s.t.outbox);
    InvRecords(s);
    InvIsSound(s);
    forall p | p in ids ensures s.t.outbox[p].payload.idempotencyKey == hk ==> p == o {
      RowCarriesKey(s, p);
      if p != o {
        QueuedFileIsAlone(s, o, p);
      }
    }
    assert o in ids;
    n := LandsByOwnScript(s.t, s.hcm, ids, scripts, s.config.maxAttempts, hk, o);
  }

  lemma InvIsSound(s: State)
    requires Inv(s)
    ensures Sound(s.t)
  {
  }

  // ---- First come, first served -----------------------------------------------------------------------------

  // One dispatch of a FILE whose first post arrives and is answered: HCM takes the days if it has them ...
  lemma FileIsTaken(t: Tables, h: Hcm, o: nat, at: int, max: nat)
    requires KeysOk(t.requests) && Dispatchable(t, o) && max >= 1
    requires t.outbox[o].operation == File && t.outbox[o].payload.idempotencyKey !in h.answers
    requires var c := t.outbox[o].payload; c.key in h.balances && c.days <= h.balances[c.key]
    ensures var (row, c) := (t.outbox[o], t.outbox[o].payload);
            var (t', h') := DispatchOne(t, h, o, [Delivered(at, false, false)], max);
            && t'.requests == t.requests[row.aggregateId :=
                                t.requests[row.aggregateId].(hcmAckAt := Some(at), status := Approved)]
            && t'.outbox == t.outbox[o := row.(attempts := row.attempts + 1, status := Sent)]
            && t'.balances == t.balances
            && h'.balances == h.balances[c.key := h.balances[c.key] - c.days]
            && h'.answers == h.answers[c.idempotencyKey := Acked(at)]
  {
    hide EndDispatch;
    var row := t.outbox[o].(attempts := t.outbox[o].attempts + 1);
    AnswerEndsCall(h, row.payload, File, [Delivered(at, false, false)], max);
    hide Send;
    AckIsSaved(BeginDispatch(t, o).0, o, row, t.requests[row.aggregateId], at, max);
  }

  lemma AckIsSaved(t: Tables, o: nat, row: OutboxRow, held: Request, at: int, max: nat)
    requires KeysOk(t.requests) && o < |t.outbox| && row.aggregateId < |t.requests|
    requires held == t.requests[row.aggregateId] && row.operation == File
    ensures EndDispatch(t, o, row, held, Some(at), max)
         == t.(requests := t.requests[row.aggregateId := held.(hcmAckAt := Some(at), status := Approved)],
               outbox := t.outbox[o := row.(status := Sent)])
  {
  }

  // ... and refuses for good if it has not; with no try left the request is rejected, its days are given back and
  // a REVERSE follows.
  lemma FileIsRefused(t: Tables, h: Hcm, o: nat, at: int, max: nat)
    requires KeysOk(t.requests) && Dispatchable(t, o) && max >= 1
    requires t.outbox[o].operation == File && t.outbox[o].payload.idempotencyKey !in h.answers
    requires var c := t.outbox[o].payload; c.key in h.balances && h.balances[c.key] < c.days
    ensures var (row, r) := (t.outbox[o], t.requests[t.outbox[o].aggregateId]);
            var (t', h') := DispatchOne(t, h, o, [Delivered(at, false, false)], max);
            && h' == h.(answers := h.answers[row.payload.idempotencyKey := Answer.Refused])
            && (row.attempts + 1 < max ==> t' == t.(outbox := t.outbox[o := row.(attempts := row.attempts + 1)]))
            && (row.attempts + 1 >= max ==>
                  && t'.requests == t.requests[row.aggregateId := r.(status := Rejected)]
                  && |t'.outbox| == |t.outbox| + 1
                  && RowAt(t'.balances, r.key).available == RowAt(t.balances, r.key).available + r.days)
  {
    hide EndDispatch;
    var row := t.outbox[o].(attempts := t.outbox[o].attempts + 1);
    AnswerEndsCall(h, row.payload, File, [Delivered(at, false, false)], max);
    hide Send;
    var t1 := BeginDispatch(t, o).0;
    RefusalIsSaved(t1, o, row, t.requests[row.aggregateId], max);
    assert t1.outbox[o := row] == t.outbox[o := row];
  }

  lemma RefusalIsSaved(t: Tables, o: nat, row: OutboxRow, held: Request, max: nat)
    requires KeysOk(t.requests) && o < |t.outbox| && row.aggregateId < |t.requests|
    requires held == t.requests[row.aggregateId] && row.operation == File
    ensures var t' := EndDispatch(t, o, row, held, None, max);
            && (row.attempts < max ==> t' == t.(outbox := t.outbox[o := row]))
            && (row.attempts >= max ==>
                  && t'.requests == t.requests[row.aggregateId := held.(status := Rejected)]
                  && |t'.outbox| == |t.outbox| + 1
                  && RowAt(t'.balances, held.key).available == RowAt(t.balances, held.key).available + held.days)
  {
  }

  // Two days under way and an HCM that has not enough for both: the request approved first gets its days.
  lemma FirstComeFirstServed(s: State, older: nat, newer: nat, at: int, at': int)
    requires Inv(s) && s.config.maxAttempts >= 1 && older < newer < |s.t.outbox|
    requires forall o :: 0 <= o < |s.t.outbox| ==> (s.t.outbox[o].status == Queued <==> o == older || o == newer)
    requires s.t.outbox[older].operation == File && s.t.outbox[newer].operation == File
    requires var (i, j) := (s.t.outbox[older].aggregateId, s.t.outbox[newer].aggregateId);
             && i < |s.t.requests| && j < |s.t.requests|
             && HcmKey(i, File) !in s.hcm.answers && HcmKey(j, File) !in s.hcm.answers
             && var (r, q) := (s.t.requests[i], s.t.requests[j]);
                r.key == q.key && r.key in s.hcm.balances && r.days <= s.hcm.balances[r.key] < r.days + q.days
    ensures var (i, j) := (s.t.outbox[older].aggregateId, s.t.outbox[newer].aggregateId);
            var scripts := [[Delivered(at, false, false)], [Delivered(at', false, false)]];
            var (t', h') := Tick(s.t, s.hcm, scripts, s.config.maxAttempts);
            && i < |t'.requests| && j < |t'.requests|
            && t'.requests[i].status == Approved && t'.requests[i].hcmAckAt == Some(at)
            && t'.requests[j].status ==
                 (if s.t.outbox[newer].attempts + 1 < s.config.maxAttempts then PendingSync else Rejected)
            && HcmKey(j, File) in h'.answers && h'.answers[HcmKey(j, File)] == Answer.Refused
  {
    hide DispatchOne, DispatchAll;
    var (t, h, max) := (s.t, s.hcm, s.config.maxAttempts);
    var scripts := [[Delivered(at, false, false)], [Delivered(at', false, false)]];
    InOrder(QueuedIds(t.outbox), older, newer);
    TwoDispatches(t, h, older, newer, scripts, max);
    QueuedFile(s, older);
    QueuedFile(s, newer);
    QueuedFileIsAlone(s, older, newer);
    FileIsTaken(t, h, older, at, max);
    var (t1, h1) := DispatchOne(t, h, older, scripts[0], max);
    FileIsRefused(t1, h1, newer, at', max);
  }

  lemma TwoDispatches(t: Tables, h: Hcm, o: nat, p: nat, scripts: seq<seq<Delivery>>, max: nat)
    requires |scripts| == 2
    ensures DispatchAll(t, h, [o, p], scripts, max)
         == (var (t', h') := DispatchOne(t, h, o, scripts[0], max); DispatchOne(t', h', p, scripts[1], max))
  {
    hide DispatchOne;
    var (t', h') := DispatchOne(t, h, o, scripts[0], max);
    assert [o, p][1..] == [p] && [p][1..] == [] && scripts[1..] == [scripts[1]];
    var (t2, h2) := DispatchOne(t', h', p, scripts[1], max);
    assert DispatchAll(t', h', [p], [scripts[1]], max) == DispatchAll(t2, h2, [], [scripts[1]][1..], max);
  }

  lemma InOrder(ids: seq<nat>, o: nat, p: nat)
    requires o < p && forall q: nat :: q in ids <==> q == o || q == p
    requires forall i, j :: 0 <= i < j < |ids| ==> ids[i] < ids[j]
    ensures ids == [o, p]
  {
    assert o in ids && p in ids;
    var m :| 0 <= m < |ids| && ids[m] == o;
    var n :| 0 <= n < |ids| && ids[n] == p;
    assert ids[0] in ids && m == 0;
    assert ids[1] in ids && n == 1;
    assert ids[|ids| - 1] in ids;
  }

  lemma QueuedFile(s: State, o: nat)
    requires Inv(s) && o < |s.t.outbox|
    requires s.t.outbox[o].operation == File && s.t.outbox[o].status == Queued
    ensures var (i, c) := (s.t.outbox[o].aggregateId, s.t.outbox[o].payload);
            && i < |s.t.requests| && s.t.requests[i].status == PendingSync
            && c.key == s.t.requests[i].key && c.days == s.t.requests[i].days && c.idempotencyKey == HcmKey(i, File)
    ensures KeysOk(s.t.requests)
  {
    hide BooksOk, WarmOk, LandedOk, SectionsOk, HcmKeysOk;
    var i := s.t.outbox[o].aggregateId;
    assert Coupled(ViewOf(s, i), i);
    RowIsListed(s.t.outbox, o);
    var n :| 0 <= n < |RowsOf(s.t.outbox, i)| && RowsOf(s.t.outbox, i)[n] == s.t.outbox[o];
    QueuedRowPosition(ViewOf(s, i), i, n);
    assert RowFor(ViewOf(s, i).rows[n], i, ViewOf(s, i).req, if n == 0 then File else Reverse);
  }
}
