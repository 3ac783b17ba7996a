// The outbox as a table of rows, and the rows of one request in the order they were written.
module OutboxTable {
  import opened Entities

  function RowsOf(outbox: seq<OutboxRow>, id: nat): (rows: seq<OutboxRow>)
    ensures forall p :: 0 <= p < |rows| ==> rows[p].aggregateId == id
  {
    if outbox == [] then []
    else
      var last := outbox[|outbox| - 1];
      RowsOf(outbox[..|outbox| - 1], id) + if last.aggregateId == id then [last] else []
  }

  // UPDATE outbox SET status = VOIDED WHERE aggregateId = id AND operation = FILE AND status = PENDING
  function VoidRow(row: OutboxRow, id: nat): OutboxRow {
    if row.aggregateId == id && row.operation == File && row.status == Queued then row.(status := Voided) else row
  }

  function VoidQueuedFiles(outbox: seq<OutboxRow>, id: nat): (voided: seq<OutboxRow>)
    ensures |voided| == |outbox|
    ensures forall o :: 0 <= o < |outbox| ==> voided[o] == VoidRow(outbox[o], id)
  {
    if outbox == [] then []
    else VoidQueuedFiles(outbox[..|outbox| - 1], id) + [VoidRow(outbox[|outbox| - 1], id)]
  }

  lemma RowsAfterAppend(outbox: seq<OutboxRow>, row: OutboxRow, id: nat)
    ensures RowsOf(outbox + [row], id) == RowsOf(outbox, id) + if row.aggregateId == id then [row] else []
  {
    assert (outbox + [row])[..|outbox|] == outbox;
  }

  // Replacing row `o` replaces one entry of its request's rows and no other request's rows.
  lemma {:induction false} RowsAfterUpdate(outbox: seq<OutboxRow>, o: nat, row: OutboxRow, id: nat) returns (p: nat)
    requires o < |outbox| && row.aggregateId == outbox[o].aggregateId
    ensures id != row.aggregateId ==> RowsOf(outbox[o := row], id) == RowsOf(outbox, id)
    ensures id == row.aggregateId ==>
              && p < |RowsOf(outbox, id)| && RowsOf(outbox, id)[p] == outbox[o]
              && RowsOf(outbox[o := row], id) == RowsOf(outbox, id)[p := row]
  {
    var n := |outbox| - 1;
    if o == n {
      assert outbox[o := row][..n] == outbox[..n];
      p := |RowsOf(outbox[..n], id)|;
    } else {
      assert outbox[o := row][..n] == outbox[..n][o := row];
      p := RowsAfterUpdate(outbox[..n], o, row, id);
    }
  }

  lemma {:induction false} RowsAfterVoid(outbox: seq<OutboxRow>, voidedId: nat, id: nat)
    ensures RowsOf(VoidQueuedFiles(outbox, voidedId), id)
         == if id == voidedId then VoidQueuedFiles(RowsOf(outbox, id), id) else RowsOf(outbox, id)
  {
    if outbox != [] {
      var n := |outbox| - 1;
      var voided := VoidQueuedFiles(outbox, voidedId);
      assert voided[..n] == VoidQueuedFiles(outbox[..n], voidedId);
      RowsAfterVoid(outbox[..n], voidedId, id);
      var rows := RowsOf(outbox[..n], id);
      assert (rows + [outbox[n]])[..|rows|] == rows;
    }
  }

  // Every row of the table is among its request's rows, and the other way round.
  lemma {:induction false} RowIsListed(outbox: seq<OutboxRow>, o: nat)
    requires o < |outbox|
    ensures outbox[o] in RowsOf(outbox, outbox[o].aggregateId)
  {
    if o < |outbox| - 1 {
      RowIsListed(outbox[..|outbox| - 1], o);
    }
  }

  lemma {:induction false} TwoRowsAreTwo(outbox: seq<OutboxRow>, o: nat, p: nat)
    requires o < p < |outbox| && outbox[o].aggregateId == outbox[p].aggregateId
    ensures |RowsOf(outbox, outbox[o].aggregateId)| >= 2
  {
    var n := |outbox| - 1;
    if p == n {
      RowIsListed(outbox[..n], o);
    } else {
      TwoRowsAreTwo(outbox[..n], o, p);
    }
  }

  lemma {:induction false} ListedRowIsStored(outbox: seq<OutboxRow>, id: nat, p: nat) returns (o: nat)
    requires p < |RowsOf(outbox, id)|
    ensures o < |outbox| && outbox[o] == RowsOf(outbox, id)[p]
  {
    var n := |outbox| - 1;
    var rows := RowsOf(outbox[..n], id);
    if p < |rows| {
      o := ListedRowIsStored(outbox[..n], id, p);
    } else {
      o := n;
    }
  }

  lemma {:induction false} NoRowsForFreshId(outbox: seq<OutboxRow>, id: nat)
    requires forall o :: 0 <= o < |outbox| ==> outbox[o].aggregateId != id
    ensures RowsOf(outbox, id) == []
  {
    if outbox != [] {
      NoRowsForFreshId(outbox[..|outbox| - 1], id);
    }
  }
}
