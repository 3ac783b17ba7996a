// saveWithRetry of src/balance/balance.service.ts: save a mutated row under optimistic locking against an
// adversary that may rewrite or delete the row before every access, or make a save fail otherwise.
//
// Elsewhere a mutation of a balance row is one atomic update; SaveWithRetry says that this is what it is.
// The store's part is taken from what the code expects of it: a save goes through when the stored version is the
// entity's and is a version mismatch otherwise; an insert that finds a row is refused by the primary key.
module OptimisticSave {
  import opened Entities
  import opened Lifecycle

  // `Gone` is a row that was deleted; the source never creates it again.
  datatype Row = Never | Stored(balance: Balance, version: nat) | Gone

  datatype Entity = Entity(balance: Balance, version: Option<nat>)

  datatype Interference = Nothing | Rewrite(balance: Balance) | Vanish | OtherFailure

  datatype SaveOutcome = Saved | Exhausted | Vanished | OtherError

  function Interfere(row: Row, i: Interference): Row {
    match (row, i)
    case (Never, Rewrite(b)) => Stored(b, 1)
    case (Stored(_, v), Rewrite(b)) => Stored(b, v + 1)
    case (Stored(_, _), Vanish) => Gone
    case _ => row
  }

  function Access(script: seq<Interference>, n: nat): Interference {
    if n < |script| then script[n] else Nothing
  }

  // The row as access n finds it, when nobody but the adversary has written.
  function Seen(row: Row, script: seq<Interference>, n: nat): Row
    decreases n
  {
    Interfere(if n == 0 then row else Seen(row, script, n - 1), Access(script, n))
  }

  // findOrCreate: a row that does not exist yet is a zero entity without a version.
  function EntityOf(row: Row): Entity {
    match row
    case Stored(b, v) => Entity(b, Some(v))
    case _ => Entity(ZERO_BALANCE, None)
  }

  // Attempt i saves at access 2i what was loaded at access 2i - 1, the first attempt what its caller loaded.
  function LoadedFor(row: Row, script: seq<Interference>, i: nat): Row {
    if i == 0 then row else Seen(row, script, 2 * i - 1)
  }

  predicate Undisturbed(row: Row, script: seq<Interference>, i: nat) {
    Seen(row, script, 2 * i) == LoadedFor(row, script, i)
  }

  // A failure that is not a version mismatch.
  predicate FailsOtherwise(row: Row, script: seq<Interference>, i: nat) {
    Access(script, 2 * i).OtherFailure? || (!Undisturbed(row, script, i) && LoadedFor(row, script, i) == Never)
  }

  predicate MustReload(row: Row, script: seq<Interference>, i: nat) {
    !FailsOtherwise(row, script, i) && !Undisturbed(row, script, i)
  }

  datatype SaveReply = Done | Mismatch | KeyConflict

  lemma OneAttempt(row: Row, script: seq<Interference>, i: nat)
    ensures LoadedFor(row, script, 0) == row
    ensures Seen(row, script, 2 * i) == Interfere(LoadedFor(row, script, i), Access(script, 2 * i))
    ensures LoadedFor(row, script, i + 1) == Seen(row, script, 2 * i + 1)
         == Interfere(Seen(row, script, 2 * i), Access(script, 2 * i + 1))
  {
  }

  // The version tells whether a row was touched.
  lemma TouchedIffOtherVersion(row: Row, i: Interference)
    requires row != Gone
    ensures Interfere(row, i) == row <==>
        Interfere(row, i) != Gone && EntityOf(Interfere(row, i)).version == EntityOf(row).version
    ensures i == OtherFailure ==> Interfere(row, i) == row
  {
  }

  // ---- What a save is to the balance table ----------------------------------------------------------------

  // The row is what the table of balances holds under k.
  ghost predicate Represents(row: Row, balances: map<BalanceKey, Balance>, k: BalanceKey) {
    match row
    case Never => k !in balances
    case Stored(b, _) => k in balances && balances[k] == b
    case Gone => false
  }

  // `after` is one update of the table in which the row was `before`: what module Balances takes each of its
  // mutations to be.
  ghost predicate IsOneUpdate(before: Row, after: Row, mutate: Balance -> Balance) {
    forall balances, k | Represents(before, balances, k) ::
      Represents(after, balances[k := mutate(RowAt(balances, k))], k)
  }

  lemma SavedIsOneUpdate(before: Row, version: nat, mutate: Balance -> Balance)
    ensures IsOneUpdate(before, Stored(mutate(EntityOf(before).balance), version), mutate)
  {
  }

  const MAX_OPTIMISTIC_RETRIES := 5

  class BalanceRow {
    var row: Row

    constructor (row: Row)
      ensures this.row == row
    {
      this.row := row;
    }

    method Meanwhile(i: Interference)
      modifies this
      ensures row == Interfere(old(row), i)
    {
      row := Interfere(row, i);
    }

    method Save(e: Entity) returns (reply: SaveReply)
      modifies this
      ensures reply == Done <==> old(row) != Gone && e.version == EntityOf(old(row)).version
      ensures reply == KeyConflict <==> e.version == None && old(row) != Never
      ensures reply == Done ==> row == Stored(e.balance, if e.version.Some? then e.version.value + 1 else 1)
      ensures reply != Done ==> row == old(row)
    {
      if e.version == None {
        if row != Never {
          return KeyConflict;
        }
        row := Stored(e.balance, 1);
        return Done;
      }
      if !row.Stored? || row.version != e.version.value {
        return Mismatch;
      }
      row := Stored(e.balance, row.version + 1);
      reply := Done;
    }

    // Six saves at most. The one that goes through leaves the mutation of the row as it stood at that moment,
    // applied once; a call that throws has written nothing.
    method SaveWithRetry(loaded: Entity, mutate: Balance -> Balance, script: seq<Interference>)
        returns (r: SaveOutcome, saves: nat)
      requires row != Gone && loaded == EntityOf(row)
      modifies this
      ensures 1 <= saves <= 6
      ensures forall i :: 0 <= i < saves - 1 ==>
          MustReload(old(row), script, i) && Seen(old(row), script, 2 * i + 1) != Gone
      ensures r == (if FailsOtherwise(old(row), script, saves - 1) then OtherError
                    else if Undisturbed(old(row), script, saves - 1) then Saved
                    else if saves == 6 then Exhausted
                    else Vanished)
      ensures r == Saved ==>
                var before := EntityOf(Seen(old(row), script, 2 * (saves - 1)));
                row == Stored(mutate(before.balance), if before.version.Some? then before.version.value + 1 else 1)
      ensures r == Saved ==> IsOneUpdate(Seen(old(row), script, 2 * (saves - 1)), row, mutate)
      ensures r == Vanished ==> row == Seen(old(row), script, 2 * saves - 1) == Gone
      ensures r == Exhausted || r == OtherError ==> row == Seen(old(row), script, 2 * (saves - 1))
    {
      hide Seen, Interfere, LoadedFor, IsOneUpdate;
      ghost var start := row;
      OneAttempt(start, script, 0);
      var current := Entity(mutate(loaded.balance), loaded.version);
      saves := 0;
      var attempt := 0;
      while attempt <= MAX_OPTIMISTIC_RETRIES
        invariant 0 <= attempt <= 5 && saves == attempt
        invariant row == LoadedFor(start, script, attempt) != Gone
        invariant current == Entity(mutate(EntityOf(row).balance), EntityOf(row).version)
        invariant forall i :: 0 <= i < attempt ==>
            MustReload(start, script, i) && Seen(start, script, 2 * i + 1) != Gone
        decreases 6 - attempt
      {
        OneAttempt(start, script, attempt);
        TouchedIffOtherVersion(row, Access(script, 2 * attempt));
        Meanwhile(Access(script, 2 * attempt));
        saves := saves + 1;
        if Access(script, 2 * attempt).OtherFailure? {
          return OtherError, saves;
        }
        var reply := Save(current);
        if reply == Done {
          SavedIsOneUpdate(Seen(start, script, 2 * attempt), row.version, mutate);
          return Saved, saves;
        }
        if reply == KeyConflict {
          return OtherError, saves;
        }
        if attempt == MAX_OPTIMISTIC_RETRIES {
          return Exhausted, saves;
        }
        Meanwhile(Access(script, 2 * attempt + 1));
        if row == Gone {
          return Vanished, saves;
        }
        var reloaded := EntityOf(row);
        current := Entity(mutate(reloaded.balance), reloaded.version);
        attempt := attempt + 1;
      }
    }
  }

  // A save is refused exactly when the row was rewritten or deleted since it was loaded.
  lemma RefusedIffTouched(row: Row, script: seq<Interference>, i: nat)
    requires LoadedFor(row, script, i) != Gone
    ensures Undisturbed(row, script, i) <==> (match Access(script, 2 * i)
                                              case Rewrite(_) => false
                                              case Vanish => LoadedFor(row, script, i) == Never
                                              case _ => true)
  {
    assert Seen(row, script, 2 * i) == Interfere(LoadedFor(row, script, i), Access(script, 2 * i));
  }
}
