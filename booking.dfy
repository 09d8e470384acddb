/**
 * The reservation table of one trip, updated in place by the operations that
 * save or delete a `Reservation` row. Every save normalises the status pair
 * and runs the admission check (`Reservation.save` calls `full_clean`), so
 * the trip never holds more seats than its vehicle has.
 */
module Booking {
  import opened Wrappers
  import opened Inventory

  datatype SaveResult = Saved(id: nat) | NotFound | Rejected(errors: seq<SaveError>)

  predicate IdsDistinct(rows: seq<Reservation>) {
    forall i, j :: 0 <= i < j < |rows| ==> rows[i].id != rows[j].id
  }

  predicate IdsBelow(rows: seq<Reservation>, bound: nat) {
    forall i :: 0 <= i < |rows| ==> rows[i].id < bound
  }

  predicate AllStored(rows: seq<Reservation>) {
    forall i :: 0 <= i < |rows| ==> Stored(rows[i])
  }

  /** The position of the row with primary key `id` (`get_object_or_404`). */
  function FindIndex(rows: seq<Reservation>, id: nat): (k: Option<nat>)
    ensures k.Some? ==> k.value < |rows| && rows[k.value].id == id
    ensures k.None? ==> forall i :: 0 <= i < |rows| ==> rows[i].id != id
  {
    if rows == [] then None
    else if rows[0].id == id then Some(0)
    else match FindIndex(rows[1..], id)
      case None => None
      case Some(k) => Some(k + 1)
  }

  lemma {:induction false} ReservedConcat(a: seq<Reservation>, b: seq<Reservation>)
    ensures SiegesReserves(a + b) == SiegesReserves(a) + SiegesReserves(b)
  {
    if a != [] {
      assert (a + b)[1..] == a[1..] + b;
      ReservedConcat(a[1..], b);
    } else {
      assert a + b == b;
    }
  }

  lemma {:induction false} OthersNoMatch(rows: seq<Reservation>, id: nat)
    requires forall i :: 0 <= i < |rows| ==> rows[i].id != id
    ensures Others(rows, id) == rows
  {
    if rows != [] {
      OthersNoMatch(rows[1..], id);
    }
  }

  // Small facts about one row in front of the others, kept apart so that
  // the inductive proofs below see no sequence identities of their own.

  lemma ReservedCons(x: Reservation, y: seq<Reservation>)
    ensures SiegesReserves([x] + y) == Held(x) + SiegesReserves(y)
  {
    assert ([x] + y)[1..] == y;
  }

  lemma OthersCons(x: Reservation, y: seq<Reservation>, id: nat)
    ensures Others([x] + y, id) == (if x.id == id then [] else [x]) + Others(y, id)
  {
    assert ([x] + y)[1..] == y;
  }

  lemma TailDistinct(rows: seq<Reservation>)
    requires rows != [] && IdsDistinct(rows)
    ensures IdsDistinct(rows[1..])
    ensures forall i :: 0 <= i < |rows[1..]| ==> rows[1..][i].id != rows[0].id
  {
  }

  lemma SplitHead(rows: seq<Reservation>, k: nat, r: Reservation)
    requires k < |rows|
    ensures rows == [rows[0]] + rows[1..]
    ensures k == 0 ==> rows[k := r] == [r] + rows[1..] && rows[..k] + rows[k + 1..] == rows[1..]
    ensures k > 0 ==> rows[k := r] == [rows[0]] + rows[1..][k - 1 := r]
    ensures k > 0 ==> rows[..k] + rows[k + 1..] == [rows[0]] + (rows[1..][..k - 1] + rows[1..][k..])
  {
  }

  /** Replacing the row with key `id` changes the reserved count by that row's contribution only. */
  lemma {:induction false} ReplaceRow(rows: seq<Reservation>, k: nat, r: Reservation)
    requires k < |rows| && rows[k].id == r.id && IdsDistinct(rows)
    ensures SiegesReserves(rows[k := r]) == SiegesReserves(Others(rows, r.id)) + Held(r)
    ensures SiegesReserves(rows) == SiegesReserves(Others(rows, r.id)) + Held(rows[k])
  {
    var t := rows[1..];
    SplitHead(rows, k, r);
    TailDistinct(rows);
    OthersCons(rows[0], t, r.id);
    if k == 0 {
      OthersNoMatch(t, r.id);
      ReservedCons(r, t);
    } else {
      ReplaceRow(t, k - 1, r);
      ReservedCons(rows[0], t[k - 1 := r]);
      ReservedCons(rows[0], Others(t, r.id));
    }
  }

  /** Removing one row lowers the reserved count by exactly what it held. */
  lemma {:induction false} RemoveRow(rows: seq<Reservation>, k: nat)
    requires k < |rows|
    ensures SiegesReserves(rows[..k] + rows[k + 1..]) == SiegesReserves(rows) - Held(rows[k])
  {
    SplitHead(rows, k, rows[k]);
    if k > 0 {
      var t := rows[1..];
      RemoveRow(t, k - 1);
      ReservedCons(rows[0], t[..k - 1] + t[k..]);
    }
  }

  /**
   * A new booking (a fresh key, at least one seat, statut réservé or
   * confirmé) on a trip that is not overbooked is admitted by `save`
   * exactly when the trip is outside its closing window and the seats
   * asked for are free.
   */
  lemma NewRowAdmission(rows: seq<Reservation>, bound: nat, r: Reservation, capacite: nat, depart: int, now: int)
    requires IdsBelow(rows, bound) && r.id == bound
    requires SiegesReserves(rows) <= capacite
    requires r.nbSieges >= 1 && (r.statut == RESERVE || r.statut == CONFIRME)
    ensures SaveErrors(rows, r, capacite, depart, now) == [] <==>
            !TimeClosed(depart, now) && r.nbSieges <= SiegesDisponibles(capacite, rows)
  {
    OthersNoMatch(rows, r.id);
  }

  /** A reservation table as `save` leaves it: stored rows with distinct keys below `bound`, within capacity. */
  predicate Table(rows: seq<Reservation>, bound: nat, capacite: nat) {
    AllStored(rows) && IdsDistinct(rows) && IdsBelow(rows, bound) && SiegesReserves(rows) <= capacite
  }

  /** A held seat count of a stored row is its seat count or nothing, never negative. */
  lemma StoredHeld(r: Reservation)
    requires Stored(r)
    ensures 0 <= Held(r) <= r.nbSieges
  {
  }

  /** Appending a stored row under the next key keeps keys distinct and rows stored. */
  lemma AppendKeys(rows: seq<Reservation>, bound: nat, row: Reservation)
    requires AllStored(rows) && IdsDistinct(rows) && IdsBelow(rows, bound) && row.id == bound && Stored(row)
    ensures AllStored(rows + [row]) && IdsDistinct(rows + [row]) && IdsBelow(rows + [row], bound + 1)
  {
    var t := rows + [row];
    assert forall i :: 0 <= i < |rows| ==> t[i] == rows[i];
  }

  /** A row `save` admits under a fresh key fits beside the others. */
  lemma AppendSeats(rows: seq<Reservation>, capacite: nat, row: Reservation, depart: int, now: int)
    requires IdsBelow(rows, row.id) && SiegesReserves(rows) <= capacite
    requires SaveErrors(rows, row, capacite, depart, now) == []
    ensures SiegesReserves(rows + [row]) <= capacite
  {
    OthersNoMatch(rows, row.id);
    AdmittedFits(rows, row, capacite, depart, now);
    ReservedConcat(rows, [row]);
    ReservedCons(row, []);
  }

  /** Appending a row under a fresh key that `save` admits keeps the table valid. */
  lemma TableAppend(rows: seq<Reservation>, bound: nat, capacite: nat, row: Reservation, depart: int, now: int)
    requires Table(rows, bound, capacite) && row.id == bound && Stored(row)
    requires SaveErrors(rows, row, capacite, depart, now) == []
    ensures Table(rows + [row], bound + 1, capacite)
  {
    AppendKeys(rows, bound, row);
    AppendSeats(rows, capacite, row, depart, now);
  }

  /** Replacing a row by a stored row with the same key keeps keys distinct and rows stored. */
  lemma ReplaceKeys(rows: seq<Reservation>, bound: nat, k: nat, row: Reservation)
    requires AllStored(rows) && IdsDistinct(rows) && IdsBelow(rows, bound)
    requires k < |rows| && row.id == rows[k].id && Stored(row)
    ensures AllStored(rows[k := row]) && IdsDistinct(rows[k := row]) && IdsBelow(rows[k := row], bound)
  {
  }

  /** A replacement row that `save` admits fits beside the others. */
  lemma ReplaceSeats(rows: seq<Reservation>, capacite: nat, k: nat, row: Reservation, depart: int, now: int)
    requires k < |rows| && row.id == rows[k].id && IdsDistinct(rows) && Stored(rows[k]) && Stored(row)
    requires SiegesReserves(rows) <= capacite && SaveErrors(rows, row, capacite, depart, now) == []
    ensures SiegesReserves(rows[k := row]) <= capacite
  {
    ReplaceRow(rows, k, row);
    AdmittedFits(rows, row, capacite, depart, now);
    StoredHeld(rows[k]);
    StoredHeld(row);
  }

  /** Replacing a row by a stored row with the same key that `save` admits keeps the table valid. */
  lemma TableReplace(rows: seq<Reservation>, bound: nat, capacite: nat, k: nat, row: Reservation, depart: int, now: int)
    requires Table(rows, bound, capacite) && k < |rows| && row.id == rows[k].id && Stored(row)
    requires SaveErrors(rows, row, capacite, depart, now) == []
    ensures Table(rows[k := row], bound, capacite)
  {
    ReplaceKeys(rows, bound, k, row);
    ReplaceSeats(rows, capacite, k, row, depart, now);
  }

  /** Removing a row keeps keys distinct and rows stored. */
  lemma RemoveKeys(rows: seq<Reservation>, bound: nat, k: nat)
    requires AllStored(rows) && IdsDistinct(rows) && IdsBelow(rows, bound) && k < |rows|
    ensures AllStored(rows[..k] + rows[k + 1..]) && IdsDistinct(rows[..k] + rows[k + 1..]) &&
            IdsBelow(rows[..k] + rows[k + 1..], bound)
  {
    var t := rows[..k] + rows[k + 1..];
    assert forall i :: 0 <= i < |t| ==> t[i] == rows[if i < k then i else i + 1];
  }

  /** Removing a row keeps the table valid. */
  lemma TableRemove(rows: seq<Reservation>, bound: nat, capacite: nat, k: nat)
    requires Table(rows, bound, capacite) && k < |rows|
    ensures Table(rows[..k] + rows[k + 1..], bound, capacite)
  {
    RemoveKeys(rows, bound, k);
    RemoveRow(rows, k);
    StoredHeld(rows[k]);
  }

  class Voyage {
    const id: nat
    const depart: int
    const capacite: nat
    const prixCents: int
    var reservations: seq<Reservation>
    var nextId: nat

    /** Rows are saved rows with distinct keys, and the trip is not overbooked. */
    ghost predicate Valid()
      reads this
    {
      Table(reservations, nextId, capacite)
    }

    /** The trip as the read paths see it. */
    function Snapshot(): Trip
      reads this
    {
      Trip(id, depart, capacite, prixCents, reservations)
    }

    constructor (id: nat, depart: int, capacite: nat, prixCents: int)
      ensures Valid()
      ensures this.id == id && this.depart == depart && this.capacite == capacite && this.prixCents == prixCents
      ensures reservations == []
    {
      this.id := id;
      this.depart := depart;
      this.capacite := capacite;
      this.prixCents := prixCents;
      reservations := [];
      nextId := 0;
    }

    /**
     * Creates a reservation row and saves it: the status pair is
     * normalised, then the row is admitted or rejected as a whole.
     */
    method Submit(nbSieges: int, statut: string, client: Option<nat>,
                  autreNom: Option<string>, autreTel: Option<string>, now: int)
      returns (res: SaveResult)
      requires Valid()
      modifies this
      ensures Valid()
      ensures var row := NormaliseRow(Reservation(old(nextId), nbSieges, statut, EN_ATTENTE, client, autreNom, autreTel));
              var errs := SaveErrors(old(reservations), row, capacite, depart, now);
              if errs == [] then
                res == Saved(row.id) && reservations == old(reservations) + [row] && nextId == old(nextId) + 1
              else
                res == Rejected(errs) && reservations == old(reservations) && nextId == old(nextId)
    {
      var fields := Reservation(nextId, nbSieges, statut, EN_ATTENTE, client, autreNom, autreTel);
      var row := NormaliseRow(fields);
      var errs := SaveErrors(reservations, row, capacite, depart, now);
      if errs != [] {
        return Rejected(errs);
      }
      SavedRowIsStored(reservations, fields, capacite, depart, now);
      TableAppend(reservations, nextId, capacite, row, depart, now);
      reservations := reservations + [row];
      nextId := nextId + 1;
      res := Saved(row.id);
    }

    /**
     * Sets the seat count and statut of the row with key `rid` and saves it
     * (`modifier_reservation`); the row's other fields stay as they were.
     */
    method Edit(rid: nat, nbSieges: int, statut: string, now: int) returns (res: SaveResult)
      requires Valid()
      modifies this
      ensures Valid()
      ensures nextId == old(nextId)
      ensures match FindIndex(old(reservations), rid)
              case None => res == NotFound && reservations == old(reservations)
              case Some(k) =>
                var row := NormaliseRow(old(reservations)[k].(nbSieges := nbSieges, statut := statut));
                var errs := SaveErrors(old(reservations), row, capacite, depart, now);
                if errs == [] then
                  res == Saved(rid) && reservations == old(reservations)[k := row]
                else
                  res == Rejected(errs) && reservations == old(reservations)
    {
      var found := FindIndex(reservations, rid);
      if found.None? {
        return NotFound;
      }
      var k := found.value;
      var fields := reservations[k].(nbSieges := nbSieges, statut := statut);
      var row := NormaliseRow(fields);
      var errs := SaveErrors(reservations, row, capacite, depart, now);
      if errs != [] {
        return Rejected(errs);
      }
      SavedRowIsStored(reservations, fields, capacite, depart, now);
      TableReplace(reservations, nextId, capacite, k, row, depart, now);
      reservations := reservations[k := row];
      res := Saved(rid);
    }

    /**
     * Cancels the row with key `rid`: an edit to statut "annulé". It is
     * never rejected, frees the row's seats, and repeating it changes nothing.
     */
    method Cancel(rid: nat, now: int) returns (res: SaveResult)
      requires Valid()
      modifies this
      ensures Valid()
      ensures nextId == old(nextId)
      ensures match FindIndex(old(reservations), rid)
              case None => res == NotFound && reservations == old(reservations)
              case Some(k) =>
                res == Saved(rid) &&
                reservations == old(reservations)[k := old(reservations)[k].(statut := ANNULE, statutPaiement := EN_ATTENTE)] &&
                SiegesReserves(reservations) == old(SiegesReserves(reservations)) - old(Held(reservations[k])) &&
                (old(reservations)[k].statut == ANNULE ==> reservations == old(reservations))
    {
      var found := FindIndex(reservations, rid);
      if found.None? {
        return NotFound;
      }
      var k := found.value;
      ghost var before := reservations;
      ReplaceRow(before, k, before[k].(statut := ANNULE, statutPaiement := EN_ATTENTE));
      res := Edit(rid, reservations[k].nbSieges, ANNULE, now);
      assert before[k].statut == ANNULE ==> before[k := before[k]] == before;
    }

    /**
     * Marks the row with key `rid` as paid and confirmed and saves it
     * (`confirmer_paiement`). The save re-runs the admission check, so a
     * cancelled row cannot be confirmed into an overbooked or closed trip.
     */
    method Confirm(rid: nat, now: int) returns (res: SaveResult)
      requires Valid()
      modifies this
      ensures Valid()
      ensures nextId == old(nextId)
      ensures match FindIndex(old(reservations), rid)
              case None => res == NotFound && reservations == old(reservations)
              case Some(k) =>
                var row := old(reservations)[k].(statut := CONFIRME, statutPaiement := PAYE);
                var errs := SaveErrors(old(reservations), row, capacite, depart, now);
                if errs == [] then
                  res == Saved(rid) && reservations == old(reservations)[k := row]
                else
                  res == Rejected(errs) && reservations == old(reservations)
    {
      var found := FindIndex(reservations, rid);
      if found.None? {
        return NotFound;
      }
      var k := found.value;
      var fields := reservations[k].(statut := CONFIRME, statutPaiement := PAYE);
      var row := NormaliseRow(fields);
      var errs := SaveErrors(reservations, row, capacite, depart, now);
      if errs != [] {
        return Rejected(errs);
      }
      SavedRowIsStored(reservations, fields, capacite, depart, now);
      TableReplace(reservations, nextId, capacite, k, row, depart, now);
      reservations := reservations[k := row];
      res := Saved(rid);
    }

    /** Deletes the row with key `rid` (`supprimer_reservation`); its seats are freed. */
    method Delete(rid: nat) returns (found: bool)
      requires Valid()
      modifies this
      ensures Valid()
      ensures nextId == old(nextId)
      ensures match FindIndex(old(reservations), rid)
              case None => !found && reservations == old(reservations)
              case Some(k) =>
                found && reservations == old(reservations)[..k] + old(reservations)[k + 1..] &&
                SiegesReserves(reservations) == old(SiegesReserves(reservations)) - old(Held(reservations[k]))
    {
      var at := FindIndex(reservations, rid);
      if at.None? {
        return false;
      }
      var k := at.value;
      RemoveRow(reservations, k);
      TableRemove(reservations, nextId, capacite, k);
      reservations := reservations[..k] + reservations[k + 1..];
      found := true;
    }
  }
}
