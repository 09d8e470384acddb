/**
 * The seat inventory of a trip (`Voyage`) and the admission rule applied to
 * every saved reservation (`Reservation.clean` / `Reservation.save`), as pure
 * functions over the trip's reservation rows.
 *
 * Time is counted in whole minutes and money in cents. A trip's departure
 * is `depart` and the request's clock reading is `now`.
 */
module Inventory {
  import opened Wrappers
  import opened Text

  // Values of `Reservation.statut` (its choices) and of `statut_paiement`.
  const RESERVE: string := "réservé"
  const CONFIRME: string := "confirmé"
  const ANNULE: string := "annulé"
  const PAYE_STATUT: string := "payé"
  const PAYE: string := "paye"
  const EN_ATTENTE: string := "en_attente"

  /** The keys of `Reservation.STATUT_CHOICES`, in declaration order. */
  const STATUT_CHOICES: seq<string> := [RESERVE, CONFIRME, ANNULE, PAYE_STATUT]

  /** Minutes before departure at which a trip stops taking bookings. */
  const CLOSING_MINUTES: int := 30

  /** One reservation row. A guest booking has no `client` and carries a name and phone. */
  datatype Reservation = Reservation(
    id: nat,
    nbSieges: int,
    statut: string,
    statutPaiement: string,
    client: Option<nat>,
    autreNom: Option<string>,
    autreTel: Option<string>)

  /** A trip with the rows of its reservation table. */
  datatype Trip = Trip(
    id: nat,
    depart: int,
    capacite: nat,
    prixCents: int,
    reservations: seq<Reservation>)

  datatype TripStatus = Ouvert | FermeComplet | FermeTemps

  /** Seats a row holds against the trip: every row except a cancelled one. */
  function Held(r: Reservation): int {
    if r.statut == ANNULE then 0 else r.nbSieges
  }

  /** `Voyage.sieges_reserves`: seats held by the non-cancelled reservations. */
  function SiegesReserves(rows: seq<Reservation>): int {
    if rows == [] then 0 else Held(rows[0]) + SiegesReserves(rows[1..])
  }

  predicate NonNegativeSeats(rows: seq<Reservation>) {
    forall i :: 0 <= i < |rows| ==> rows[i].nbSieges >= 0
  }

  /** `Voyage.sieges_disponibles`: capacity minus reserved seats, floored at 0. */
  function SiegesDisponibles(capacite: nat, rows: seq<Reservation>): (r: nat)
    ensures r == 0 <==> SiegesReserves(rows) >= capacite
    ensures r > 0 ==> r + SiegesReserves(rows) == capacite
  {
    if capacite - SiegesReserves(rows) > 0 then capacite - SiegesReserves(rows) else 0
  }

  lemma {:induction false} ReservedNonNegative(rows: seq<Reservation>)
    requires NonNegativeSeats(rows)
    ensures SiegesReserves(rows) >= 0
  {
    if rows != [] {
      ReservedNonNegative(rows[1..]);
    }
  }

  /** With no negative seat counts, the free seats lie between 0 and the capacity. */
  lemma DisponiblesInRange(capacite: nat, rows: seq<Reservation>)
    requires NonNegativeSeats(rows)
    ensures 0 <= SiegesDisponibles(capacite, rows) <= capacite
    ensures capacite > 0 ==> (SiegesDisponibles(capacite, rows) == capacite <==> SiegesReserves(rows) == 0)
  {
    ReservedNonNegative(rows);
  }

  /** The trip departs within the closing window (or has left). */
  predicate TimeClosed(depart: int, now: int) {
    depart <= now + CLOSING_MINUTES
  }

  /** `Voyage.check_statut`: time closure first, then the seat count. */
  function CheckStatut(depart: int, now: int, capacite: nat, rows: seq<Reservation>): (s: TripStatus)
    ensures s == FermeTemps <==> TimeClosed(depart, now)
    ensures s == Ouvert <==> !TimeClosed(depart, now) && SiegesReserves(rows) < capacite
  {
    if TimeClosed(depart, now) then FermeTemps
    else if SiegesReserves(rows) >= capacite then FermeComplet
    else Ouvert
  }

  function TripStatut(t: Trip, now: int): TripStatus {
    CheckStatut(t.depart, now, t.capacite, t.reservations)
  }

  function TripDisponibles(t: Trip): nat {
    SiegesDisponibles(t.capacite, t.reservations)
  }

  /** An open trip always has a free seat, and a trip with a free seat closes only for time. */
  lemma OpenHasSeats(depart: int, now: int, capacite: nat, rows: seq<Reservation>)
    ensures CheckStatut(depart, now, capacite, rows) == Ouvert <==>
            !TimeClosed(depart, now) && SiegesDisponibles(capacite, rows) > 0
  {
  }

  /** A departure exactly at the closing threshold is closed; one minute later is not. */
  lemma ClosingBoundary(now: int, capacite: nat, rows: seq<Reservation>)
    ensures CheckStatut(now + CLOSING_MINUTES, now, capacite, rows) == FermeTemps
    ensures CheckStatut(now + CLOSING_MINUTES + 1, now, capacite, rows) != FermeTemps
  {
  }

  /**
   * The status pair that `Reservation.save` stores: a confirmed or paid
   * reservation becomes (confirmé, paye); any other keeps its statut with
   * payment pending.
   */
  function Normalise(statut: string, paiement: string): (p: (string, string))
    ensures p.0 != PAYE_STATUT
    ensures p.1 == PAYE <==> statut == CONFIRME || statut == PAYE_STATUT
    ensures p.1 == EN_ATTENTE <==> !(statut == CONFIRME || statut == PAYE_STATUT)
    ensures p.0 == statut || (statut == PAYE_STATUT && p.0 == CONFIRME)
  {
    if statut == CONFIRME || statut == PAYE_STATUT then (CONFIRME, PAYE)
    else if statut == ANNULE then (statut, EN_ATTENTE)
    else (statut, EN_ATTENTE)
  }

  /** Normalising a stored pair changes nothing. */
  lemma NormaliseIdempotent(statut: string, paiement: string)
    ensures var p := Normalise(statut, paiement); Normalise(p.0, p.1) == p
  {
  }

  function NormaliseRow(r: Reservation): (n: Reservation)
    ensures n == r.(statut := Normalise(r.statut, r.statutPaiement).0,
                    statutPaiement := Normalise(r.statut, r.statutPaiement).1)
  {
    var p := Normalise(r.statut, r.statutPaiement);
    r.(statut := p.0, statutPaiement := p.1)
  }

  /** The rows of the trip other than the one with primary key `id` (`exclude(pk=self.pk)`). */
  function Others(rows: seq<Reservation>, id: nat): (o: seq<Reservation>)
    ensures |o| <= |rows|
    ensures forall i :: 0 <= i < |o| ==> o[i] in rows && o[i].id != id
  {
    if rows == [] then []
    else (if rows[0].id == id then [] else [rows[0]]) + Others(rows[1..], id)
  }

  datatype SaveError =
    | SeatsBelowOne                // `MinValueValidator(1)` on `nb_sieges`
    | InvalidStatut                // `statut` outside `STATUT_CHOICES`
    | TripClosedTime               // "Voyage fermé (Temps écoulé)."
    | TripFull(remaining: int)     // "Complet! Places restantes: N"

  /**
   * `Reservation.clean` for a row of a trip: a cancelled row, or one with no
   * seats, is accepted; otherwise a time-closed trip rejects, and so does a
   * request that would take the other rows past capacity, reporting the
   * seats the other rows leave.
   */
  function CleanError(rows: seq<Reservation>, r: Reservation, capacite: nat, depart: int, now: int): (e: Option<SaveError>)
    ensures r.statut == ANNULE ==> e == None
    ensures r.statut != ANNULE && r.nbSieges != 0 && TimeClosed(depart, now) ==> e == Some(TripClosedTime)
    ensures r.statut != ANNULE && r.nbSieges != 0 && !TimeClosed(depart, now) ==>
              (e.Some? <==> SiegesReserves(Others(rows, r.id)) + r.nbSieges > capacite)
    ensures r.nbSieges == 0 ==> e == None
    ensures r.statut != ANNULE && r.nbSieges != 0 && !TimeClosed(depart, now) && e.Some? ==> e.value.TripFull?
    ensures e.Some? && e.value.TripFull? ==> e.value.remaining == capacite - SiegesReserves(Others(rows, r.id))
  {
    if r.statut == ANNULE || r.nbSieges == 0 then None
    else if CheckStatut(depart, now, capacite, rows) == FermeTemps then Some(TripClosedTime)
    else
      var others := SiegesReserves(Others(rows, r.id));
      if others + r.nbSieges > capacite then Some(TripFull(capacite - others)) else None
  }

  /**
   * What `full_clean` reports for a row about to be saved: the field
   * validators, then `clean`. The row is saved exactly when this is empty.
   */
  function SaveErrors(rows: seq<Reservation>, r: Reservation, capacite: nat, depart: int, now: int): (errs: seq<SaveError>)
    ensures errs == [] <==>
              r.nbSieges >= 1 && r.statut in STATUT_CHOICES && CleanError(rows, r, capacite, depart, now) == None
  {
    (if r.nbSieges < 1 then [SeatsBelowOne] else []) +
    (if r.statut in STATUT_CHOICES then [] else [InvalidStatut]) +
    (match CleanError(rows, r, capacite, depart, now) case Some(e) => [e] case None => [])
  }

  /** A saved row is admitted: with the other rows it stays within capacity. */
  lemma AdmittedFits(rows: seq<Reservation>, r: Reservation, capacite: nat, depart: int, now: int)
    requires SaveErrors(rows, r, capacite, depart, now) == []
    ensures SiegesReserves(Others(rows, r.id)) + Held(r) <= capacite || r.statut == ANNULE
    ensures r.statut != ANNULE ==> !TimeClosed(depart, now)
  {
  }

  /** A row as `save` leaves it: valid seats, a stored statut, and the normalised payment field. */
  predicate Stored(r: Reservation) {
    r.nbSieges >= 1 &&
    r.statut in {RESERVE, CONFIRME, ANNULE} &&
    r.statutPaiement == (if r.statut == CONFIRME then PAYE else EN_ATTENTE)
  }

  /** Every row that passes `save` is stored in normal form. */
  lemma SavedRowIsStored(rows: seq<Reservation>, r: Reservation, capacite: nat, depart: int, now: int)
    requires SaveErrors(rows, NormaliseRow(r), capacite, depart, now) == []
    ensures Stored(NormaliseRow(r))
  {
  }

  /**
   * A 4-seat trip with 3 seats held: a request for 2 seats is refused with
   * 1 seat remaining, a request for 1 is admitted, and after the first row
   * is cancelled the 2 seats fit.
   */
  lemma AdmissionScenario(now: int)
    ensures var held := Reservation(1, 3, RESERVE, EN_ATTENTE, None, None, None);
            var ask2 := Reservation(2, 2, RESERVE, EN_ATTENTE, None, None, None);
            var ask1 := Reservation(2, 1, RESERVE, EN_ATTENTE, None, None, None);
            SaveErrors([held], ask2, 4, now + 60, now) == [TripFull(1)] &&
            SaveErrors([held], ask1, 4, now + 60, now) == [] &&
            SaveErrors([held.(statut := ANNULE)], ask2, 4, now + 60, now) == []
  {
    var held := Reservation(1, 3, RESERVE, EN_ATTENTE, None, None, None);
    var gone := held.(statut := ANNULE);
    assert RESERVE in STATUT_CHOICES;
    assert Others([held], 2) == [held] by {
      assert [held][1..] == [];
    }
    assert Others([gone], 2) == [gone] by {
      assert [gone][1..] == [];
    }
    assert SiegesReserves([held]) == 3 by {
      assert [held][1..] == [];
    }
    assert SiegesReserves([gone]) == 0 by {
      assert [gone][1..] == [];
    }
  }

  /** `Reservation.prix_unitaire`: the trip's seat price, 0 without a trip. */
  function PrixUnitaire(voyage: Option<Trip>): int {
    match voyage
    case None => 0
    case Some(t) => t.prixCents
  }

  /**
   * `Reservation.montant_total`: unit price times seats, 0 without a trip.
   * Prices carry two decimals, so in cents the rounding to 0.01 changes nothing.
   */
  function MontantTotal(voyage: Option<Trip>, nbSieges: int): int {
    if voyage.None? then 0 else PrixUnitaire(voyage) * nbSieges
  }

  /**
   * The total is linear in the seats: nothing for no seat, the unit price
   * for one, and the totals of two seat counts add up.
   */
  lemma MontantLinear(voyage: Option<Trip>, a: int, b: int)
    ensures MontantTotal(voyage, 0) == 0 && MontantTotal(voyage, 1) == PrixUnitaire(voyage)
    ensures MontantTotal(voyage, a + b) == MontantTotal(voyage, a) + MontantTotal(voyage, b)
    ensures voyage.None? ==> MontantTotal(voyage, a) == 0
  {
  }

  /** The text of `Voyage.__str__` before the seat count. */
  function LabelHeader(villeDepart: string, villeArrivee: string, date: string, heure: string): string {
    villeDepart + " -> " + villeArrivee + " | " + date + " " + heure + " | "
  }

  /** `Voyage.__str__`: route, date and time, then "Places dispo: N". */
  function Label(villeDepart: string, villeArrivee: string, date: string, heure: string, dispo: nat): (s: string)
    ensures |s| > |LabelHeader(villeDepart, villeArrivee, date, heure)|
  {
    LabelHeader(villeDepart, villeArrivee, date, heure) + "Places dispo: " + NatToString(dispo)
  }
}
