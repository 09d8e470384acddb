/**
 * The booking views: the fallback choice of a status value
 * (`safe_choice`), the staff booking page (`ajouter_reservation`), the
 * payment confirmation (`confirmer_paiement`), the mobile booking endpoint
 * (`api_ajouter_reservation_mobile`) and the two places that decide whether
 * a ticket may be handed out.
 */
module Views {
  import opened Wrappers
  import opened Text
  import opened Inventory
  import opened Booking
  import opened Forms

  // ---------------------------------------------------------------------
  // `safe_choice`
  // ---------------------------------------------------------------------

  /** What `safe_choice` reads of a model field: its choice keys and its default. */
  datatype FieldSpec = FieldSpec(choices: seq<string>, default: Option<string>)

  /** `Reservation.statut`: the four status choices, default "réservé". */
  const STATUT_FIELD: FieldSpec := FieldSpec(STATUT_CHOICES, Some(RESERVE))

  /** `Reservation.statut_paiement`: no choices, default "en_attente". */
  const PAIEMENT_FIELD: FieldSpec := FieldSpec([], Some(EN_ATTENTE))

  function Allowed(f: FieldSpec): set<string> {
    set c | c in f.choices
  }

  /** The first preferred value that is an allowed key, if any. */
  function FirstAllowed(preferred: seq<string>, allowed: set<string>): (r: Option<string>)
    ensures r.Some? ==> r.value in allowed && r.value in preferred
    ensures r.None? <==> forall i :: 0 <= i < |preferred| ==> preferred[i] !in allowed
  {
    if preferred == [] then None
    else if preferred[0] in allowed then Some(preferred[0])
    else FirstAllowed(preferred[1..], allowed)
  }

  /** The value found at position `i` is the answer when no earlier value is allowed. */
  lemma {:induction false} FirstAllowedAt(preferred: seq<string>, allowed: set<string>, i: nat)
    requires i < |preferred| && preferred[i] in allowed
    requires forall j :: 0 <= j < i ==> preferred[j] !in allowed
    ensures FirstAllowed(preferred, allowed) == Some(preferred[i])
  {
    if i > 0 {
      FirstAllowedAt(preferred[1..], allowed, i - 1);
    }
  }

  /**
   * `safe_choice`: the first preferred value the field allows, else the
   * field's default if allowed, else some allowed key, else the first
   * preferred value. `None` stands for the `IndexError` raised when nothing
   * is allowed and no value is preferred.
   */
  method SafeChoice(field: FieldSpec, preferred: seq<string>) returns (r: Option<string>)
    ensures FirstAllowed(preferred, Allowed(field)).Some? ==> r == FirstAllowed(preferred, Allowed(field))
    ensures FirstAllowed(preferred, Allowed(field)).None? && field.default.Some? && field.default.value in Allowed(field) ==>
              r == field.default
    ensures Allowed(field) != {} ==> r.Some? && r.value in Allowed(field)
    ensures Allowed(field) == {} ==> r == (if preferred == [] then None else Some(preferred[0]))
  {
    var allowed := Allowed(field);
    for i := 0 to |preferred|
      invariant forall j :: 0 <= j < i ==> preferred[j] !in allowed
    {
      if preferred[i] in allowed {
        FirstAllowedAt(preferred, allowed, i);
        return Some(preferred[i]);
      }
    }
    if field.default.Some? && field.default.value in allowed {
      return field.default;
    }
    if allowed != {} {
      var c :| c in allowed;
      return Some(c);
    }
    r := if preferred == [] then None else Some(preferred[0]);
  }

  // ---------------------------------------------------------------------
  // `confirmer_paiement` (the later of its two definitions)
  // ---------------------------------------------------------------------

  /**
   * Resolves the paid and confirmed values through `safe_choice`, then
   * saves the row with them; they are the pair (confirmé, paye), so the
   * outcome is `Voyage.Confirm`'s.
   */
  method ConfirmerPaiement(v: Voyage, rid: nat, now: int) returns (res: SaveResult)
    requires v.Valid()
    modifies v
    ensures v.Valid()
    ensures v.nextId == old(v.nextId)
    ensures match FindIndex(old(v.reservations), rid)
            case None => res == NotFound && v.reservations == old(v.reservations)
            case Some(k) =>
              var row := old(v.reservations)[k].(statut := CONFIRME, statutPaiement := PAYE);
              var errs := SaveErrors(old(v.reservations), row, v.capacite, v.depart, now);
              if errs == [] then
                res == Saved(rid) && v.reservations == old(v.reservations)[k := row]
              else
                res == Rejected(errs) && v.reservations == old(v.reservations)
  {
    var paiement := SafeChoice(PAIEMENT_FIELD, [PAYE, PAYE_STATUT]);
    assert "confirmé" in Allowed(STATUT_FIELD);
    FirstAllowedAt([CONFIRME, "confirme", CONFIRME], Allowed(STATUT_FIELD), 0);
    var statut := SafeChoice(STATUT_FIELD, [CONFIRME, "confirme", CONFIRME]);
    assert paiement == Some(PAYE) && statut == Some(CONFIRME);
    res := v.Confirm(rid, now);
  }

  // ---------------------------------------------------------------------
  // `ajouter_reservation` (staff booking, paid and confirmed at once)
  // ---------------------------------------------------------------------

  /** The choices of the form's `mode_paiement` field. */
  const MODES_PAIEMENT: seq<string> := ["cash", "bankily", "masrvi", "sadad", "bimbank", "moov_money", "gaza_pay"]

  /** The fields the staff booking page posts, for the trip it picked. */
  datatype WebRequest = WebRequest(
    clientMode: string,
    client: Option<nat>,
    autreNom: string,
    autreTel: string,
    nbSieges: Option<int>,
    modePaiement: string)

  datatype WebOutcome =
    | FormInvalid(errors: seq<FormError>)
    | Created(id: nat)
    | SaveFailed(reasons: seq<SaveError>)

  /**
   * The form's field validators, in the form's field order: the client
   * mode must be one of its two choices; a client, when one is given, must
   * be one of `clients` (the accounts that are not superusers); the trip
   * must be one the form offers (open with a free seat); the seat count
   * must be present and not negative; the payment mode must be one of its
   * seven choices. The guest fields are only stripped. A field that fails
   * is left out of the cleaned data.
   */
  function FieldValidation(req: WebRequest, t: Trip, clients: set<nat>, now: int): (out: (WebCleaned, seq<FormError>))
    ensures out.1 == [] <==>
              (req.clientMode == "existing" || req.clientMode == "other") &&
              (req.client.None? || req.client.value in clients) &&
              Bookable(t, now) && req.nbSieges.Some? && req.nbSieges.value >= 0 &&
              req.modePaiement in MODES_PAIEMENT
    ensures FieldRejected(ClientField) in out.1 <==> req.client.Some? && req.client.value !in clients
    ensures out.1 == [] ==>
              out.0 == WebCleaned(Some(req.clientMode), req.client, Some(Strip(req.autreNom)),
                                  Some(Strip(req.autreTel)), Some(t), req.nbSieges, Some(req.modePaiement))
    ensures req.nbSieges.Some? && req.nbSieges.value >= 0 ==> out.0.nbSieges == req.nbSieges
    ensures Dropped(out.0, out.1) == out.0
  {
    var raw := WebCleaned(Some(req.clientMode), req.client, Some(Strip(req.autreNom)),
                          Some(Strip(req.autreTel)), Some(t), req.nbSieges, Some(req.modePaiement));
    Validated(raw,
              req.clientMode == "existing" || req.clientMode == "other",
              req.client.None? || req.client.value in clients,
              Bookable(t, now),
              req.nbSieges.Some? && req.nbSieges.value >= 0,
              req.modePaiement in MODES_PAIEMENT)
  }

  /**
   * The outcome of the field validators given which fields are valid: one
   * rejection per invalid field in field order, and the posted values
   * without the invalid fields.
   */
  function Validated(raw: WebCleaned, modeOk: bool, clientOk: bool, tripOk: bool, nbOk: bool, payOk: bool)
    : (out: (WebCleaned, seq<FormError>))
    ensures out.1 == [] <==> modeOk && clientOk && tripOk && nbOk && payOk
    ensures FieldRejected(ClientField) in out.1 <==> !clientOk
    ensures ErrorFields(out.1) ==
              (if modeOk then {} else {ClientModeField}) + (if clientOk then {} else {ClientField}) +
              (if tripOk then {} else {VoyageField}) + (if nbOk then {} else {NbSiegesField}) +
              (if payOk then {} else {ModePaiementField})
    ensures out.0 == Dropped(raw, out.1)
  {
    var e1 := RejectIf(modeOk, ClientModeField);
    var e2 := RejectIf(clientOk, ClientField);
    var e3 := RejectIf(tripOk, VoyageField);
    var e4 := RejectIf(nbOk, NbSiegesField);
    var e5 := RejectIf(payOk, ModePaiementField);
    ErrorFieldsConcat(e1, e2);
    ErrorFieldsConcat(e1 + e2, e3);
    ErrorFieldsConcat(e1 + e2 + e3, e4);
    ErrorFieldsConcat(e1 + e2 + e3 + e4, e5);
    var errors := e1 + e2 + e3 + e4 + e5;
    (Dropped(raw, errors), errors)
  }

  /** An id no row of `rows` has: the unsaved instance's missing primary key. */
  function FreshId(rows: seq<Reservation>): (k: nat)
    ensures forall i :: 0 <= i < |rows| ==> rows[i].id < k
  {
    if rows == [] then 0
    else
      var rest := FreshId(rows[1..]);
      if rows[0].id + 1 > rest then rows[0].id + 1 else rest
  }

  /**
   * `_post_clean`: the unsaved réservé instance built from the cleaned data
   * is validated by the model. A seat count the form kept must be at least
   * 1; then `Reservation.clean` runs with the kept seat count, or the
   * field's default 1 when the form dropped it, and its error is form-wide.
   */
  function PostCleanErrors(d: WebCleaned, now: int): seq<FormError> {
    (if d.nbSieges.Some? && d.nbSieges.value < 1 then [FieldRejected(NbSiegesField)] else []) +
    match d.voyage
    case None => []
    case Some(t) =>
      var r := Reservation(FreshId(t.reservations), d.nbSieges.GetOr(1), RESERVE, EN_ATTENTE, d.client, None, None);
      match CleanError(t.reservations, r, t.capacite, t.depart, now)
      case None => []
      case Some(e) => [ModelRejected(e)]
  }

  /**
   * After the form's own checks have passed on an offered trip, the model's
   * validation adds only the seat-count minimum: its trip check never
   * fires.
   */
  lemma PostCleanMeaning(d: WebCleaned, t: Trip, now: int)
    requires d.voyage == Some(t) && Bookable(t, now)
    requires d.nbSieges.Some? && d.nbSieges.value >= 0 && RequestedSeats(d) <= TripDisponibles(t)
    ensures PostCleanErrors(d, now) == [] <==> d.nbSieges.value >= 1
  {
    var r := Reservation(FreshId(t.reservations), d.nbSieges.value, RESERVE, EN_ATTENTE, d.client, None, None);
    OthersNoMatch(t.reservations, r.id);
    OpenHasSeats(t.depart, now, t.capacite, t.reservations);
  }

  /** All the errors the staff booking form reports, in the order `is_valid` collects them. */
  function WebFormErrors(req: WebRequest, t: Trip, clients: set<nat>, now: int): seq<FormError> {
    var fv := FieldValidation(req, t, clients, now);
    var formErrors := ClientErrors(fv.0) + TripErrors(fv.0, now);
    fv.1 + formErrors + PostCleanErrors(Dropped(ClientReset(fv.0), formErrors), now)
  }

  /**
   * Zero seats pass the field validator and `clean` (which reads them as
   * one); the refusal is the model's minimum, reported after `clean`'s
   * errors.
   */
  lemma ZeroSeatsRejectedLast(req: WebRequest, t: Trip, clients: set<nat>, now: int)
    requires req.nbSieges == Some(0)
    ensures var fv := FieldValidation(req, t, clients, now);
            var formErrors := ClientErrors(fv.0) + TripErrors(fv.0, now);
            FieldRejected(NbSiegesField) !in fv.1 + formErrors &&
            WebFormErrors(req, t, clients, now) == fv.1 + formErrors + [FieldRejected(NbSiegesField)]
  {
    var fv := FieldValidation(req, t, clients, now);
    var formErrors := ClientErrors(fv.0) + TripErrors(fv.0, now);
    assert fv.0.nbSieges == Some(0);
    assert NbSiegesField !in ErrorFields(fv.1);
    ClientErrorFields(fv.0);
    OneSeatFits(fv.0, now);
    ErrorFieldsConcat(ClientErrors(fv.0), TripErrors(fv.0, now));
    ErrorFieldsConcat(fv.1, formErrors);
    ErrorFieldsMember(fv.1 + formErrors, FieldRejected(NbSiegesField));
    ZeroSeatsPostClean(Dropped(ClientReset(fv.0), formErrors), now);
  }

  /** One requested seat never draws the seat-count error of `clean`: an open trip has a free seat. */
  lemma OneSeatFits(d: WebCleaned, now: int)
    requires RequestedSeats(d) == 1
    ensures NbSiegesField !in ErrorFields(TripErrors(d, now))
  {
    if d.voyage.Some? {
      var v := d.voyage.value;
      TripErrorsMeaning(d, now);
      ErrorFieldsOne(NonFieldError(MSG_FERME));
      ErrorFieldsOne(FieldError(VoyageField, MSG_COMPLET));
    }
  }

  /** A kept seat count of zero is refused by the model's minimum, and by nothing else. */
  lemma ZeroSeatsPostClean(d: WebCleaned, now: int)
    requires d.nbSieges == Some(0)
    ensures PostCleanErrors(d, now) == [FieldRejected(NbSiegesField)]
  {
    if d.voyage.Some? {
      var t := d.voyage.value;
      var r := Reservation(FreshId(t.reservations), 0, RESERVE, EN_ATTENTE, d.client, None, None);
      assert CleanError(t.reservations, r, t.capacite, t.depart, now) == None;
    }
  }

  /** The row the staff booking page creates, before `save` normalises it. */
  function WebRow(req: WebRequest, id: nat): Reservation {
    var guest := req.clientMode == "other";
    Reservation(id, req.nbSieges.GetOr(1), CONFIRME, PAYE,
                if req.clientMode == "existing" then req.client else None,
                if guest then Some(Strip(req.autreNom)) else None,
                if guest then Some(Strip(req.autreTel)) else None)
  }

  /**
   * A staff booking passes the form exactly when its mode is valid, the
   * client (if any) is an eligible account, the trip is open with a free
   * seat, at least one seat is asked for and the seats fit, the payment
   * mode is one of the choices, and the client (or the guest's name and
   * phone) is given.
   */
  lemma WebFormAccepts(req: WebRequest, t: Trip, clients: set<nat>, now: int)
    ensures WebFormErrors(req, t, clients, now) == [] <==>
              (req.clientMode == "existing" || req.clientMode == "other") &&
              (req.client.None? || req.client.value in clients) &&
              Bookable(t, now) && req.nbSieges.Some? && 1 <= req.nbSieges.value <= TripDisponibles(t) &&
              req.modePaiement in MODES_PAIEMENT &&
              (if req.clientMode == "existing" then req.client.Some?
               else !AllSpace(req.autreNom) && !AllSpace(req.autreTel))
  {
    var fv := FieldValidation(req, t, clients, now);
    if fv.1 == [] {
      var d := fv.0;
      ModeOfChoice(d);
      TripErrorsMeaning(d, now);
      ClientPart(req, d);
      var formErrors := ClientErrors(d) + TripErrors(d, now);
      if formErrors == [] {
        assert Dropped(ClientReset(d), formErrors) == ClientReset(d);
        PostCleanMeaning(ClientReset(d), t, now);
      }
    }
  }

  /** A client mode that passed its field validator is compared as it is. */
  lemma ModeOfChoice(d: WebCleaned)
    requires d.clientMode == Some("existing") || d.clientMode == Some("other")
    ensures ModeOf(d) == d.clientMode.value
  {
    if d.clientMode == Some("existing") {
      PlainUnchanged("existing");
    } else {
      PlainUnchanged("other");
    }
  }

  /** The client errors of a request whose fields passed validation. */
  lemma ClientPart(req: WebRequest, d: WebCleaned)
    requires req.clientMode == "existing" || req.clientMode == "other"
    requires d.clientMode == Some(req.clientMode) && d.client == req.client
    requires d.autreNom == Some(Strip(req.autreNom)) && d.autreTel == Some(Strip(req.autreTel))
    requires ModeOf(d) == req.clientMode
    ensures ClientErrors(d) == [] <==>
              if req.clientMode == "existing" then req.client.Some?
              else !AllSpace(req.autreNom) && !AllSpace(req.autreTel)
  {
    if req.clientMode != "existing" {
      StripIdempotent(req.autreNom);
      StripIdempotent(req.autreTel);
    }
  }

  /** Stripping twice is stripping once, as far as blankness goes. */
  lemma StripIdempotent(s: string)
    ensures AllSpace(Strip(s)) <==> AllSpace(s)
  {
  }

  /** The row a valid staff request is saved as, and why it fits. */
  lemma ValidWebRequest(req: WebRequest, t: Trip, clients: set<nat>, now: int, id: nat)
    requires WebFormErrors(req, t, clients, now) == []
    ensures var cleaned := ClientReset(FieldValidation(req, t, clients, now).0);
            var mode := cleaned.clientMode.GetOr("");
            NormaliseRow(Reservation(id, cleaned.nbSieges.GetOr(1), CONFIRME, EN_ATTENTE, cleaned.client,
                                     if mode == "other" then cleaned.autreNom else None,
                                     if mode == "other" then cleaned.autreTel else None)) == WebRow(req, id)
    ensures !TimeClosed(t.depart, now) && 1 <= req.nbSieges.value <= TripDisponibles(t)
    ensures req.clientMode == "existing" || req.clientMode == "other"
    ensures req.client.Some? ==> req.client.value in clients
  {
    WebFormAccepts(req, t, clients, now);
    ModeOfChoice(FieldValidation(req, t, clients, now).0);
  }

  /**
   * `form.is_valid()` on the staff booking form: the field validators, the
   * form's `clean`, then the model's validation of the instance built from
   * what is left, with the errors of all three and the cleaned data without
   * the fields they name.
   */
  method ValidateWebForm(req: WebRequest, t: Trip, clients: set<nat>, now: int)
    returns (cleaned: WebCleaned, errors: seq<FormError>)
    ensures errors == WebFormErrors(req, t, clients, now)
    ensures cleaned == Dropped(ClientReset(FieldValidation(req, t, clients, now).0), errors)
  {
    var fv := FieldValidation(req, t, clients, now);
    var afterClean, formErrors := CleanReservationWeb(fv.0, now);
    var postErrors := PostCleanErrors(afterClean, now);
    errors := fv.1 + formErrors + postErrors;
    cleaned := Dropped(afterClean, postErrors);
    DroppedTwice(ClientReset(fv.0), formErrors, postErrors);
    DroppedReset(fv.0, fv.1);
    DroppedTwice(ClientReset(fv.0), fv.1, formErrors + postErrors);
    assert errors == fv.1 + (formErrors + postErrors);
  }

  /** Fields already missing stay missing once `clean` resets the client. */
  lemma DroppedReset(d: WebCleaned, errors: seq<FormError>)
    requires Dropped(d, errors) == d
    ensures Dropped(ClientReset(d), errors) == ClientReset(d)
  {
  }

  /**
   * `ajouter_reservation`: validates the form against the trip `v` and the
   * accounts `clients` it offers; a valid form creates a row confirmed and
   * paid at once, for the chosen client or for a guest whose name and
   * phone are kept only in "other" mode. The form's own checks imply the
   * save's, so a valid form is never refused by the save.
   */
  method AjouterReservation(v: Voyage, req: WebRequest, clients: set<nat>, now: int) returns (out: WebOutcome)
    requires v.Valid()
    modifies v
    ensures v.Valid()
    ensures !out.SaveFailed?
    ensures var errs := WebFormErrors(req, old(v.Snapshot()), clients, now);
            if errs != [] then
              out == FormInvalid(errs) && v.reservations == old(v.reservations) && v.nextId == old(v.nextId)
            else
              out == Created(old(v.nextId)) &&
              v.reservations == old(v.reservations) + [WebRow(req, old(v.nextId))] &&
              v.nextId == old(v.nextId) + 1
  {
    var t := v.Snapshot();
    var cleaned, errors := ValidateWebForm(req, t, clients, now);
    if errors != [] {
      return FormInvalid(errors);
    }
    var mode := cleaned.clientMode.GetOr("");
    var nb := cleaned.nbSieges.GetOr(1);
    var autreNom := if mode == "other" then cleaned.autreNom else None;
    var autreTel := if mode == "other" then cleaned.autreTel else None;
    ghost var row := WebRow(req, v.nextId);
    ValidWebRequest(req, t, clients, now, v.nextId);
    assert NormaliseRow(Reservation(v.nextId, nb, CONFIRME, EN_ATTENTE, cleaned.client, autreNom, autreTel)) == row;
    NewRowAdmission(v.reservations, v.nextId, row, v.capacite, v.depart, now);
    assert SaveErrors(v.reservations, row, v.capacite, v.depart, now) == [];
    var res := v.Submit(nb, CONFIRME, cleaned.client, autreNom, autreTel, now);
    assert res == Saved(row.id);
    match res {
      case Saved(id) => out := Created(id);
      case Rejected(errs) => out := SaveFailed(errs);
      case NotFound => out := SaveFailed([]);
    }
  }

  // ---------------------------------------------------------------------
  // `api_ajouter_reservation_mobile`
  // ---------------------------------------------------------------------

  /** A JSON (or form) value as the endpoint receives it. */
  datatype Json = JNull | JBool(b: bool) | JInt(i: int) | JStr(s: string) | JOther(truthy: bool)

  /** Python truthiness, which decides the `or` chain. */
  predicate Truthy(j: Json) {
    match j
    case JNull => false
    case JBool(b) => b
    case JInt(i) => i != 0
    case JStr(s) => s != []
    case JOther(t) => t
  }

  /** `int(text)`: surrounding whitespace, an optional sign, then decimal digits. */
  function ParseIntText(s: string): (r: Option<int>)
    ensures r.Some? ==> Strip(s) != []
  {
    var t := Strip(s);
    if t == [] then None
    else if t[0] == '+' || t[0] == '-' then
      var d := t[1..];
      var m: int := if d != [] && AllDigits(d) then DigitsValue(d) else 0;
      if d != [] && AllDigits(d) then Some(if t[0] == '-' then -m else m) else None
    else if AllDigits(t) then Some(DigitsValue(t))
    else None
  }

  /** `int(x)`; `None` is the exception it raises. */
  function PyInt(j: Json): Option<int> {
    match j
    case JNull => None
    case JBool(b) => Some(if b then 1 else 0)
    case JInt(i) => Some(i)
    case JStr(s) => ParseIntText(s)
    case JOther(_) => None
  }

  /**
   * The seat count of a mobile booking: `nb_sieges`, else `sieges`, else 1;
   * a value that does not convert, or is not positive, becomes 1.
   */
  function MobileSeatCount(nbSieges: Json, sieges: Json): (n: int)
    ensures n >= 1
    ensures n > 1 ==> PyInt(if Truthy(nbSieges) then nbSieges else sieges) == Some(n)
    ensures var j := if Truthy(nbSieges) then nbSieges else sieges;
            (Truthy(nbSieges) || Truthy(sieges)) && PyInt(j).Some? && PyInt(j).value >= 1 ==> n == PyInt(j).value
  {
    var raw := if Truthy(nbSieges) then nbSieges else if Truthy(sieges) then sieges else JInt(1);
    match PyInt(raw)
    case None => 1
    case Some(n) => if n <= 0 then 1 else n
  }

  /** A positive count sent as text, in either field, is the count booked. */
  lemma MobileSeatCountOfText(n: nat, other: Json)
    requires n >= 1
    ensures MobileSeatCount(JStr(NatToString(n)), other) == n
    ensures MobileSeatCount(JNull, JStr(NatToString(n))) == n
  {
    var s := NatToString(n);
    StripUnchanged(s);
    DigitsValueOfNatToString(n);
  }

  /** With neither field given, one seat is booked. */
  lemma MobileSeatCountDefault(nbSieges: Json, sieges: Json)
    requires !Truthy(nbSieges) && !Truthy(sieges)
    ensures MobileSeatCount(nbSieges, sieges) == 1
  {
  }

  /** The statut and payment values a mobile booking asks for, via `safe_choice`. */
  method MobilePendingStatus() returns (statut: string, paiement: string)
    ensures statut == RESERVE && paiement == EN_ATTENTE
  {
    var pending := ["en_attente", "en attente"];
    assert FirstAllowed(pending, Allowed(STATUT_FIELD)) == None;
    var s := SafeChoice(STATUT_FIELD, pending);
    var p := SafeChoice(PAIEMENT_FIELD, pending);
    statut := s.GetOr(RESERVE);
    paiement := p.GetOr(EN_ATTENTE);
  }

  /**
   * `api_ajouter_reservation_mobile` for a known client and trip: books the
   * seat count read from the request, as réservé with payment pending.
   */
  method ApiAjouterReservationMobile(v: Voyage, client: nat, nbSieges: Json, sieges: Json, now: int)
    returns (res: SaveResult)
    requires v.Valid()
    modifies v
    ensures v.Valid()
    ensures var row := Reservation(old(v.nextId), MobileSeatCount(nbSieges, sieges), RESERVE, EN_ATTENTE,
                                   Some(client), None, None);
            if !TimeClosed(v.depart, now) &&
               MobileSeatCount(nbSieges, sieges) <= SiegesDisponibles(v.capacite, old(v.reservations)) then
              res == Saved(row.id) && v.reservations == old(v.reservations) + [row] && v.nextId == old(v.nextId) + 1
            else
              res.Rejected? && v.reservations == old(v.reservations) && v.nextId == old(v.nextId)
  {
    var nb := MobileSeatCount(nbSieges, sieges);
    var statut, paiement := MobilePendingStatus();
    var row := Reservation(v.nextId, nb, statut, paiement, Some(client), None, None);
    NewRowAdmission(v.reservations, v.nextId, row, v.capacite, v.depart, now);
    res := v.Submit(nb, statut, Some(client), None, None, now);
  }

  // ---------------------------------------------------------------------
  // Ticket gates
  // ---------------------------------------------------------------------

  /** `api_mobile_ticket_pdf`: the PDF is served only for the exact stored pair. */
  predicate TicketPdfAllowed(statut: string, paiement: string) {
    statut == CONFIRME && paiement == PAYE
  }

  /** A stored value as the listing compares it: lower-cased, then stripped. */
  function Key(raw: string): string {
    Strip(Lower(raw))
  }

  /** The statut shown by `_serialize_reservation_mobile`. */
  function DisplayStatut(raw: string): string {
    var k := Key(raw);
    if k in ["confirme", "confirmé", "confirmed"] then "confirmé"
    else if k in ["reserve", "réservé", "reservé", "reserved"] then "réservé"
    else Strip(raw)
  }

  /** The payment status shown by `_serialize_reservation_mobile`. */
  function DisplayPaiement(raw: string): string {
    var k := Key(raw);
    if k in ["paye", "payé", "paid"] then "payé"
    else if k in ["en_attente", "en attente", "pending"] then "en_attente"
    else if k in ["echoue", "échoué", "failed"] then "echoue"
    else Strip(raw)
  }

  /** `ticket_ready` in the mobile listing. */
  predicate TicketReady(statut: string, paiement: string) {
    DisplayStatut(statut) == "confirmé" && DisplayPaiement(paiement) == "payé"
  }

  // The stored values are their own keys (one lemma each keeps every proof small).

  lemma KeyConfirme()
    ensures Key(CONFIRME) == CONFIRME
  {
    PlainUnchanged(CONFIRME);
  }

  lemma KeyPaye()
    ensures Key(PAYE) == PAYE
  {
    PlainUnchanged(PAYE);
  }

  lemma KeyPayeStatut()
    ensures Key(PAYE_STATUT) == PAYE_STATUT
  {
    PlainUnchanged(PAYE_STATUT);
  }

  lemma KeyEnAttente()
    ensures Key(EN_ATTENTE) == EN_ATTENTE
  {
    PlainUnchanged(EN_ATTENTE);
  }

  /** Whatever the listing shows, a PDF the endpoint serves is also shown as ready. */
  lemma PdfAllowedIsReady(statut: string, paiement: string)
    requires TicketPdfAllowed(statut, paiement)
    ensures TicketReady(statut, paiement)
  {
    KeyConfirme();
    KeyPaye();
    assert DisplayStatut(statut) == "confirmé";
    assert DisplayPaiement(paiement) == "payé";
  }

  /** On rows as `save` stores them, the two gates agree. */
  lemma GatesAgreeOnStoredRows(r: Reservation)
    requires Stored(r)
    ensures TicketReady(r.statut, r.statutPaiement) <==> TicketPdfAllowed(r.statut, r.statutPaiement)
  {
    if r.statut == CONFIRME {
      PdfAllowedIsReady(r.statut, r.statutPaiement);
    } else {
      KeyEnAttente();
      assert DisplayPaiement(r.statutPaiement) == "en_attente";
    }
  }

  /** A pair written as "payé" is shown as ready but refused a PDF. */
  lemma GatesDifferOnAccentedPayment()
    ensures TicketReady(CONFIRME, PAYE_STATUT) && !TicketPdfAllowed(CONFIRME, PAYE_STATUT)
  {
    KeyConfirme();
    KeyPayeStatut();
    assert DisplayStatut(CONFIRME) == "confirmé";
    assert DisplayPaiement(PAYE_STATUT) == "payé";
    assert PAYE_STATUT[3] != PAYE[3];
  }

  /** A booking made by staff can have its ticket printed at once. */
  lemma StaffBookingHasTicket(req: WebRequest, id: nat)
    ensures var row := NormaliseRow(WebRow(req, id));
            TicketPdfAllowed(row.statut, row.statutPaiement)
  {
  }
}
