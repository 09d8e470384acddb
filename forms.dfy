/**
 * Booking-form logic: reading the free-seat count back out of a trip's
 * display text, the staff booking form's validation, the list of trips the
 * form offers, and the registration form's password check.
 */
module Forms {
  import opened Wrappers
  import opened Text
  import opened Inventory

  // ---------------------------------------------------------------------
  // `_extract_places_from_string`: the regex `Places\s*dispo\s*:\s*(\d+)`,
  // case-insensitive, searched left to right.
  // ---------------------------------------------------------------------

  /** The lower-case word `w` occurs at `i`, ignoring case. */
  predicate WordAt(s: string, i: nat, w: string) {
    i + |w| <= |s| && forall k :: 0 <= k < |w| ==> LowerChar(s[i + k]) == w[k]
  }

  /** The pattern matched at exactly position `i`, giving its digit group. */
  function MatchAt(s: string, i: nat): (g: Option<string>)
    ensures g.Some? ==> g.value != [] && AllDigits(g.value)
  {
    if i > |s| || !WordAt(s, i, "places") then None
    else
      var j := SkipSpace(s, i + 6);
      if !WordAt(s, j, "dispo") then None
      else
        var k := SkipSpace(s, j + 5);
        if k == |s| || s[k] != ':' then None
        else
          var m := SkipSpace(s, k + 1);
          var d := SkipDigits(s, m);
          if d == m then None else Some(s[m..d])
  }

  /**
   * `re.search` from position `i` with the matcher `at`: where the first
   * match at or after `i` starts.
   */
  function SearchFrom(at: (string, nat) -> Option<string>, s: string, i: nat): (p: Option<nat>)
    requires i <= |s|
    ensures p.None? <==> forall q :: i <= q <= |s| ==> at(s, q).None?
    ensures p.Some? ==> i <= p.value <= |s| && at(s, p.value).Some? &&
                        forall q :: i <= q < p.value ==> at(s, q).None?
    decreases |s| - i
  {
    if at(s, i).Some? then Some(i)
    else if i == |s| then None
    else SearchFrom(at, s, i + 1)
  }

  /**
   * Unsigned decimal text as `float` reads it and `int` truncates it:
   * digits, then optionally a point and more digits, with at least one
   * digit in all.
   */
  function Unsigned(body: string): (r: Option<nat>)
    ensures r.Some? ==> body != []
  {
    var j := SkipDigits(body, 0);
    var rest := body[j..];
    if (rest == [] || (rest[0] == '.' && AllDigits(rest[1..]))) && (j > 0 || |rest| > 1) then
      assert body[..j] == body[0..j];
      Some(DigitsValue(body[..j]))
    else None
  }

  /**
   * `_to_int` of a value whose text is `s`: `int(float(s.strip()))` on
   * decimal text (an optional sign, then unsigned decimal text),
   * truncating toward zero; `None` where Python raises.
   */
  function ToInt(s: string): (r: Option<int>)
    ensures r.Some? ==> Strip(s) != []
  {
    var t := Strip(s);
    if t != [] && t[0] == '-' then
      match Unsigned(t[1..])
      case None => None
      case Some(m) => Some(0 - m)
    else if t != [] && t[0] == '+' then
      match Unsigned(t[1..])
      case None => None
      case Some(m) => Some(m)
    else
      match Unsigned(t)
      case None => None
      case Some(m) => Some(m)
  }

  lemma UnsignedOfDigits(d: string)
    requires d != [] && AllDigits(d)
    ensures Unsigned(d) == Some(DigitsValue(d))
  {
    assert d[0..] == d;
    SkipDigitsToEnd(d, 0);
    assert d[..|d|] == d;
  }

  /** A run of digits converts to its value. */
  lemma ToIntOfDigits(s: string)
    requires s != [] && AllDigits(s)
    ensures ToInt(s) == Some(DigitsValue(s))
  {
    StripUnchanged(s);
    assert IsDigit(s[0]);
    UnsignedOfDigits(s);
  }

  /** A fraction is dropped: the integer part is kept. */
  lemma ToIntDropsFraction(d: string, f: string)
    requires d != [] && AllDigits(d) && AllDigits(f)
    ensures ToInt(d + "." + f) == Some(DigitsValue(d))
  {
    var s := d + "." + f;
    assert s[|s| - 1] == '.' || s[|s| - 1] == f[|f| - 1];
    StripUnchanged(s);
    assert s[0] == d[0] && IsDigit(s[0]);
    assert s[0..|d|] == d;
    SkipDigitsRun(s, 0, |d|);
    assert s[|d|..][1..] == f;
    assert s[..|d|] == d;
  }

  /** A minus sign negates: conversion truncates toward zero. */
  lemma ToIntNegative(d: string)
    requires d != [] && AllDigits(d)
    ensures ToInt("-" + d) == Some(0 - DigitsValue(d) as int)
  {
    var s := "-" + d;
    StripUnchanged(s);
    assert s[1..] == d;
    UnsignedOfDigits(d);
  }

  /** `_extract_places_from_string`: the number after the first "Places dispo:", if any. */
  function ExtractPlaces(s: string): (r: Option<int>)
    ensures r.None? <==> s == [] || forall p :: 0 <= p <= |s| ==> MatchAt(s, p).None?
    ensures r.Some? ==> exists p :: 0 <= p <= |s| && MatchAt(s, p).Some? &&
                                   (forall q :: 0 <= q < p ==> MatchAt(s, q).None?) &&
                                   r.value == DigitsValue(MatchAt(s, p).value)
  {
    if s == [] then None
    else match SearchFrom(MatchAt, s, 0)
      case None => None
      case Some(p) =>
        var group := MatchAt(s, p).value;
        ToIntOfDigits(group);
        ToInt(group)
  }

  /** No case-insensitive "places" anywhere in `h`. */
  predicate NoMarker(h: string) {
    forall i :: 0 <= i && i + 6 <= |h| ==> !WordAt(h, i, "places")
  }

  lemma {:induction false} SearchSkips(at: (string, nat) -> Option<string>, s: string, i: nat, p: nat)
    requires i <= p <= |s|
    requires forall q :: i <= q < p ==> at(s, q).None?
    ensures SearchFrom(at, s, i) == SearchFrom(at, s, p)
    decreases p - i
  {
    if i < p {
      SearchSkips(at, s, i + 1, p);
    }
  }

  /** No match can start inside a marker-free text that ends in a space. */
  lemma NoMatchBefore(s: string, h: string, q: nat)
    requires |h| <= |s| && s[..|h|] == h && NoMarker(h)
    requires |h| > 0 && h[|h| - 1] == ' '
    requires q < |h|
    ensures MatchAt(s, q).None?
  {
    if q + 6 <= |h| {
      assert !WordAt(h, q, "places");
      var k :| 0 <= k < 6 && LowerChar(h[q + k]) != "places"[k];
      assert s[q + k] == h[q + k];
    } else {
      var k := |h| - 1 - q;
      assert s[q + k] == ' ';
      assert LowerChar(s[q + k]) != "places"[k];
    }
  }

  /** "Places dispo: " followed by a non-space takes the pattern up to its digit group. */
  lemma MarkerPrefix(s: string, n: nat)
    requires n + 14 < |s| && s[n..n + 14] == "Places dispo: " && !IsSpace(s[n + 14])
    ensures WordAt(s, n, "places") && SkipSpace(s, n + 6) == n + 7
    ensures WordAt(s, n + 7, "dispo") && SkipSpace(s, n + 12) == n + 12 && s[n + 12] == ':'
    ensures SkipSpace(s, n + 13) == n + 14
  {
    var t := "Places dispo: ";
    assert forall k :: 0 <= k < 14 ==> s[n + k] == t[k];
    assert WordAt(s, n, "places") by {
      forall k | 0 <= k < 6 ensures LowerChar(s[n + k]) == "places"[k] {
        assert s[n + k] == t[k];
      }
    }
    assert s[n + 6] == ' ' && s[n + 7] == 'd' && s[n + 12] == ':' && s[n + 13] == ' ';
    assert WordAt(s, n + 7, "dispo") by {
      forall k | 0 <= k < 5 ensures LowerChar(s[n + 7 + k]) == "dispo"[k] {
        assert s[n + 7 + k] == t[7 + k];
      }
    }
  }

  /** The pattern matches at the start of "Places dispo: N" and reads N. */
  lemma MatchAtMarker(s: string, n: nat, dispo: nat)
    requires n + 14 <= |s| && s[n..] == "Places dispo: " + NatToString(dispo)
    ensures MatchAt(s, n) == Some(NatToString(dispo))
  {
    var digits := NatToString(dispo);
    assert s[n..n + 14] == "Places dispo: " && s[n + 14..] == digits by {
      assert s[n..n + 14] == s[n..][..14];
      assert s[n + 14..] == s[n..][14..];
    }
    assert s[n + 14] == digits[0];
    MarkerPrefix(s, n);
    SkipDigitsToEnd(s, n + 14);
    assert s[n + 14..|s|] == digits;
  }

  /**
   * The seat count printed by `Voyage.__str__` is read back exactly, as long
   * as the route and date text before it contains no "places".
   */
  lemma ExtractFromLabel(villeDepart: string, villeArrivee: string, date: string, heure: string, dispo: nat)
    requires NoMarker(LabelHeader(villeDepart, villeArrivee, date, heure))
    ensures ExtractPlaces(Label(villeDepart, villeArrivee, date, heure, dispo)) == Some(dispo)
  {
    var h := LabelHeader(villeDepart, villeArrivee, date, heure);
    var s := Label(villeDepart, villeArrivee, date, heure, dispo);
    var n := |h|;
    assert s == h + ("Places dispo: " + NatToString(dispo));
    assert s[..n] == h && s[n..] == "Places dispo: " + NatToString(dispo);
    assert h[n - 1] == ' ';
    forall q | 0 <= q < n
      ensures MatchAt(s, q).None?
    {
      NoMatchBefore(s, h, q);
    }
    SearchSkips(MatchAt, s, 0, n);
    MatchAtMarker(s, n, dispo);
    ToIntOfDigits(NatToString(dispo));
    DigitsValueOfNatToString(dispo);
  }

  // ---------------------------------------------------------------------
  // `_get_places_dispo`: probe attributes, then methods, then the text.
  // ---------------------------------------------------------------------

  const PLACES_ATTRS: seq<string> := ["places_dispo", "place_dispo", "places_disponibles",
                                      "places_restantes", "nb_places_dispo", "nb_places_restantes"]
  const PLACES_METHODS: seq<string> := ["get_places_dispo", "get_places_disponibles",
                                        "places_disponibles", "places_restantes"]

  /** `_to_int` of the value found under `name`, if there is one. */
  function Probe(name: string, values: map<string, string>): Option<int> {
    if name in values then ToInt(values[name]) else None
  }

  /** `Probe` against one map, as a function of the name. */
  function Prober(values: map<string, string>): string -> Option<int> {
    name => Probe(name, values)
  }

  /** The first name listed from position `from` on whose value converts to an integer, converted. */
  function FirstListed(names: seq<string>, probe: string -> Option<int>, from: nat): (r: Option<int>)
    requires from <= |names|
    ensures r.None? <==> forall i :: from <= i < |names| ==> probe(names[i]).None?
    ensures r.Some? ==> exists i :: from <= i < |names| && probe(names[i]) == r &&
                                    forall j :: from <= j < i ==> probe(names[j]).None?
    decreases |names| - from
  {
    if from == |names| then None
    else if probe(names[from]).Some? then probe(names[from])
    else FirstListed(names, probe, from + 1)
  }

  /** What `_get_places_dispo` returns: attributes, then methods, then the display text. */
  function PlacesDispo(attrs: map<string, string>, methods: map<string, string>, text: string): Option<int> {
    var a := FirstListed(PLACES_ATTRS, Prober(attrs), 0);
    if a.Some? then a
    else
      var m := FirstListed(PLACES_METHODS, Prober(methods), 0);
      if m.Some? then m
      else ExtractPlaces(text)
  }

  /**
   * `_get_places_dispo(v)`. `attrs` maps each listed attribute that `v` has
   * to the text of its value, `methods` each listed callable that returns
   * without raising to the text of its result, and `text` is `str(v)`.
   */
  method GetPlacesDispo(attrs: map<string, string>, methods: map<string, string>, text: string)
    returns (r: Option<int>)
    ensures r == PlacesDispo(attrs, methods, text)
  {
    r := ProbeAll(PLACES_ATTRS, Prober(attrs));
    if r.None? {
      r := ProbeAll(PLACES_METHODS, Prober(methods));
      if r.None? {
        r := ExtractPlaces(text);
      }
    }
  }

  /** One probing loop of `_get_places_dispo`: the names in order, stopping at the first that converts. */
  method ProbeAll(names: seq<string>, probe: string -> Option<int>) returns (r: Option<int>)
    ensures r == FirstListed(names, probe, 0)
  {
    for i := 0 to |names|
      invariant forall j :: 0 <= j < i ==> probe(names[j]).None?
    {
      var val := probe(names[i]);
      if val.Some? {
        FirstListedAt(names, probe, 0, i);
        return val;
      }
    }
    r := None;
  }

  /** The scan stops at the first name whose value converts. */
  lemma {:induction false} FirstListedAt(names: seq<string>, probe: string -> Option<int>, from: nat, i: nat)
    requires from <= i < |names| && probe(names[i]).Some?
    requires forall j :: from <= j < i ==> probe(names[j]).None?
    ensures FirstListed(names, probe, from) == probe(names[i])
    decreases i - from
  {
    if from < i {
      FirstListedAt(names, probe, from + 1, i);
    }
  }

  /**
   * A `Voyage` answers none of the probes, so `_get_places_dispo` falls back
   * to its display text and yields its free seats.
   */
  lemma PlacesDispoOfVoyage(t: Trip, villeDepart: string, villeArrivee: string, date: string, heure: string)
    requires NoMarker(LabelHeader(villeDepart, villeArrivee, date, heure))
    ensures PlacesDispo(map[], map[], Label(villeDepart, villeArrivee, date, heure, TripDisponibles(t)))
            == Some(TripDisponibles(t))
  {
    ExtractFromLabel(villeDepart, villeArrivee, date, heure, TripDisponibles(t));
  }

  // ---------------------------------------------------------------------
  // `ReservationWebForm`
  // ---------------------------------------------------------------------

  /** The trip is offered by the booking form: open and with a free seat. */
  predicate Bookable(t: Trip, now: int) {
    TripStatut(t, now) == Ouvert && TripDisponibles(t) > 0
  }

  /** `get_open_voyages` on trips already in (date, heure) order. */
  function OpenTrips(trips: seq<Trip>, now: int): (r: seq<Trip>)
    ensures forall i :: 0 <= i < |r| ==> r[i] in trips && Bookable(r[i], now)
    ensures forall t :: t in trips && Bookable(t, now) ==> t in r
  {
    if trips == [] then []
    else
      var init := trips[..|trips| - 1];
      var last := trips[|trips| - 1];
      assert trips == init + [last];
      OpenTrips(init, now) + (if Bookable(last, now) then [last] else [])
  }

  /** The loop of `get_open_voyages`: keeps the open trips that still have seats. */
  method GetOpenVoyages(trips: seq<Trip>, now: int) returns (allowed: seq<Trip>)
    ensures allowed == OpenTrips(trips, now)
  {
    allowed := [];
    for i := 0 to |trips|
      invariant allowed == OpenTrips(trips[..i], now)
    {
      var v := trips[i];
      assert trips[..i + 1][..i] == trips[..i];
      if TripStatut(v, now) != Ouvert {
        continue;
      }
      if TripDisponibles(v) <= 0 {
        continue;
      }
      allowed := allowed + [v];
    }
    assert trips[..|trips|] == trips;
  }

  /** The seat test of `get_open_voyages` never removes a trip the status test keeps. */
  lemma {:induction false} OpenTripsByStatusOnly(trips: seq<Trip>, now: int)
    ensures forall t :: t in trips ==> (Bookable(t, now) <==> TripStatut(t, now) == Ouvert)
  {
    forall t | t in trips ensures Bookable(t, now) <==> TripStatut(t, now) == Ouvert {
      OpenHasSeats(t.depart, now, t.capacite, t.reservations);
    }
  }

  predicate SortedByDepart(trips: seq<Trip>) {
    forall i, j :: 0 <= i < j < |trips| ==> trips[i].depart <= trips[j].depart
  }

  /** The form lists its trips in departure order. */
  lemma {:induction false} OpenTripsSorted(trips: seq<Trip>, now: int)
    requires SortedByDepart(trips)
    ensures SortedByDepart(OpenTrips(trips, now))
  {
    if trips != [] {
      var init := trips[..|trips| - 1];
      var last := trips[|trips| - 1];
      assert SortedByDepart(init);
      OpenTripsSorted(init, now);
      var o := OpenTrips(init, now);
      forall i | 0 <= i < |o| ensures o[i].depart <= last.depart {
        var j :| 0 <= j < |init| && init[j] == o[i];
        assert trips[j] == init[j];
      }
      if Bookable(last, now) {
        SortedAppend(o, last);
      }
    }
  }

  /** A trip departing no earlier than every listed one may be appended in order. */
  lemma SortedAppend(o: seq<Trip>, last: Trip)
    requires SortedByDepart(o) && forall i :: 0 <= i < |o| ==> o[i].depart <= last.depart
    ensures SortedByDepart(o + [last])
  {
  }

  /** The cleaned fields of the booking form, as its field validators leave them. */
  datatype WebCleaned = WebCleaned(
    clientMode: Option<string>,
    client: Option<nat>,
    autreNom: Option<string>,
    autreTel: Option<string>,
    voyage: Option<Trip>,
    nbSieges: Option<int>,
    modePaiement: Option<string>)

  /** The form fields an error can be attached to. */
  datatype Field =
    ClientModeField | ClientField | AutreNomField | AutreTelField | VoyageField | NbSiegesField | ModePaiementField |
    PasswordConfirmField

  /**
   * An error the form reports: one added by the form's own `clean`, with its
   * message, or one raised by a field's built-in validator (`FieldRejected`,
   * whose message is the framework's and is not modelled), or one the
   * model's own validation raises on the instance the form builds
   * (`ModelRejected`, a form-wide error).
   */
  datatype FormError =
    | FieldError(field: Field, message: string)
    | NonFieldError(message: string)
    | FieldRejected(field: Field)
    | ModelRejected(reason: SaveError)

  const MSG_CLIENT: string := "Veuillez sélectionner un client."
  const MSG_NOM: string := "Nom du client obligatoire."
  const MSG_TEL: string := "Téléphone obligatoire."
  const MSG_FERME: string := "Ce voyage est fermé (complet ou délai < 30min)."
  const MSG_COMPLET: string := "Voyage complet. Places restantes: 0"

  function MsgPlaces(dispo: nat): string {
    "Il reste seulement " + NatToString(dispo) + " places disponibles."
  }

  /** The client mode as the form compares it: stripped and lower-cased. */
  function ModeOf(d: WebCleaned): string {
    Lower(Strip(d.clientMode.GetOr("")))
  }

  /** Seats requested: the field, or 1 when it is empty or zero. */
  function RequestedSeats(d: WebCleaned): int {
    if d.nbSieges.None? || d.nbSieges.value == 0 then 1 else d.nbSieges.value
  }

  /** The errors about who the booking is for. */
  function ClientErrors(d: WebCleaned): seq<FormError> {
    if ModeOf(d) == "existing" then
      (if d.client.None? then [FieldError(ClientField, MSG_CLIENT)] else [])
    else
      (if Strip(d.autreNom.GetOr("")) == [] then [FieldError(AutreNomField, MSG_NOM)] else []) +
      (if Strip(d.autreTel.GetOr("")) == [] then [FieldError(AutreTelField, MSG_TEL)] else [])
  }

  /** The errors about the chosen trip and the seats asked for. */
  function TripErrors(d: WebCleaned, now: int): seq<FormError> {
    match d.voyage
    case None => []
    case Some(v) =>
      if TripStatut(v, now) != Ouvert then [NonFieldError(MSG_FERME)]
      else if TripDisponibles(v) <= 0 then [FieldError(VoyageField, MSG_COMPLET)]
      else if RequestedSeats(d) > TripDisponibles(v) then [FieldError(NbSiegesField, MsgPlaces(TripDisponibles(v)))]
      else []
  }

  /** The field an error is attached to; a form-wide error has none. */
  function ErrorField(e: FormError): Option<Field> {
    match e
    case FieldError(f, _) => Some(f)
    case FieldRejected(f) => Some(f)
    case _ => None
  }

  /** The fields an error list names. */
  function ErrorFields(errors: seq<FormError>): set<Field> {
    if errors == [] then {}
    else (match ErrorField(errors[0]) case Some(f) => {f} case None => {}) + ErrorFields(errors[1..])
  }

  lemma {:induction false} ErrorFieldsConcat(a: seq<FormError>, b: seq<FormError>)
    ensures ErrorFields(a + b) == ErrorFields(a) + ErrorFields(b)
  {
    if a == [] {
      assert a + b == b;
    } else {
      assert (a + b)[1..] == a[1..] + b;
      ErrorFieldsConcat(a[1..], b);
    }
  }

  /** An error attached to a field puts that field among the named ones. */
  lemma {:induction false} ErrorFieldsMember(errors: seq<FormError>, e: FormError)
    requires ErrorField(e).Some? && ErrorField(e).value !in ErrorFields(errors)
    ensures e !in errors
  {
    if errors != [] {
      ErrorFieldsMember(errors[1..], e);
    }
  }

  lemma ErrorFieldsOne(e: FormError)
    ensures ErrorFields([e]) == if ErrorField(e).Some? then {ErrorField(e).value} else {}
  {
    assert [e][1..] == [];
  }

  /** The error a field validator reports: none when the field is valid. */
  function RejectIf(ok: bool, f: Field): (e: seq<FormError>)
    ensures e == [] <==> ok
    ensures FieldRejected(f) in e <==> !ok
    ensures ErrorFields(e) == if ok then {} else {f}
  {
    ErrorFieldsOne(FieldRejected(f));
    if ok then [] else [FieldRejected(f)]
  }

  /**
   * The cleaned data once the fields named by `errors` are gone: a field
   * that fails its validator never enters the cleaned data, and `add_error`
   * removes the field it names.
   */
  function Dropped(d: WebCleaned, errors: seq<FormError>): (r: WebCleaned)
    ensures errors == [] ==> r == d
  {
    var fs := ErrorFields(errors);
    WebCleaned(
      if ClientModeField in fs then None else d.clientMode,
      if ClientField in fs then None else d.client,
      if AutreNomField in fs then None else d.autreNom,
      if AutreTelField in fs then None else d.autreTel,
      if VoyageField in fs then None else d.voyage,
      if NbSiegesField in fs then None else d.nbSieges,
      if ModePaiementField in fs then None else d.modePaiement)
  }

  /** Dropping in two steps drops the fields of both lists. */
  lemma DroppedTwice(d: WebCleaned, a: seq<FormError>, b: seq<FormError>)
    ensures Dropped(Dropped(d, a), b) == Dropped(d, a + b)
  {
    ErrorFieldsConcat(a, b);
  }

  /** `clean` sets the client to `None` in every mode but "existing". */
  function ClientReset(d: WebCleaned): WebCleaned {
    if ModeOf(d) == "existing" then d else d.(client := None)
  }

  /**
   * `ReservationWebForm.clean`: collects the errors it adds (and the
   * form-wide one it raises) and the cleaned data it leaves behind: the
   * client cleared outside "existing" mode, and every field it reports an
   * error on removed.
   */
  method CleanReservationWeb(data: WebCleaned, now: int) returns (cleaned: WebCleaned, errors: seq<FormError>)
    ensures errors == ClientErrors(data) + TripErrors(data, now)
    ensures cleaned == Dropped(ClientReset(data), errors)
  {
    var afterClient, clientErrors, tripErrors;
    afterClient, clientErrors := CheckClient(data);
    ClientErrorFields(data);
    TripErrorsOfFields(afterClient, data, now);
    cleaned, tripErrors := CheckTrip(afterClient, now);
    errors := clientErrors + tripErrors;
    DroppedTwice(ClientReset(data), clientErrors, tripErrors);
  }

  /** The client errors name only the client and guest fields. */
  lemma ClientErrorFields(d: WebCleaned)
    ensures ErrorFields(ClientErrors(d)) <= {ClientField, AutreNomField, AutreTelField}
  {
    ErrorFieldsOne(FieldError(ClientField, MSG_CLIENT));
    ErrorFieldsOne(FieldError(AutreNomField, MSG_NOM));
    ErrorFieldsOne(FieldError(AutreTelField, MSG_TEL));
    var a := if Strip(d.autreNom.GetOr("")) == [] then [FieldError(AutreNomField, MSG_NOM)] else [];
    var b := if Strip(d.autreTel.GetOr("")) == [] then [FieldError(AutreTelField, MSG_TEL)] else [];
    ErrorFieldsConcat(a, b);
  }

  /** The trip errors depend on the trip and the seat count only. */
  lemma TripErrorsOfFields(a: WebCleaned, b: WebCleaned, now: int)
    requires a.voyage == b.voyage && a.nbSieges == b.nbSieges
    ensures TripErrors(a, now) == TripErrors(b, now)
  {
  }

  /** The first half of `clean`: who the booking is for. */
  method CheckClient(data: WebCleaned) returns (cleaned: WebCleaned, errors: seq<FormError>)
    ensures errors == ClientErrors(data)
    ensures cleaned == Dropped(ClientReset(data), errors)
  {
    cleaned := data;
    errors := [];
    var mode := ModeOf(data);
    if mode == "existing" {
      if data.client.None? {
        errors := [FieldError(ClientField, MSG_CLIENT)];
        cleaned := cleaned.(client := None);
      }
    } else {
      var autreNom := Strip(data.autreNom.GetOr(""));
      var autreTel := Strip(data.autreTel.GetOr(""));
      if autreNom == [] {
        errors := errors + [FieldError(AutreNomField, MSG_NOM)];
        cleaned := cleaned.(autreNom := None);
        ErrorFieldsOne(FieldError(AutreNomField, MSG_NOM));
      }
      if autreTel == [] {
        ErrorFieldsConcat(errors, [FieldError(AutreTelField, MSG_TEL)]);
        ErrorFieldsOne(FieldError(AutreTelField, MSG_TEL));
        errors := errors + [FieldError(AutreTelField, MSG_TEL)];
        cleaned := cleaned.(autreTel := None);
      }
      cleaned := cleaned.(client := None);
    }
    if errors == [FieldError(ClientField, MSG_CLIENT)] {
      ErrorFieldsOne(FieldError(ClientField, MSG_CLIENT));
    }
  }

  /** The second half of `clean`: the chosen trip and the seats asked for. */
  method CheckTrip(data: WebCleaned, now: int) returns (cleaned: WebCleaned, errors: seq<FormError>)
    ensures errors == TripErrors(data, now)
    ensures cleaned == Dropped(data, errors)
  {
    cleaned := data;
    errors := [];
    var nb := RequestedSeats(data);
    if data.voyage.Some? {
      var v := data.voyage.value;
      if TripStatut(v, now) != Ouvert {
        errors := [NonFieldError(MSG_FERME)];
        ErrorFieldsOne(NonFieldError(MSG_FERME));
        return;
      }
      var dispo := TripDisponibles(v);
      if dispo <= 0 {
        errors := [FieldError(VoyageField, MSG_COMPLET)];
        cleaned := cleaned.(voyage := None);
        ErrorFieldsOne(FieldError(VoyageField, MSG_COMPLET));
      } else if nb > dispo {
        errors := [FieldError(NbSiegesField, MsgPlaces(dispo))];
        cleaned := cleaned.(nbSieges := None);
        ErrorFieldsOne(FieldError(NbSiegesField, MsgPlaces(dispo)));
      }
    }
  }

  /** In "existing" mode the only client error is a missing client. */
  lemma ExistingModeNeedsClient(d: WebCleaned)
    requires ModeOf(d) == "existing"
    ensures FieldError(ClientField, MSG_CLIENT) in ClientErrors(d) <==> d.client.None?
    ensures |ClientErrors(d)| <= 1
  {
  }

  /** In any other mode a blank guest name or phone is reported on its own field. */
  lemma GuestModeNeedsContact(d: WebCleaned)
    requires ModeOf(d) != "existing"
    ensures FieldError(AutreNomField, MSG_NOM) in ClientErrors(d) <==> AllSpace(d.autreNom.GetOr(""))
    ensures FieldError(AutreTelField, MSG_TEL) in ClientErrors(d) <==> AllSpace(d.autreTel.GetOr(""))
    ensures FieldError(ClientField, MSG_CLIENT) !in ClientErrors(d)
  {
  }

  /**
   * The trip checks: a trip that is not open gives only the form-wide error;
   * on an open trip the "full" error cannot arise, and the seat error names
   * the free seats exactly when more are asked for.
   */
  lemma TripErrorsMeaning(d: WebCleaned, now: int)
    requires d.voyage.Some?
    ensures NonFieldError(MSG_FERME) in TripErrors(d, now) <==> TripStatut(d.voyage.value, now) != Ouvert
    ensures FieldError(VoyageField, MSG_COMPLET) !in TripErrors(d, now)
    ensures TripErrors(d, now) == [] <==> Bookable(d.voyage.value, now) && RequestedSeats(d) <= TripDisponibles(d.voyage.value)
    ensures FieldError(NbSiegesField, MsgPlaces(TripDisponibles(d.voyage.value))) in TripErrors(d, now) <==>
            TripStatut(d.voyage.value, now) == Ouvert && RequestedSeats(d) > TripDisponibles(d.voyage.value)
  {
    var v := d.voyage.value;
    OpenHasSeats(v.depart, now, v.capacite, v.reservations);
  }

  // ---------------------------------------------------------------------
  // `RegisterForm.clean`
  // ---------------------------------------------------------------------

  const MSG_PASSWORDS: string := "Les mots de passe ne correspondent pas."

  /** Python truthiness of an optional string field. */
  predicate Filled(s: Option<string>) {
    s.Some? && s.value != []
  }

  /** `RegisterForm.clean`: a mismatch is reported only when both passwords are given. */
  function RegisterErrors(password: Option<string>, confirm: Option<string>): (errs: seq<FormError>)
    ensures errs != [] <==> Filled(password) && Filled(confirm) && password.value != confirm.value
    ensures forall e :: e in errs ==> e == FieldError(PasswordConfirmField, MSG_PASSWORDS)
    ensures |errs| <= 1
  {
    if Filled(password) && Filled(confirm) && password.value != confirm.value then
      [FieldError(PasswordConfirmField, MSG_PASSWORDS)]
    else
      []
  }
}
