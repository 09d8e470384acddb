# SGT booking core in Dafny

SGT is a Django application for a transport company. Its core is described
below, and this project models that core and proves properties about it.

A trip (`Voyage`) has a vehicle capacity and a set of reservations. Only
non-cancelled rows count as reserved seats (`sieges_reserves`). The free seats
are the capacity minus the reserved seats, floored at 0 (`sieges_disponibles`).
A trip stops taking bookings 30 minutes before departure, and it is also
closed when it is full (`check_statut`).

Every reservation is saved through `Reservation.save`. The save first
collapses the statut/payment pair: a confirmed or "payé" row becomes
(confirmé, paye), and every other row gets payment "en_attente". It then
runs the field validators and `clean`, which refuses a booking on a
time-closed trip or one that would take the other rows past capacity.

Around this sit several pieces:

- the staff booking form and its validation;
- the list of trips the form offers;
- the parser that reads "Places dispo: N" back out of a trip's label;
- `safe_choice`;
- the mobile booking endpoint;
- the two ticket gates;
- transaction-number selection on payment screenshots;
- the creation of walk-in client accounts;
- role changes.

Layout, one module per file:

- `wrappers.dfy`: `Option`.
- `text.dfy`: Python's `str.strip` and `str.lower` on the characters the
  program meets, ASCII digits, decimal rendering, and substrings.
- `inventory.dfy`: seat counts, trip status, status normalisation, the
  admission rule of `save`, price, and the trip label (`models.py`, as pure
  functions over a trip's rows).
- `booking.dfy`: class `Voyage`, a trip that holds its reservation rows and
  submits, edits, cancels, confirms and deletes them. Its invariant is that
  rows are stored in normal form and reserved seats never exceed capacity.
- `forms.py` is modelled by `forms.dfy`:
  - `_to_int`;
  - the "Places dispo" parser;
  - `_get_places_dispo`;
  - `get_open_voyages`;
  - `ReservationWebForm.clean`;
  - `RegisterForm.clean`.
- `views.dfy`: `safe_choice`, `ajouter_reservation`, `confirmer_paiement`,
  the mobile booking endpoint, and the ticket gates.
- `payment.dfy`: the decision part of `verify_payment_ocr`.
- `accounts.dfy`: class `Directory`, the user accounts and driver profiles
  touched by `_create_client_if_not_exists` and `changer_role`.

Time is counted in whole minutes and money in integer cents. Prices carry
two decimals, so the rounding to 0.01 in `montant_total` is the identity.

Where `models.py` and the views disagree, the model follows the views.
The code as written fails in the ways listed below, so the model describes
the views' evident intent rather than these failures:

- `ReservationForm.Meta.fields` lists `methode_paiement` (`forms.py` line
  182), which neither `Reservation` nor the form declares. Django raises
  `FieldError` while building that form class, that is, as soon as
  `forms.py` is imported. `views.py` imports it at line 32, so as written
  no view loads at all. `Booking.Voyage.Edit` models the edit that form is
  meant to perform, on the seat count and the statut.
- The staff booking view builds `Reservation(autre_nom=…, autre_tel=…,
  cree_par=…)` (`views.py` lines 1258-1265). `models.py` declares none of
  these fields, so the constructor raises `TypeError` for every valid staff
  form. The model gives reservations a guest name and phone, and
  `Views.AjouterReservation` saves the row the view means to build.
- `changer_role` looks a driver profile up by its `user` link
  (`views.py` lines 630-637), but `Chauffeur` has no `user` field
  (`models.py` lines 43-50). For the role CHAUFFEUR, `get_or_create`
  raises `FieldError` before `u.role` is saved, so as written that role
  is never stored. For the other roles, the failing `chauffeur_profile`
  lookup is swallowed by `except Exception` and the role is stored. The
  model gives driver profiles an optional user link and follows the
  intended code for every role.
- `User.ROLE_CHOICES` lacks "CHAUFFEUR", while `changer_role` accepts it.
  Model saves do not validate choices, so the intended code would store
  it. The model follows `changer_role`.
- Both booking views catch only `DatabaseError` (`views.py` lines 1279
  and 1472). A refusal by `Reservation.save` is a `ValidationError` raised
  by `full_clean`, which as written escapes as a server error. The model
  reports it as a refusal (see "## Left out").
- `confirmer_paiement` is defined twice in `views.py`. The later
  definition (line 1343) is the one in effect. Both store the pair
  (confirmé, paye); `Voyage.Confirm` models the first and
  `Views.ConfirmerPaiement` the second.

## Model

| member | source | states |
|---|---|---|
| Inventory.SiegesDisponibles | SGT/models.py:109-111 | free seats are 0 exactly when reserved ≥ capacity, and otherwise free + reserved = capacity |
| Inventory.ReservedNonNegative | SGT/models.py:102-107 | the reserved count is never negative when seat counts are not |
| Inventory.DisponiblesInRange | SGT/models.py:102-111 | free seats lie in [0, capacity]; with capacity > 0 they equal capacity exactly when nothing is reserved |
| Inventory.CheckStatut | SGT/models.py:86-100 | closed-for-time exactly when departure ≤ now + 30 min; open exactly when not time-closed and reserved < capacity |
| Inventory.OpenHasSeats | SGT/models.py:93-99 | a trip is open iff it is outside the closing window and has a free seat |
| Inventory.ClosingBoundary | SGT/models.py:88-91 | a departure exactly 30 minutes away is closed, one minute later is not closed for time |
| Inventory.Normalise | SGT/models.py:183-192 | "payé" is never stored; payment is "paye" iff statut was confirmé or payé, else "en_attente"; statut is kept except payé → confirmé |
| Inventory.NormaliseIdempotent | SGT/models.py:183-192 | normalising a normalised pair changes nothing |
| Inventory.CleanError | SGT/models.py:160-181 | a cancelled row, or one with no seats, is always accepted; otherwise a time-closed trip gives the closing error, and outside the closing window the row is refused iff others + seats > capacity, with the "full" error reporting capacity − others |
| Inventory.SaveErrors | SGT/models.py:160-195 | a row is saved iff seats ≥ 1, its statut is one of the four choices, and `clean` accepts it |
| Inventory.AdmittedFits | SGT/models.py:172-181 | a saved non-cancelled row fits with the other rows within capacity, and its trip is outside the closing window |
| Inventory.SavedRowIsStored | SGT/models.py:183-195 | every row that passes `save` is stored in normal form |
| Inventory.AdmissionScenario | SGT/models.py:172-181 | capacity 4 with 3 held: 2 more seats are refused with 1 remaining, 1 more is accepted, and after cancelling the held row the 2 fit |
| Inventory.MontantLinear | SGT/models.py:146-158 | the total is linear in the seats: 0 for no seat, the unit price (0 without a trip) for one, and additive in the seat count |
| Booking.NewRowAdmission | SGT/models.py:172-181 | a new réservé/confirmé booking on a trip that is not overbooked is admitted iff the trip is outside its closing window and the seats asked for are free |
| Booking.ReplaceRow | SGT/models.py:102-107 | replacing the row with a given key changes the reserved count by the difference between the new and old row's held seats, the other rows' sum being unchanged |
| Booking.RemoveRow | SGT/models.py:102-107 | removing a row lowers the reserved count by exactly the seats it held |
| Booking.TableAppend | SGT/models.py:183-195 | appending, under the next key, a stored row that `save` admits keeps rows stored, keys distinct and below the counter, and reserved seats within capacity |
| Booking.TableReplace | SGT/models.py:183-195 | overwriting a row with a stored row of the same key that `save` admits keeps the table valid |
| Booking.TableRemove | SGT/views.py:533-539 | deleting any row keeps the table valid |
| Booking.Voyage.Submit | SGT/models.py:183-195 | a new row is normalised, then either appended with a fresh key or refused with the save errors, leaving the trip unchanged; the invariant is kept |
| Booking.Voyage.Edit | SGT/views.py:1323-1336 | an edit of seats and statut is normalised and re-admitted, or refused with the trip unchanged; an unknown key is not found |
| Booking.Voyage.Cancel | SGT/models.py:166-167 | cancelling a known row always succeeds, frees exactly its held seats, and repeating it changes nothing |
| Booking.Voyage.Confirm | SGT/views.py:562-567 | the row becomes (confirmé, paye) if the save admits it, else the trip is unchanged |
| Booking.Voyage.Delete | SGT/views.py:533-539 | a known row is removed and its held seats are freed; an unknown key changes nothing |
| Forms.ToIntOfDigits | SGT/forms.py:213-219 | a digit run converts to its decimal value |
| Forms.ToIntDropsFraction | SGT/forms.py:213-219 | "d.f" converts to the value of d: the fraction is truncated |
| Forms.ToIntNegative | SGT/forms.py:213-219 | "-d" converts to minus the value of d |
| Forms.MatchAt | SGT/forms.py:228 | a match of the seat pattern yields a nonempty run of digits |
| Forms.SearchFrom | SGT/forms.py:228 | the search returns the first position where the pattern matches, and none iff no position matches |
| Forms.ExtractPlaces | SGT/forms.py:222-230 | none iff the text is empty or the pattern matches nowhere; otherwise the value of the digit group at the first position where the pattern matches |
| Forms.ExtractFromLabel | SGT/forms.py:222-230 | the parser reads back exactly the count written by the trip label, when the route and date contain no "places" |
| Forms.PlacesDispoOfVoyage | SGT/models.py:113-119 | for a trip, which has none of the probed attributes or methods, `_get_places_dispo` yields its free seats |
| Forms.FirstListed | SGT/forms.py:233-262 | none iff no listed name converts, else the value of the first listed name that converts |
| Forms.GetPlacesDispo | SGT/forms.py:233-262 | the probing loops return attributes first, then methods, then the parsed label |
| Forms.ProbeAll | SGT/forms.py:241-245 | one probing loop returns the converted value of the first name in list order that converts, and none when none does |
| Forms.OpenTrips | SGT/forms.py:388-407 | every kept trip is one of the input and bookable, and every bookable input trip is kept |
| Forms.GetOpenVoyages | SGT/forms.py:388-407 | the loop keeps exactly the open trips with free seats, in input order |
| Forms.OpenTripsByStatusOnly | SGT/forms.py:388-407 | the free-seat test never removes an open trip: keeping the open ones is the same filter |
| Forms.OpenTripsSorted | SGT/forms.py:388-407 | trips given in departure order stay in departure order |
| Forms.CleanReservationWeb | SGT/forms.py:409-447 | the errors are the client errors then the trip errors; in any mode but "existing" the cleaned client is cleared |
| Forms.CheckClient | SGT/forms.py:412-432 | the client errors of `clean`, with the client cleared in every mode but "existing" |
| Forms.CheckTrip | SGT/forms.py:417-445 | the trip errors of `clean`: the form-wide error on a trip that is not open, else the "full" or seat error |
| Forms.ExistingModeNeedsClient | SGT/forms.py:419-421 | in "existing" mode the only client error is the missing-client one, raised iff no client is chosen |
| Forms.GuestModeNeedsContact | SGT/forms.py:422-432 | in other modes the name and phone errors are raised iff the field is blank after stripping, and never the client error |
| Forms.TripErrorsMeaning | SGT/forms.py:434-445 | the form-wide error iff the trip is not open; the "full" error cannot arise on an open trip; no trip error iff the trip is bookable and the seats fit; the seat error names the free seats iff more are asked on an open trip |
| Forms.RegisterErrors | SGT/forms.py:57-63 | an error on the confirmation iff both passwords are given and differ |
| Views.FirstAllowed | SGT/views.py:1139-1141 | none iff no preferred value is allowed, else an allowed preferred value |
| Views.FirstAllowedAt | SGT/views.py:1139-1141 | the first allowed preferred value is the one chosen |
| Views.SafeChoice | SGT/views.py:1130-1147 | the first allowed preferred value; else the default if allowed; else an allowed key; with no choices, the first preferred value |
| Views.MobilePendingStatus | SGT/views.py:1434-1435 | a mobile booking asks for statut "réservé" (the field default) and payment "en_attente" |
| Views.ConfirmerPaiement | SGT/views.py:1343-1349 | `safe_choice` resolves to (confirmé, paye), so the outcome is that of saving the row with that pair |
| Views.FieldValidation | SGT/forms.py:305-386 | the field validators pass iff the mode is "existing" or "other", a given client is a non-superuser account, the trip is one the form offers, a seat count ≥ 0 is given and the payment mode is one of its seven choices; a bad client is rejected on its field; a failing field is absent from the cleaned data |
| Views.Validated | SGT/forms.py:305-386 | one rejection per invalid field, naming exactly the invalid fields, and the cleaned data without them |
| Views.PostCleanMeaning | SGT/models.py:134 | on an offered trip whose seats passed `clean`, the model's validation of the built instance refuses it iff the seat count is 0 |
| Views.ZeroSeatsRejectedLast | SGT/forms.py:417 | a seat count of 0 passes the field validator and `clean` (which reads it as 1), and is refused only afterwards by the model's minimum, as the last error |
| Views.OneSeatFits | SGT/forms.py:440-445 | asking for one seat never draws the seat-count error of `clean`, because an open trip has a free seat |
| Views.ZeroSeatsPostClean | SGT/models.py:134 | a kept seat count of 0 draws exactly the minimum-value error, as `clean` accepts a row with no seats |
| Views.WebFormAccepts | SGT/forms.py:305-447 | a staff booking passes the form iff the mode is valid, a given client is eligible, the trip is open with a free seat, 1 ≤ seats ≤ free seats, the payment mode is a valid choice, and the client (or a non-blank guest name and phone) is given |
| Views.ValidateWebForm | SGT/forms.py:305-447 | `is_valid` reports the field-validator errors, then those of `clean`, then the model's; the cleaned data lose every field an error names, and the client outside "existing" mode |
| Views.ValidWebRequest | SGT/views.py:1258-1272 | a valid request is saved as the confirmed, paid row for the chosen client or guest, on a trip outside its closing window with enough free seats |
| Views.AjouterReservation | SGT/views.py:1243-1292 | an invalid form changes nothing and reports every form error; a valid one appends a (confirmé, paye) row, with guest name and phone only in "other" mode; the form's checks imply the save's, so the intended save never refuses a valid form |
| Views.StaffBookingHasTicket | SGT/views.py:1270-1272 | a staff booking, once saved, passes the ticket PDF gate |
| Views.MobileSeatCount | SGT/views.py:1426-1431 | the seat count is always ≥ 1; a positive integer value of the field chosen by `or` is kept, and a count above 1 always comes from that field |
| Views.MobileSeatCountOfText | SGT/views.py:1426-1431 | a positive count sent as text, in either field, is the count booked |
| Views.MobileSeatCountDefault | SGT/views.py:1426-1431 | with neither field given, one seat is booked |
| Views.ApiAjouterReservationMobile | SGT/views.py:1426-1471 | the row (seats, réservé, en_attente) is appended iff the trip is outside its closing window and the seats are free, else the trip is unchanged |
| Views.PdfAllowedIsReady | SGT/views.py:931 | whenever the PDF is served, the listing shows the ticket as ready |
| Views.GatesAgreeOnStoredRows | SGT/views.py:1554-1582 | on rows as `save` stores them, "ready" in the listing iff the PDF is served |
| Views.GatesDifferOnAccentedPayment | SGT/views.py:1554-1582 | the raw pair (confirmé, payé) is shown as ready but refused a PDF |
| Payment.RunStarts | SGT/views.py:695 | the run starts are increasing and are exactly the digits at the start position or after a non-digit |
| Payment.DigitRunsFrom | SGT/views.py:695 | one run per run start, in order, each reaching from its start to the next non-digit or the end: the maximal digit runs, left to right |
| Payment.DigitInRun | SGT/views.py:695 | every digit of the text lies inside the run of some run start, so no digit is missed |
| Payment.DigitRunsOfNumber | SGT/views.py:695 | a text that is a single number is found whole |
| Payment.DigitRunsNone | SGT/views.py:695 | a text without digits yields no run |
| Payment.CompanyOkInsideRun | SGT/views.py:698-701 | the phone check holds iff the phone occurs inside some digit run |
| Payment.Candidates | SGT/views.py:723-730 | the candidate list holds exactly the runs of at least the minimum length outside the blocked set, in the order they occur in the text |
| Payment.CandidatesEmpty | SGT/views.py:723-730 | the candidate list is empty iff no run is eligible |
| Payment.LongestCandidate | SGT/views.py:725-732 | `max(key=len)` of a nonempty candidate list is the first of the longest eligible runs: eligible, at least as long as every eligible run, strictly longer than every earlier one |
| Payment.LongestAt | SGT/views.py:727 | the chosen run is at least as long as every other and strictly longer than every earlier one: `max` keeps the first longest |
| Payment.TransactionId | SGT/views.py:717-732 | a chosen id is a run of ≥ 8 digits other than the phone, none iff no such run; if some run of ≥ 10 digits is neither the phone nor an amount text, the id is the first of the longest such runs, else the first of the longest runs of ≥ 8 digits other than the phone |
| Payment.VerifyPayment | SGT/views.py:669-735 | no image gives (false, none); otherwise ok iff the phone check, the amount check and an id all hold, and the id is the chosen transaction number |
| Payment.AcceptedPayment | SGT/views.py:734 | an accepted screenshot has an id of ≥ 8 digits, not the phone, occurring in the text, and the phone occurs inside some digit run |
| Accounts.CandidateInjective | SGT/views.py:1181-1184 | different attempts try different usernames |
| Accounts.FreeUsername | SGT/views.py:1178-1184 | the username is not taken; it is the stripped phone when that is free; otherwise it is phone_i for the least i ≥ 2 whose earlier candidates are all taken |
| Accounts.DriverName | SGT/views.py:634 | the driver's name is blank only when the username is |
| Accounts.Directory.CreateClientIfNotExists | SGT/views.py:1172-1208 | a blank phone whose empty username is free is refused, as `create_user` raises, and nothing changes; otherwise a new CLIENT account is added under a fresh key with a nonempty username no account has, the given name and phone, and usernames stay unique; the username is the stripped phone when free, else phone_i for the least i ≥ 2 not taken |
| Accounts.Directory.ChangerRole | SGT/views.py:613-651 | an unknown role, an unknown user or one's own account are refused in that order and change nothing; otherwise only the target's role changes, and a driver profile is linked (created if missing) for CHAUFFEUR or unlinked for any other role |
| Accounts.Directory.LinkDriver | SGT/views.py:630-637 | `get_or_create`: an existing profile of the user is kept as is; otherwise one is created under a fresh key, named after the user and carrying their phone; the directory invariant is kept |
| Accounts.Directory.UnlinkDriver | SGT/views.py:638-645 | the user ends with no linked profile; only the profile linked to the user loses its link, and no profile is removed |

## Left out

- OCR: reading the image (PIL, numpy, easyocr) is not modelled. `Payment.VerifyPayment` takes the recognised text as input, and the amount's texts (`str(int(x))`, `str(round(x))`, `str(x)`) as strings. Float formatting is not modelled.
- Exceptions inside `verify_payment_ocr` (which return (False, None)) are not modelled beyond the missing image.
- PDF and QR ticket rendering (`_build_ticket_pdf`) is presentation only and is not modelled.
- The PostgreSQL stored functions behind the seat counts are not modelled; the model uses its own `SiegesReserves`, `SiegesDisponibles` and `CheckStatut`.
- Concurrency is not modelled: `transaction.atomic`, and the matching of database error text on "Complet" and "Voyage fermé". The model's saves are sequential, so a valid staff form is never refused by the save.
- Dashboard statistics, authentication and tokens, CSRF, pagination, messages and redirects are not modelled.
- Payment-proof uploads (files and base64) are not modelled.
- Reading `user_id` and `voyage_id` in the mobile endpoint is not modelled; the endpoint is modelled for a known client and trip.
- Time zones are not modelled: departure and the clock are integer minutes, and the clock is a parameter.
- `_parse_decimal` and `_safe_decrease_places` are not modelled. The latter writes a `places_dispo` field that `Voyage` does not have.
- `transaction_id` uniqueness is not modelled: no booking path writes `transaction_id`.
- `mode_paiement` is validated by the staff form (`Views.FieldValidation`) but not stored: `Reservation` has no such field, so `hasattr(r, "mode_paiement")` is false.
- Changing a vehicle's capacity is not modelled: a trip's capacity is fixed in `Booking.Voyage`.
- The random password of a created client, and the `telephone`/`phone`/`tel` probing, are not modelled: `User` has `telephone`.
- The authorisation of the supervisor views (`superviseur_required`) is not modelled.
- Django's own field-validation messages are not modelled; they appear as `FieldRejected(field)`.
- Forms.ToInt: models `int(float(str(x).strip()))` for decimal text only. Exponents, "inf"/"nan", underscores and non-ASCII digits are treated as not converting. The precision lost by `float` above 2^53 is not modelled.
- Views.ParseIntText: `int(text)` with underscores or non-ASCII digits is treated as not converting. A JSON float (`int(2.5)`) is not modelled; `JOther` covers lists and objects.
- Payment.DigitRunsFrom: `\d` is read as the ASCII digits only.
- Forms.SearchFrom: the `\d+` group of the "Places dispo" pattern is read as ASCII digits only, although a Python 3 string pattern also matches other Unicode decimal digits.
- Forms.ExtractPlaces: reads only ASCII digits after the marker, as `Forms.SearchFrom` does.
- Forms.MatchAt: case-insensitive matching folds ASCII and Latin-1 capitals only; other Unicode case equivalents are not modelled.
- Views.SafeChoice: when neither a preferred value nor the default is allowed, `next(iter(allowed))` is modelled as some allowed key. The set's iteration order is not modelled.
- Views.ApiAjouterReservationMobile: a refusal by the save is reported as `Rejected`. As written, the view catches only `DatabaseError`, so the `ValidationError` raised by `full_clean` escapes as a server error; the same holds for `Views.AjouterReservation` (there the form's checks already prevent it).
- Accounts.Directory.CreateClientIfNotExists: the NFKC normalisation that `create_user` applies to the username after the `exists()` check is not modelled. A phone written in, say, fullwidth digits could normalise onto an existing username, and the source would then fail on the unique constraint where the model promises a fresh name.
- Booking.Voyage.Edit: the other fields that `ReservationForm` may change (client, trip) are not modelled; only seats and statut are edited.
