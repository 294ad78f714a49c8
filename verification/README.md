# Booking service model

A Dafny model of the logic underneath the HTTP handlers of a small booking service
(`demo.js`). Customers submit delivery bookings and contact messages. Staff list,
update and delete bookings. Customers track their bookings by a fragment of their
phone number. The model covers:

- **Validators** (`Validation`, over `Regex`). The booking check runs a
  missing-field test, then the name regex `/^[A-Za-z\s]{3,}$/`, then the phone
  regex `/^[6-9]\d{9}$/`, and stops at the first failure. The contact check only
  tests that name, email and message are present. Each regex is modelled as a
  literal pattern, interpreted by an anchored matcher over quantified character
  classes. Lemmas prove that each pattern accepts exactly the strings of a direct
  rule: "at least three characters, each an ASCII letter or JavaScript
  whitespace", and "ten ASCII digits, the first one from 6 to 9".
- **Status update rule** (`Lifecycle`). The requested status and the clock value
  build an update document. The status is always written. `pickupTime` is set
  only for "Picked Up" and `deliveryTime` only for "Delivered". Any other status
  string touches no timestamp. A replay lemma covers a whole sequence of updates.
  It proves that each timestamp is the clock value of the last update that
  requested its status, and that no update ever clears a timestamp.
- **Booking store** (`BookingStore`). A `map<Id, Booking>` with create, delete,
  update, list and track, each with its "nothing else changes" frame.
  Tracking is a loop that calls a substring search (`Text.Find`). It is proved
  equal to a reference filter, and that filter is proved to return exactly the
  stored bookings whose phone contains the fragment.
- **Contact store** (`ContactStore`) and the **handlers** (`Service`). Each
  handler does one validate-then-store step and answers with a status code and
  a JSON body. The exact message texts are modelled.

The clock (`now`), fresh identifiers (`id !in store`) and the store's iteration
order (`order`, which lists every stored id once) are parameters.

In these places the model follows what the code does:
- The status is a free string: any value is stored, and only "Picked Up" and
  "Delivered" set a timestamp.
- Updating an id that is not stored answers 200 with a null booking; no
  not-found answer exists.
- `createdAt` is the clock value at the moment the booking is built.
- The tracking fragment is handed to the store as a raw regular expression with
  the case-insensitive flag; the model keeps only literal substring search.

The name rule also accepts a name made only of whitespace, such as three spaces.
The model keeps that behaviour (`Validation.RuleExamples`).

## Model

| member | source | states |
|---|---|---|
| Validation.NamePatternExact | demo.js:57-58 | the name regex accepts a string iff it has at least 3 characters, each an ASCII letter or a JavaScript whitespace character |
| Validation.PhonePatternExact | demo.js:63-64 | the phone regex accepts a string iff it is exactly 10 ASCII digits whose first digit is 6 to 9 |
| Validation.TestName | demo.js:57-58 | the name regex's test answers true iff the name has at least 3 characters, each an ASCII letter or JavaScript whitespace |
| Validation.TestPhone | demo.js:63-64 | the phone regex's test answers true iff the phone is exactly 10 ASCII digits led by 6 to 9 |
| Validation.CheckBooking | demo.js:52-66 | missing field iff some field is empty; invalid name iff all fields are present and the name breaks the rule; invalid phone iff fields and name pass and the phone breaks the rule; accepted iff all three pass |
| Validation.ShortOrDigitNameRejected | demo.js:57-60 | with all fields present, a name shorter than 3 or containing a digit is rejected as an invalid name |
| Validation.BadPhoneRejected | demo.js:63-66 | with fields present and a valid name, a phone of wrong length, with a non-digit, or led by 0-5 is rejected as an invalid phone |
| Validation.RuleExamples | demo.js:56-66 | sample names and phones: "Jane Doe" and a whitespace-only name pass, "Jo" and "Jane2" fail; "9876543210" passes, "5876543210" and a 9-digit number fail |
| Validation.CheckContact | demo.js:133-135 | a contact is rejected, as a missing field, iff name, email or message is empty; no format rule applies |
| Text.Find | demo.js:121 | returns -1 iff the fragment occurs nowhere in the phone, otherwise the first position where it occurs |
| Text.FragmentExamples | demo.js:121 | "987" is found in "9876543210" and, unanchored, in "1234598765"; it is not found in "1234567890" |
| Lifecycle.PatchFor | demo.js:101-108 | the update always carries the status; it carries pickupTime = now iff the status is "Picked Up" and deliveryTime = now iff it is "Delivered" |
| Lifecycle.Apply | demo.js:109 | merging an update overwrites exactly the fields it carries; submitted fields and createdAt are unchanged |
| Lifecycle.Transition | demo.js:101-109 | an update sets the status; it sets pickupTime to now iff the status is "Picked Up" and deliveryTime to now iff it is "Delivered"; otherwise the timestamp keeps its value; nothing else changes |
| Lifecycle.ReplayStamps | demo.js:101-109 | after any sequence of updates, each timestamp is the clock of the last update requesting its status, or the original; the status is the last one requested; the other fields are unchanged |
| Lifecycle.StampsPersist | demo.js:104-108 | once a timestamp is set, no later update clears it |
| Lifecycle.StampSetIffRequested | demo.js:104-108 | starting from no timestamps, a timestamp is set iff some update requested its status |
| BookingStore.NewBooking | demo.js:26-36 | a new booking keeps every submitted field, has status "Pending", no pickup or delivery time, and createdAt = now |
| BookingStore.Create | demo.js:68-69 | saving adds exactly the fresh id, mapped to the new booking; every existing booking is unchanged |
| BookingStore.Delete | demo.js:91 | deleting removes exactly the given id; the other bookings are unchanged; an absent id leaves the store as it was |
| BookingStore.DeleteUndoesCreate | demo.js:68-92 | deleting a booking just created restores the previous store |
| BookingStore.Update | demo.js:109 | for a stored id, that booking becomes its status transition and is returned; for an unknown id, the store is unchanged and None is returned; other bookings are untouched either way |
| BookingStore.ListAll | demo.js:81 | the listing has one entry per id of the store's order, each carrying the stored booking |
| BookingStore.ListAllSize | demo.js:81-82 | over a full enumeration, the listing holds as many entries as the store has bookings |
| BookingStore.Track | demo.js:121 | the tracking loop returns the same entries as the reference filter |
| BookingStore.MatchingMembers | demo.js:121 | an entry is tracked iff it is a stored booking in the store's order whose phone contains the fragment |
| BookingStore.TrackExact | demo.js:118-122 | over the full store, tracking returns only stored bookings, and every stored booking whose phone contains the fragment |
| BookingStore.MatchingDistinct | demo.js:121 | over an order listing each id once, tracking lists each booking at most once |
| BookingStore.TrackEmptyListsAll | demo.js:121 | an empty fragment matches every phone, so tracking with it equals the full listing; the route needs a non-empty segment (demo.js:118), so the service never receives one, and the lemma only relates the two reads |
| ContactStore.NewContact | demo.js:39-44 | a new contact keeps the submitted name, email and message, with createdAt = now |
| ContactStore.Add | demo.js:137-138 | saving adds exactly the fresh id; existing contacts are unchanged |
| Service.SubmitBooking | demo.js:48-71 | answers 201 iff all fields are present and the name and phone are valid; a rejection answers 400 with the check's message and changes nothing; an acceptance adds exactly one Pending booking under the fresh id |
| Service.GetBookings | demo.js:79-82 | answers 200 with every stored booking and nothing else, one entry per booking; the database is unchanged |
| Service.DeleteBooking | demo.js:89-92 | always answers 200 "Booking deleted!"; removes exactly the id; an absent id changes nothing |
| Service.UpdateBooking | demo.js:99-110 | always answers 200 "Booking updated!"; an unknown id changes nothing and carries no booking; a known id gets the status and timestamp rule, and all else is unchanged |
| Service.TrackBookings | demo.js:118-122 | answers 200 with exactly the stored bookings whose phone contains the fragment, each once; the database is unchanged |
| Service.SubmitContact | demo.js:129-140 | answers 201 iff name, email and message are all present; otherwise it answers 400 "Please fill all fields" and changes nothing; an acceptance adds exactly the new contact |
| Service.SubmitThenDeliver | demo.js:48-110 | a valid booking is stored alone as "Pending"; marking it "Delivered" sets deliveryTime and leaves pickupTime unset |

## Left out

- Express routing, body parsing, CORS and the port setting (demo.js:1-16, 152-155): only status codes and JSON bodies are modelled.
- The database connection and every storage failure, i.e. all the 500 answers (demo.js:19-23 and each `catch`).
- Mongoose schema casting. The booking `date` is kept as the submitted string. Casting it to a Date can throw, and so can casting a malformed id to an ObjectId; both end in a 500.
- Identifier generation and the clock (`Date.now`, `new Date()`): both are parameters.
- The Socket.IO connect and disconnect logging (demo.js:147-150): it carries no logic.
- Concurrent requests and last-write-wins races between updates.
- Request fields that are absent or not strings. Every field is a string, and the empty string stands for a missing field. A PATCH with no status is not modelled.
- JavaScript strings are UTF-16 code units while a Dafny `char` is a Unicode scalar value. No character outside the Basic Multilingual Plane is a letter, digit or whitespace here, so the validators' verdicts agree.
- BookingStore.Track: it matches the fragment as literal, case-sensitive text. The store receives it as a case-insensitive regular expression, so the two agree only on fragments without metacharacters or letters, such as digit strings.
- Service.TrackBookings: the same restriction as BookingStore.Track.
- Text.Find: it searches for literal text only; it does not model regular-expression syntax.
