# Dental clinic scheduling API — verified model of the HTTP handlers

The system is a set of serverless HTTP handlers for a dental clinic chain.
Patients register and are searched by name or e-mail. Appointments are booked
with a doctor for a date and hour, then moved through the states `confirmada`,
`atendida`, `cancelada` and `no_asistio`. Availability answers which of a
doctor's hours are still free on a date. A report counts the appointments per
state and lists the attended and cancelled ones.

Every handler works against one document store collection. The collection
holds doctors, services, patients and appointments, told apart by their
`type` property.

The model is a set of Dafny modules:

- `Json`: documents as maps from property names to JSON values.
  - A missing property is JavaScript's `undefined`.
  - The module also gives truthiness, `===`, and the store's equality
    condition `c.k = @p`.
- `Http`: the request (method, search parameters, route id, body) and the
  answer (status with a body, or status with `{ error }`).
- `Text`: `trim`, `toLowerCase`, the store's `CONTAINS`, ordinal string order,
  and the registration e-mail pattern.
  - The pattern is a direct check, proved equal to the pattern's meaning.
- `Sequences` and `Ordering`: `filter`, "first result of a query", and
  sorting.
  - Sorting is proved to be a permutation in the requested order.
  - The orders are the store's `ORDER BY`, descending order, tie-breaking on
    a second key, and the patient name comparison.
- `Store`: the collection as a class `Container` whose `docs` the writes
  update in place.
  - `create` adds a document with a fresh id.
  - `upsert` replaces the document with the same id, or adds one.
  - The module also holds the typed lookup by id and the fixed branch table.
- One module per handler: `Availability`, `Appointments`,
  `AppointmentStatus`, `Patients` and `Reports`.
  - Read-only handlers are functions of the stored documents.
  - Handlers that write are methods that take the container.
    - Each method is proved against a function of the old store, giving the
      answer and the new store.
    - Every method keeps ids unique.
- `StoreInvariants`: the invariants that span handlers.
  - The store holds no slot twice, and no two patients share an address.
  - Every write keeps both: booking, registration and state change.
  - So a run of requests in any mix keeps them, handled one after the
    other. The one exception is a registration whose address is not in
    lower case (see below).

Generated ids and the current time are parameters of the handlers that write.

## Model

| member | source | states |
|---|---|---|
| Json.Put | src/functions/appointmentStatus.js:67-73 | a property written with a value reads back as that value; one written as `undefined` reads back as absent |
| Json.PutKeepsOthers | src/functions/appointmentStatus.js:67-73 | writing one property leaves every other property of the document as it was |
| Text.TrimSpec | src/functions/patients.js:125-131 | `trim` removes white space from both ends and nothing else: the result is the middle of the input, the removed ends are all white space, the result neither starts nor ends with white space |
| Text.TrimIdempotent | src/functions/patients.js:125-131 | trimming twice is trimming once |
| Text.TrimNoSpace | src/functions/patients.js:127 | text without white space is left unchanged by `trim` |
| Text.ToLower | src/functions/patients.js:127 | lower-casing keeps the length and maps every character on its own |
| Text.ToLowerIdempotent | src/functions/patients.js:30 | lower-casing twice is lower-casing once |
| Text.ContainsIff | src/functions/patients.js:30 | `CONTAINS(s, t)` holds exactly when `t` starts at some position of `s` |
| Text.StrLeTotal | src/functions/reports.js:27-35 | the store's string order compares any two strings |
| Text.StrLeTransitive | src/functions/reports.js:27-35 | the store's string order chains |
| Text.StrLeAntisymmetric | src/functions/reports.js:27-35 | two strings each no greater than the other are equal |
| Text.EmailValidIff | src/functions/patients.js:95-96 | the direct check accepts exactly the strings `/^[^\s@]+@[^\s@]+\.[^\s@]+$/` describes |
| Text.EmailValidUnderLower | src/functions/patients.js:127 | a valid address stays valid once lower-cased |
| Sequences.Filter | src/functions/reports.js:50-53 | `filter` keeps exactly the elements that pass, each as many times as it occurs |
| Sequences.FilterCountsPositions | src/functions/reports.js:50-53 | `filter(p).length` is the number of positions of the input whose element passes `p` |
| Sequences.FilterEmbeds | src/functions/availability.js:57-59 | `filter` keeps the relative order: the result sits in the input at increasing positions that include every passing one |
| Sequences.First | src/functions/appointmentStatus.js:54-66 | `results[0]`: absent exactly when nothing matches, otherwise an element that matches |
| Sequences.SortBy | src/functions/patients.js:51-55 | sorting under a total preorder gives a permutation of the input in that order |
| Sequences.SortByKeeps | src/functions/patients.js:51-55 | sorting keeps the length and the set of elements |
| Ordering.ByFieldPreorder | src/functions/appointments.js:21 | `ORDER BY c.k` is a total preorder on documents |
| Ordering.ByNamePreorder | src/functions/patients.js:52-54 | the name comparison, a missing name reading as empty text, is a total preorder |
| Ordering.DescendingPreorder | src/functions/appointments.js:36 | `DESC` of a total preorder is one |
| Ordering.ThenByPreorder | src/functions/appointments.js:36 | ordering by a second key among equals keeps a total preorder |
| Store.Container.Create | src/functions/appointments.js:93 | `create` appends the document and keeps ids unique |
| Store.Container.Upsert | src/functions/appointmentStatus.js:86-87 | `upsert` turns the store into `Upserted` of the old store and keeps ids unique |
| Store.Upserted | src/functions/appointmentStatus.js:86-87 | the document with the same id is replaced in place, or the new one is appended; documents with other ids stay where they were; ids stay unique |
| Store.FindOfType | src/functions/appointmentStatus.js:49-56 | the typed lookup by id finds a stored document of that type with that id, and finds none exactly when none exists or the id is `undefined` |
| Store.LookupName | src/functions/appointmentStatus.js:102-112 | a found name is paired with the id in the table; none is found exactly when no entry has the id |
| Store.BranchName | src/functions/appointmentStatus.js:112 | `sucursales.find(s => s.id === id)`: only a string equal to a table id finds a branch |
| Availability.BookedHoursExact | src/functions/availability.js:42-54 | the booked hours are exactly the `hora` values of the appointments of that doctor on that date, whatever their state |
| Availability.BookedHoursIgnoreOtherFields | src/functions/availability.js:43 | booked hours depend only on `type`, `doctorId`, `fecha` and `hora` |
| Availability.BookedHoursAppendOther | src/functions/availability.js:43 | a document that is not an appointment of that doctor on that date adds no booked hour |
| Availability.FreeSlots | src/functions/availability.js:57-59 | a slot is free exactly when it is in the schedule and not booked (`includes`, so array values are never equal) |
| Availability.FreeSlotsInOrder | src/functions/availability.js:57-59 | the free slots keep the schedule's order, and every unbooked slot is among them |
| Availability.Schedule | src/functions/availability.js:39 | no slots when the doctor's `horario` is falsy, the array's slots when it is an array, and no schedule at all (the later `filter` throws) exactly when it is truthy and not an array |
| Availability.Availability | src/functions/availability.js:11-78 | 405 for any method but GET; 400 without both parameters; 404 exactly when no doctor has the id; 500 exactly when the doctor's `horario` is truthy and not an array; 200 in every other case, with the echoed parameters, the doctor's name and specialty, the doctor's schedule, the booked hours of the store, and free slots that are the schedule's unbooked slots in schedule order |
| Availability.AvailabilityAsWritten | src/functions/availability.js:29 | the handler as written never succeeds: every GET with both parameters answers 500, and every other request answers as intended |
| Availability.AsWrittenFailsWheneverIntendedSucceeds | src/functions/availability.js:29 | on every request the intended handler answers 200, the handler as written answers 500 |
| Availability.AsWrittenFailsOnBookedDoctor | src/functions/availability.js:29-59 | for a doctor with slots 09:00, 10:00 and 11:00 and one booking at 10:00, the handler as written answers 500 where the intended one answers 200 with 09:00 and 11:00 free |
| Appointments.NewestDayFirstPreorder | src/functions/appointments.js:36 | `ORDER BY c.fecha DESC, c.hora` is a total preorder |
| Appointments.ListAppointments | src/functions/appointments.js:13-47 | the listing holds every matching document as often as it is stored and nothing else; the filter is `fecha`, plus `doctorId` only when `fecha` is given; the order is by `hora` with `fecha`, otherwise newest date first then `hora` |
| Appointments.NewAppointment | src/functions/appointments.js:82-91 | the stored appointment has the fresh id, the five submitted properties verbatim, `estado` "confirmada" and the creation time, and no other property |
| Appointments.BookOutcome | src/functions/appointments.js:54-98 | 400 exactly when a required property is falsy; 409 exactly when they are all given and a stored document holds the slot; otherwise 201 with the new appointment |
| Appointments.Book | src/functions/appointments.js:50-98 | the answer is `BookOutcome` of the old store; the store gains exactly the created appointment on 201 and is unchanged otherwise |
| Appointments.BookingKeepsNoDoubleBooking | src/functions/appointments.js:61-80 | a successful booking keeps every slot held by at most one document |
| Appointments.NoDoubleBookingUnique | src/functions/appointments.js:61-80 | without double bookings, at most one document holds any slot |
| Appointments.RebookingConflicts | src/functions/appointments.js:61-80 | booking a slot that was just booked answers 409, whatever id and time |
| Appointments.BookTwice | src/functions/appointments.js:61-93 | two bookings of a free slot: the first creates, the second is refused, and the store gains one appointment |
| Appointments.BookedAppointmentIsUntyped | src/functions/appointments.js:82-91 | the created appointment has no `type`, so it books no hour in the availability answer and is not found for a status change |
| Appointments.AppointmentsHandler | src/functions/appointments.js:13-104 | GET answers the listing and changes nothing; POST answers and writes as `Book`; any other method is 405 and changes nothing |
| AppointmentStatus.ParseState | src/functions/appointmentStatus.js:28-29 | a state is recognised exactly when the value is one of the four names as a string |
| AppointmentStatus.ParseStateName | src/functions/appointmentStatus.js:28-29 | every state's name reads back as that state |
| AppointmentStatus.Check | src/functions/appointmentStatus.js:12-46 | the checks in order: 405 for a method other than PUT, 400 without a route id, 400 for an unknown state, 400 exactly when cancelling without a reason; otherwise the change to apply, with the route id, the state and the reason |
| AppointmentStatus.UpdatedAppointment | src/functions/appointmentStatus.js:66-83 | the new state, the previous state, the change and update times; the reason only when cancelling with one, the attention time only when attended; no other property changes |
| AppointmentStatus.WithDoctor | src/functions/appointmentStatus.js:114-117 | the doctor's name and specialty, or "Doctor no encontrado" and "Sin especialidad"; nothing else changes |
| AppointmentStatus.WithService | src/functions/appointmentStatus.js:118-119 | the service's name and price, or "Servicio no encontrado" and 0; nothing else changes |
| AppointmentStatus.Enrich | src/functions/appointmentStatus.js:114-121 | the answered record is the stored one with the five joined properties, each from its lookup or its sentinel; nothing else changes |
| AppointmentStatus.NewRecord | src/functions/appointmentStatus.js:48-83 | a record is written exactly when the checks pass and an appointment has the id; it is that appointment updated, and keeps its id and type |
| AppointmentStatus.StatusOutcome | src/functions/appointmentStatus.js:12-134 | the rejections of `Check`; 404 exactly when no appointment has the id; otherwise 200 with the success message, the record joined after the write, and the previous state, new state and change time |
| AppointmentStatus.UpdateStatus | src/functions/appointmentStatus.js:12-140 | the answer is `StatusOutcome` of the old store; on 200 the store is the old one with the new record upserted, otherwise unchanged |
| AppointmentStatus.StatusChangeReplacesOnlyTarget | src/functions/appointmentStatus.js:86-87 | with unique ids, a successful change replaces the appointment with the route id in place and leaves every other document as it was |
| AppointmentStatus.UpdateKeepsSlot | src/functions/appointmentStatus.js:67-73 | a state change keeps `type`, `doctorId`, `fecha`, `hora` and `id` |
| AppointmentStatus.StatusChangeKeepsBookedHours | src/functions/appointmentStatus.js:67-87 | a state change, including a cancellation, leaves every doctor's booked hours on every date as they were |
| Patients.SearchPatients | src/functions/patients.js:20-55 | the listing holds every stored patient the search selects, as often as stored, and nothing else; ordered by surname, then name |
| Patients.SearchIgnoresCase | src/functions/patients.js:30 | a search term and its lower-cased form select the same patients |
| Patients.Cleaned | src/functions/patients.js:125-131 | exactly the seven submitted properties; the six text ones trimmed; the e-mail lower-cased, then trimmed |
| Patients.Stamped | src/functions/patients.js:122-136 | adds the fresh id, `type` "patient", the policy accepted, active, and registered and created now; every other property kept |
| Patients.NewPatient | src/functions/patients.js:122-136 | the stored patient is a patient document with the fresh id, the e-mail lower-cased and trimmed, and exactly the seven submitted and six stamped properties |
| Patients.RegisterOutcome | src/functions/patients.js:63-143 | the checks in order: 400 for a missing property, 400 without the policy, 400 for a bad e-mail, 409 exactly when a patient has that e-mail as submitted, 500 exactly when a required property is not text; otherwise 201 with the new patient |
| Patients.Register | src/functions/patients.js:63-143 | the answer is `RegisterOutcome` of the old store; the store gains exactly the created patient on 201 and is unchanged otherwise |
| Patients.StoredEmailIsLowered | src/functions/patients.js:127 | for a valid address, the stored form is the address lower-cased (nothing to trim); it is valid and already lower-case |
| Patients.SearchFindsOwnEmail | src/functions/patients.js:27-34 | a patient stored with an address lower-cased is found by a search for that address |
| Patients.RegisteredPatientFoundByEmail | src/functions/patients.js:27-34 | a newly registered patient is found by a search for the address it registered with, whatever its case |
| Patients.RegistrationKeepsEmailsUnique | src/functions/patients.js:103-120 | a registration with an address already in lower case keeps stored patient addresses unique |
| Patients.MixedCaseDuplicateAccepted | src/functions/patients.js:104-127 | registering "A@b.c" beside a patient stored as "a@b.c" succeeds, and the store then holds two patients with the same address |
| Patients.PatientsHandler | src/functions/patients.js:20-149 | GET answers the search and changes nothing; POST answers and writes as `Register`; any other method is 405 and changes nothing |
| Reports.BuildQuery | src/functions/reports.js:18-35 | the query starts with the type condition and adds one condition per given parameter; a document matches it exactly when it belongs in the report |
| Reports.Selected | src/functions/reports.js:37-45 | the selection holds every stored appointment inside the filters, as often as stored, and nothing else |
| Reports.Tally | src/functions/reports.js:50-53 | a state's count is at most the number of appointments |
| Reports.TallyCountsPositions | src/functions/reports.js:50-53 | a state's count is the number of positions in the selection holding an appointment whose `estado` is that state's name |
| Reports.MetricsOf | src/functions/reports.js:48-54 | the total is the number of selected appointments, and each state's count is at most the total |
| Reports.MetricsCountPositions | src/functions/reports.js:48-54 | `confirmadas`, `atendidas`, `canceladas` and `noAsistio` are the numbers of selected appointments whose `estado` is `confirmada`, `atendida`, `cancelada` and `no_asistio` |
| Reports.CountsAddUp | src/functions/reports.js:48-54 | the four counts add up to at most the total, and to exactly the total when every appointment's state is one of the four names |
| Reports.NewestFirstPreorder | src/functions/reports.js:59 | newest-date-first is a total preorder |
| Reports.InStateNewestFirst | src/functions/reports.js:57-64 | exactly the appointments in that state, as often as selected, newest first; as many as the state's count |
| Reports.WithNames | src/functions/reports.js:97-102 | the appointment with the doctor's, service's and branch's names, or their sentinels; nothing else changes |
| Reports.Enriched | src/functions/reports.js:67-105 | one enriched appointment per listed one, in the same position |
| Reports.WithNamesKeeps | src/functions/reports.js:97-102 | enrichment keeps every property other than the three names, `fecha` and `estado` among them |
| Reports.EnrichedInState | src/functions/reports.js:97-102 | enriching appointments of one state gives entries in that state, each a selected appointment with names joined in |
| Reports.EnrichedKeepsOrder | src/functions/reports.js:107-108 | enriching a newest-first list keeps it newest first |
| Reports.DetailList | src/functions/reports.js:56-108 | `citasAtendidas` / `citasCanceladas`: the selected appointments in that state, newest first, each enriched once with the doctor, service and branch names; so as many entries as the state's count, each in that state and joined from a selected appointment |
| Reports.FiltersEchoDeterminesSelection | src/functions/reports.js:116-120 | reading the echoed `filtros` back, with `todas` / `sin_limite` as "not given", selects the same appointments as the request did, unless a parameter was sent as its own placeholder |
| Reports.ReportsHandler | src/functions/reports.js:12-128 | 405 for any method but GET; otherwise 200 with the counts, the two detail lists and the filters of what the built query selects |
| StoreInvariants.NewPatientHoldsNoSlot | src/functions/patients.js:122-136 | a stored patient has no `doctorId`, so it holds no slot |
| StoreInvariants.BookingKeepsEmailsUnique | src/functions/appointments.js:82-91 | a booking stores a document without `type`, so stored patient addresses stay unique |
| StoreInvariants.RegistrationKeepsNoDoubleBooking | src/functions/patients.js:122-138 | a registration stores a patient, so no slot becomes held twice |
| StoreInvariants.StatusChangeKeepsNoDoubleBooking | src/functions/appointmentStatus.js:66-87 | a state change keeps the replaced appointment's doctor, date and hour, so no slot becomes held twice |
| StoreInvariants.StatusChangeKeepsEmailsUnique | src/functions/appointmentStatus.js:66-87 | a state change replaces an appointment by an appointment, so stored patient addresses stay unique |
| StoreInvariants.BookingKeepsConsistent | src/functions/appointments.js:61-91 | a successful booking keeps both no double booking and unique patient addresses |
| StoreInvariants.RegistrationKeepsConsistent | src/functions/patients.js:103-138 | a successful registration of a lower-case address keeps both invariants |
| StoreInvariants.StatusChangeKeepsConsistent | src/functions/appointmentStatus.js:66-87 | a successful state change keeps both invariants |

## Behaviour of the code worth knowing

Three behaviours of the code are easy to miss. The model follows the code in each.

- **Duplicate e-mail check.** The check is case-sensitive, while the stored
  addresses are lower-cased. A client may reasonably expect addresses that
  differ only in case to count as duplicates.
  - The code compares the address as submitted with the stored addresses,
    which are lower-cased (src/functions/patients.js:104-109 and 127).
  - `Patients.MixedCaseDuplicateAccepted` shows the consequence.
  - `Patients.RegistrationKeepsEmailsUnique` therefore holds only for
    addresses submitted in lower case.
- **Report filters.** The report filters only by `sucursalId`,
  `fechaInicio` and `fechaFin` (src/functions/reports.js:14-35).
  - There is no filter by service (`servicioId`) or by target public
    (`publicoObjetivo`). Such parameters are ignored, and the report then
    covers every service.
- **Booking without a type.** Booking stores no `type` (src/functions/appointments.js:82-91).
  - Availability, status changes and reports select `type = "appointment"`.
  - So none of them sees an appointment booked through the API
    (`Appointments.BookedAppointmentIsUntyped`).
  - The model keeps the code's behaviour.

## Left out

- The document store client, environment configuration and logging are not
  modelled.
  - The store is the `Container` of documents, and queries are functions
    over its contents.
  - Results come back in store order; the store does not promise an order
    without `ORDER BY`.
- Store failures are not modelled: connection, authorisation, missing
  container, and the patient handler's distinct 500 messages for them.
  - A request body that is not valid JSON is not modelled either.
  - In the source both end in the catch-all 500. The `details` text of a
    500 answer is not modelled.
- Metadata the store adds to the returned document (`_rid`, `_ts`,
  `_etag`) is not modelled.
  - Create and upsert answer the document as written.
- `crypto.randomUUID()` and the clock are parameters: a fresh id and one
  `now` per request.
  - The source reads the clock twice or three times in one request. The
    readings could differ by a millisecond.
- Concurrency is not modelled.
  - The race between the conflict query and `create` is left out. So is
    the same race between the duplicate e-mail query and `create`.
  - The no-double-booking and unique-address results hold for requests
    handled one after the other. For such runs they hold across all
    writers (`StoreInvariants`), with registrations restricted to
    lower-case addresses.
  - `Promise.all` in the report enrichment is a sequential map.
- The runtime's own routing is not modelled, including its filtering of
  methods a route is not registered for. Each handler answers as its code
  does for any method.
- JSON numbers are integers, and nested objects are not a `Value`.
  - Prices and durations never take part in a decision.
  - A body property holding an object behaves like one holding an array
    (truthy, never `===` another).
- Lower-casing covers ASCII and the Latin-1 capitals only. `localeCompare`
  is taken as ordinal comparison.
- Reports.InStateNewestFirst: compares `fecha` with the store's ordering on
  the stored value in place of `new Date(fecha).getTime()`.
  - The two agree for `YYYY-MM-DD` strings.
  - Invalid dates (`NaN` comparisons) and other date formats are not
    modelled.
- Patients.RegisterOutcome: an e-mail given as a non-string answers 400.
  - JavaScript's regular expression test converts it to text. So an array
    holding one valid address passes the test, then `.toLowerCase()`
    throws and the source answers 500.
- Patients.SearchPatients: a stored patient whose `apellido` or `nombre` is
  truthy but not a string sorts as empty text.
  - In the source, `localeCompare` called on such a value throws, and the
    handler answers 500. Only the left operand throws; the right one is
    converted to text.
  - The handlers here always store both properties as trimmed strings. Such
    a document can only come from a write outside these handlers.
- Sequences.SortBy: states a permutation in the requested order, not which
  of several equally ranked orders the runtime's sort picks.

## Findings

| source | as written | input that shows it | evidently intended | confidence | as-written member | corrected member |
|---|---|---|---|---|---|---|
| src/functions/availability.js:29 | the handler queries through `container`, which it never defines (only `database`, line 9), so every GET with both parameters throws and the catch-all answers 500 | GET `?doctorId=D1&fecha=2024-05-01` with a doctor D1 whose schedule is 09:00, 10:00, 11:00 and an appointment at 10:00 | take the container from the database as the other handlers do, and answer 200 with 09:00 and 11:00 free | high (undefined identifier); not executed | Availability.AvailabilityAsWritten (shown by Availability.AsWrittenFailsOnBookedDoctor and Availability.AsWrittenFailsWheneverIntendedSucceeds) | Availability.Availability |
