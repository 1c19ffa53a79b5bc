/**
 * `/appointments`: `GET` lists appointments filtered by date (and doctor) and
 * ordered by hour; `POST` books a slot after checking that no stored document
 * already holds the same doctor, date and hour.
 */
module Appointments {
  import opened Json
  import opened Http
  import opened Sequences
  import opened Ordering
  import opened Store
  import Availability

  const MISSING_FIELDS: string := "Se requieren los campos: pacienteNombre, doctorId, servicioId, fecha, hora"
  const SLOT_TAKEN: string := "Ya existe una cita para este doctor en esta fecha y hora"

  // ---------------------------------------------------------------- GET

  /** The listing's `WHERE`: `fecha` (and `doctorId` when `fecha` is also given); no filter without `fecha`. */
  predicate ListingMatch(d: Object, fecha: Option<string>, doctorId: Option<string>)
  {
    Given(fecha) ==> HasText(d, Fecha, fecha.value) && (Given(doctorId) ==> HasText(d, DoctorId, doctorId.value))
  }

  /** `ORDER BY c.fecha DESC, c.hora`. */
  function NewestDayFirst(): (Object, Object) -> bool
  {
    ThenBy(Descending(ByField(Fecha)), ByField(Hora))
  }

  lemma NewestDayFirstPreorder()
    ensures TotalPreorder(NewestDayFirst())
  {
    ByFieldPreorder(Fecha);
    ByFieldPreorder(Hora);
    DescendingPreorder(ByField(Fecha));
    ThenByPreorder(Descending(ByField(Fecha)), ByField(Hora));
  }

  /**
   * The `GET` result: every stored document that matches the filter, each as
   * often as it is stored and nothing else; by `hora` when `fecha` is given,
   * by `fecha` descending then `hora` otherwise. A `doctorId` without `fecha`
   * is ignored, and no filter looks at `type`.
   */
  function ListAppointments(docs: seq<Object>, fecha: Option<string>, doctorId: Option<string>): (r: seq<Object>)
    ensures forall d :: multiset(r)[d] == if ListingMatch(d, fecha, doctorId) then multiset(docs)[d] else 0
    ensures forall d :: d in r <==> d in docs && ListingMatch(d, fecha, doctorId)
    ensures !Given(fecha) ==> multiset(r) == multiset(docs)
    ensures Given(fecha) ==> Sorted(r, ByField(Hora))
    ensures !Given(fecha) ==> Sorted(r, NewestDayFirst())
  {
    if Given(fecha) then
      ByFieldPreorder(Hora);
      var picked := Filter(docs, (d: Object) => ListingMatch(d, fecha, doctorId));
      var r := SortBy(picked, ByField(Hora));
      assert forall d :: d in r <==> d in multiset(picked);
      r
    else
      NewestDayFirstPreorder();
      var r := SortBy(docs, NewestDayFirst());
      assert forall d :: d in r <==> d in multiset(docs);
      r
  }

  // ---------------------------------------------------------------- POST

  /** All five required properties are truthy. */
  predicate RequiredGiven(body: Object)
  {
    && Truthy(Get(body, PacienteNombre)) && Truthy(Get(body, DoctorId)) && Truthy(Get(body, ServicioId))
    && Truthy(Get(body, Fecha)) && Truthy(Get(body, Hora))
  }

  /**
   * `d` holds the slot `body` asks for: the conflict query's
   * `c.doctorId = @doctorId AND c.fecha = @fecha AND c.hora = @hora`, with no
   * condition on `type` or `estado`.
   */
  predicate SameSlot(d: Object, body: Object)
  {
    && Get(body, DoctorId).Some? && Get(body, Fecha).Some? && Get(body, Hora).Some?
    && HasValue(d, DoctorId, Get(body, DoctorId).value)
    && HasValue(d, Fecha, Get(body, Fecha).value)
    && HasValue(d, Hora, Get(body, Hora).value)
  }

  /** Some stored document already holds the slot. */
  predicate SlotTaken(docs: seq<Object>, body: Object)
  {
    exists i :: 0 <= i < |docs| && SameSlot(docs[i], body)
  }

  /** No two stored documents hold the same doctor, date and hour. */
  predicate NoDoubleBooking(docs: seq<Object>)
  {
    forall i, j :: 0 <= i < j < |docs| ==> !SameSlot(docs[i], docs[j])
  }

  /**
   * The stored appointment: the fresh id, the five input properties verbatim,
   * `estado` "confirmada" and the creation time, and nothing else; in
   * particular no `type`.
   */
  function NewAppointment(body: Object, id: string, now: string): (r: Object)
    ensures Get(r, Id) == Some(Str(id))
    ensures && Get(r, PacienteNombre) == Get(body, PacienteNombre) && Get(r, DoctorId) == Get(body, DoctorId)
            && Get(r, ServicioId) == Get(body, ServicioId) && Get(r, Fecha) == Get(body, Fecha)
            && Get(r, Hora) == Get(body, Hora)
    ensures Get(r, Estado) == Some(Str("confirmada")) && Get(r, CreatedAt) == Some(Str(now))
    ensures r.Keys <= {Id, PacienteNombre, DoctorId, ServicioId, Fecha, Hora, Estado, CreatedAt}
  {
    var copied := map k | k in body.Keys && k in {PacienteNombre, DoctorId, ServicioId, Fecha, Hora} :: body[k];
    copied[Id := Str(id)][Estado := Str("confirmada")][CreatedAt := Str(now)]
  }

  /**
   * What `POST` answers: 400 unless all five properties are truthy, then 409
   * when the slot is taken, otherwise 201 with the new appointment.
   */
  function BookOutcome(docs: seq<Object>, body: Object, id: string, now: string): (r: Response<Object>)
    ensures r == Fail(400, MISSING_FIELDS) <==> !RequiredGiven(body)
    ensures r == Fail(409, SLOT_TAKEN) <==> RequiredGiven(body) && SlotTaken(docs, body)
    ensures r.Ok? <==> RequiredGiven(body) && !SlotTaken(docs, body)
    ensures r.Ok? ==> r.status == 201 && r.body == NewAppointment(body, id, now)
  {
    if !RequiredGiven(body) then Fail(400, MISSING_FIELDS)
    else if SlotTaken(docs, body) then Fail(409, SLOT_TAKEN)
    else Ok(201, NewAppointment(body, id, now))
  }

  /**
   * The `POST` branch: validate, query for a document holding the slot, and
   * create the appointment only when there is none. The store gains exactly
   * the returned appointment on 201 and is untouched otherwise.
   */
  method Book(c: Container, body: Object, id: string, now: string) returns (r: Response<Object>)
    requires c.Valid() && !IdInUse(c.docs, id)
    modifies c
    ensures c.Valid()
    ensures r == BookOutcome(old(c.docs), body, id, now)
    ensures c.docs == if r.Ok? then old(c.docs) + [r.body] else old(c.docs)
  {
    if !RequiredGiven(body) {
      return Fail(400, MISSING_FIELDS);
    }
    var existing := Filter(c.docs, (d: Object) => SameSlot(d, body));
    if |existing| > 0 {
      assert existing[0] in c.docs;
      return Fail(409, SLOT_TAKEN);
    }
    assert !SlotTaken(c.docs, body) by {
      forall i | 0 <= i < |c.docs| ensures !SameSlot(c.docs[i], body) {
        assert c.docs[i] in c.docs;
      }
    }
    var cita := NewAppointment(body, id, now);
    c.Create(cita);
    r := Ok(201, cita);
  }

  /** A successful booking keeps the store free of double bookings. */
  lemma BookingKeepsNoDoubleBooking(docs: seq<Object>, body: Object, id: string, now: string)
    requires NoDoubleBooking(docs)
    requires BookOutcome(docs, body, id, now).Ok?
    ensures NoDoubleBooking(docs + [NewAppointment(body, id, now)])
  {
    var after := docs + [NewAppointment(body, id, now)];
    forall i, j | 0 <= i < j < |after| ensures !SameSlot(after[i], after[j]) {
      if j == |docs| {
        assert !SameSlot(docs[i], body);
      } else {
        assert after[i] == docs[i] && after[j] == docs[j];
      }
    }
  }

  /** Without double bookings, at most one stored document holds any given slot. */
  lemma NoDoubleBookingUnique(docs: seq<Object>, body: Object, i: int, j: int)
    requires NoDoubleBooking(docs)
    requires 0 <= i < |docs| && 0 <= j < |docs|
    requires SameSlot(docs[i], body) && SameSlot(docs[j], body)
    ensures i == j
  {
    if i < j {
      assert SameSlot(docs[i], docs[j]);
    } else if j < i {
      assert SameSlot(docs[j], docs[i]);
    }
  }

  /** Once a slot is booked, booking it again (with any id and time) is a conflict. */
  lemma RebookingConflicts(docs: seq<Object>, body: Object, id: string, now: string, id2: string, now2: string)
    requires RequiredGiven(body)
    ensures BookOutcome(docs + [NewAppointment(body, id, now)], body, id2, now2) == Fail(409, SLOT_TAKEN)
  {
    var after := docs + [NewAppointment(body, id, now)];
    assert SameSlot(after[|docs|], body);
  }

  /** Booking the same slot twice: the first call creates it, the second is refused, and one document holds the slot. */
  method BookTwice(c: Container, body: Object, id1: string, id2: string, now1: string, now2: string)
    returns (first: Response<Object>, second: Response<Object>)
    requires c.Valid() && !IdInUse(c.docs, id1) && !IdInUse(c.docs, id2) && id1 != id2
    requires RequiredGiven(body) && !SlotTaken(c.docs, body)
    modifies c
    ensures first.Ok? && first.status == 201
    ensures second == Fail(409, SLOT_TAKEN)
    ensures c.docs == old(c.docs) + [NewAppointment(body, id1, now1)]
  {
    first := Book(c, body, id1, now1);
    assert !IdInUse(c.docs, id2) by {
      assert forall i :: 0 <= i < |old(c.docs)| ==> c.docs[i] == old(c.docs)[i];
      assert !HasText(c.docs[|old(c.docs)|], Id, id2);
    }
    RebookingConflicts(old(c.docs), body, id1, now1, id2, now2);
    second := Book(c, body, id2, now2);
  }

  /**
   * The booked appointment has no `type`, so every query that selects
   * `type = "appointment"` passes it over: it occupies no hour in the
   * availability answer, and it is not found by id for a status change.
   */
  lemma BookedAppointmentIsUntyped(docs: seq<Object>, body: Object, id: string, now: string, doctorId: string, fecha: string)
    ensures forall t :: !IsOfType(NewAppointment(body, id, now), t)
    ensures Availability.BookedHours(docs + [NewAppointment(body, id, now)], doctorId, fecha)
         == Availability.BookedHours(docs, doctorId, fecha)
    ensures FindOfType(docs + [NewAppointment(body, id, now)], "appointment", Some(Str(id)))
         == FindOfType(docs, "appointment", Some(Str(id)))
  {
    var x := NewAppointment(body, id, now);
    assert Get(x, Type) == None;
    Availability.BookedHoursAppendOther(docs, x, doctorId, fecha);
    FindOfTypeAppendOther(docs, x, "appointment", Some(Str(id)));
  }

  lemma {:induction false} FindOfTypeAppendOther(docs: seq<Object>, x: Object, t: string, id: Option<Value>)
    requires !IsOfType(x, t)
    ensures FindOfType(docs + [x], t, id) == FindOfType(docs, t, id)
  {
    if id.Some? {
      var p := (d: Object) => IsOfType(d, t) && HasValue(d, Id, id.value);
      FirstIndexAppend(docs, x, p);
    }
  }

  lemma {:induction false} FirstIndexAppend<T>(s: seq<T>, x: T, p: T -> bool)
    requires !p(x)
    ensures FirstIndex(s + [x], p) == if FirstIndex(s, p) < |s| then FirstIndex(s, p) else |s| + 1
  {
    if s != [] {
      assert (s + [x])[1..] == s[1..] + [x];
      FirstIndexAppend(s[1..], x, p);
    }
  }

  // ---------------------------------------------------------------- dispatch

  datatype Reply = Listing(items: seq<Object>) | Created(appointment: Object)

  /** The handler: `GET` reads, `POST` books, anything else is 405. */
  method AppointmentsHandler(c: Container, req: Request, id: string, now: string) returns (r: Response<Reply>)
    requires c.Valid() && !IdInUse(c.docs, id)
    modifies c
    ensures c.Valid()
    ensures req.verb == "GET" ==>
      && r == Ok(200, Listing(ListAppointments(old(c.docs), Param(req, "fecha"), Param(req, "doctorId"))))
      && c.docs == old(c.docs)
    ensures req.verb == "POST" ==>
      var b := BookOutcome(old(c.docs), req.body, id, now);
      && r == (if b.Ok? then Ok(b.status, Created(b.body)) else Fail(b.status, b.error))
      && c.docs == if b.Ok? then old(c.docs) + [b.body] else old(c.docs)
    ensures req.verb != "GET" && req.verb != "POST" ==> r == Fail(405, METHOD_NOT_ALLOWED) && c.docs == old(c.docs)
  {
    if req.verb == "GET" {
      return Ok(200, Listing(ListAppointments(c.docs, Param(req, "fecha"), Param(req, "doctorId"))));
    }
    if req.verb == "POST" {
      var b := Book(c, req.body, id, now);
      return if b.Ok? then Ok(b.status, Created(b.body)) else Fail(b.status, b.error);
    }
    return Fail(405, METHOD_NOT_ALLOWED);
  }
}
