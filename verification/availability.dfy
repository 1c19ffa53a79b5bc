/**
 * `GET /availability?doctorId=&fecha=`: a doctor's schedule template minus
 * the hours already booked with that doctor on that date.
 */
module Availability {
  import opened Json
  import opened Http
  import opened Sequences
  import opened Store

  const MISSING_PARAMETERS: string := "Se requieren los parámetros: doctorId y fecha"

  /** The success body. */
  datatype Slots = Slots(
    doctorId: string,
    fecha: string,
    doctorNombre: Option<Value>,
    especialidad: Option<Value>,
    horarioCompleto: seq<Value>,
    horasOcupadas: seq<Option<Value>>,
    horariosDisponibles: seq<Value>)

  /** Both search parameters are present and non-empty. */
  predicate ParamsGiven(req: Request)
  {
    Given(Param(req, "doctorId")) && Given(Param(req, "fecha"))
  }

  /** An appointment document of this doctor on this date, whatever its `estado`. */
  predicate OccupiesDay(d: Object, doctorId: string, fecha: string)
  {
    IsOfType(d, "appointment") && HasText(d, DoctorId, doctorId) && HasText(d, Fecha, fecha)
  }

  /** `horasOcupadas`: the `hora` of every such appointment, in store order (`undefined` for one without it). */
  function BookedHours(docs: seq<Object>, doctorId: string, fecha: string): seq<Option<Value>>
  {
    if docs == [] then []
    else
      (if OccupiesDay(docs[0], doctorId, fecha) then [Get(docs[0], Hora)] else [])
      + BookedHours(docs[1..], doctorId, fecha)
  }

  /** The booked hours are exactly the `hora` values of the appointments of that doctor on that date. */
  lemma {:induction false} BookedHoursExact(docs: seq<Object>, doctorId: string, fecha: string)
    ensures forall v :: v in BookedHours(docs, doctorId, fecha) <==>
      exists d :: d in docs && OccupiesDay(d, doctorId, fecha) && Get(d, Hora) == v
  {
    if docs != [] {
      BookedHoursExact(docs[1..], doctorId, fecha);
      assert docs == [docs[0]] + docs[1..];
      forall v | exists d :: d in docs && OccupiesDay(d, doctorId, fecha) && Get(d, Hora) == v
        ensures v in BookedHours(docs, doctorId, fecha)
      {
        var d :| d in docs && OccupiesDay(d, doctorId, fecha) && Get(d, Hora) == v;
        if d != docs[0] {
          assert d in docs[1..];
        }
      }
    }
  }

  /**
   * Booked hours depend only on each document's `type`, `doctorId`, `fecha`
   * and `hora`: changing anything else, such as `estado`, leaves them as they
   * were, so a cancelled appointment keeps its hour occupied.
   */
  lemma {:induction false} BookedHoursIgnoreOtherFields(a: seq<Object>, b: seq<Object>, doctorId: string, fecha: string)
    requires |a| == |b|
    requires forall i :: 0 <= i < |a| ==>
      && Get(a[i], Type) == Get(b[i], Type) && Get(a[i], DoctorId) == Get(b[i], DoctorId)
      && Get(a[i], Fecha) == Get(b[i], Fecha) && Get(a[i], Hora) == Get(b[i], Hora)
    ensures BookedHours(a, doctorId, fecha) == BookedHours(b, doctorId, fecha)
  {
    if a != [] {
      assert Get(a[0], Type) == Get(b[0], Type) && Get(a[0], DoctorId) == Get(b[0], DoctorId);
      assert Get(a[0], Fecha) == Get(b[0], Fecha) && Get(a[0], Hora) == Get(b[0], Hora);
      BookedHoursIgnoreOtherFields(a[1..], b[1..], doctorId, fecha);
    }
  }

  /** A document that does not occupy the day adds no booked hour, wherever it is appended. */
  lemma {:induction false} BookedHoursAppendOther(docs: seq<Object>, x: Object, doctorId: string, fecha: string)
    requires !OccupiesDay(x, doctorId, fecha)
    ensures BookedHours(docs + [x], doctorId, fecha) == BookedHours(docs, doctorId, fecha)
  {
    if docs == [] {
      assert BookedHours([x], doctorId, fecha) == [] + BookedHours([], doctorId, fecha);
    } else {
      assert (docs + [x])[1..] == docs[1..] + [x];
      BookedHoursAppendOther(docs[1..], x, doctorId, fecha);
    }
  }

  /** `horasOcupadas.includes(h)`. */
  predicate Includes(booked: seq<Option<Value>>, h: Value)
  {
    exists i :: 0 <= i < |booked| && StrictEquals(booked[i], Some(h))
  }

  /**
   * `horariosDisponibles`: the schedule's slots that are not booked. A slot is
   * free exactly when it is in the schedule and not among the booked hours.
   */
  function FreeSlots(horario: seq<Value>, booked: seq<Option<Value>>): (r: seq<Value>)
    ensures forall h :: h in r <==> h in horario && !Includes(booked, h)
    ensures forall h :: h in horario ==> h in r || Includes(booked, h)
  {
    Filter(horario, (h: Value) => !Includes(booked, h))
  }

  /**
   * The free slots keep the schedule's order: they sit in the schedule at
   * strictly increasing positions, and every unbooked position is among them.
   */
  lemma FreeSlotsInOrder(horario: seq<Value>, booked: seq<Option<Value>>) returns (idx: seq<nat>)
    ensures |idx| == |FreeSlots(horario, booked)|
    ensures forall i :: 0 <= i < |idx| ==> idx[i] < |horario| && horario[idx[i]] == FreeSlots(horario, booked)[i]
    ensures forall i, j :: 0 <= i < j < |idx| ==> idx[i] < idx[j]
    ensures forall k :: 0 <= k < |horario| && !Includes(booked, horario[k]) ==> k in idx
  {
    idx := FilterEmbeds(horario, (h: Value) => !Includes(booked, h));
  }

  /** `doctor.horario || []`; `None` when the value is truthy but not an array, so that `.filter` throws. */
  function Schedule(doctor: Object): (r: Option<seq<Value>>)
    ensures !Truthy(Get(doctor, Horario)) ==> r == Some([])
    ensures Get(doctor, Horario).Some? && Get(doctor, Horario).value.List? ==> r == Some(Get(doctor, Horario).value.items)
    ensures r.None? <==> Truthy(Get(doctor, Horario)) && !Get(doctor, Horario).value.List?
  {
    var h := Get(doctor, Horario);
    if !Truthy(h) then Some([])
    else if h.value.List? then Some(h.value.items)
    else None
  }

  /** The handler with the store's container in scope (the reading it evidently intends). */
  function Availability(req: Request, docs: seq<Object>): (r: Response<Slots>)
    ensures req.verb != "GET" ==> r == Fail(405, METHOD_NOT_ALLOWED)
    ensures req.verb == "GET" && !ParamsGiven(req) ==> r == Fail(400, MISSING_PARAMETERS)
    ensures (r.Fail? && r.status == 404) <==>
      req.verb == "GET" && ParamsGiven(req) && FindOfType(docs, "doctor", Some(Str(Param(req, "doctorId").value))).None?
    ensures (r.Fail? && r.status == 500) <==>
      && req.verb == "GET" && ParamsGiven(req)
      && var doctor := FindOfType(docs, "doctor", Some(Str(Param(req, "doctorId").value)));
      && doctor.Some? && Schedule(doctor.value).None?
    ensures r.Ok? <==>
      && req.verb == "GET" && ParamsGiven(req)
      && var doctor := FindOfType(docs, "doctor", Some(Str(Param(req, "doctorId").value)));
      && doctor.Some? && Schedule(doctor.value).Some?
    ensures r.Ok? ==>
      && var doctor := FindOfType(docs, "doctor", Some(Str(r.body.doctorId)));
      && r.status == 200
      && r.body.doctorId == Param(req, "doctorId").value
      && r.body.fecha == Param(req, "fecha").value
      && doctor.Some?
      && r.body.doctorNombre == Get(doctor.value, Nombre)
      && r.body.especialidad == Get(doctor.value, Especialidad)
      && Schedule(doctor.value) == Some(r.body.horarioCompleto)
      && r.body.horasOcupadas == BookedHours(docs, r.body.doctorId, r.body.fecha)
    ensures r.Ok? ==> r.body.horariosDisponibles == FreeSlots(r.body.horarioCompleto, r.body.horasOcupadas)
    ensures r.Ok? && !Truthy(Get(FindOfType(docs, "doctor", Some(Str(r.body.doctorId))).value, Horario)) ==>
      r.body.horariosDisponibles == []
  {
    if req.verb != "GET" then Fail(405, METHOD_NOT_ALLOWED)
    else if !ParamsGiven(req) then Fail(400, MISSING_PARAMETERS)
    else
      var doctorId, fecha := Param(req, "doctorId").value, Param(req, "fecha").value;
      match FindOfType(docs, "doctor", Some(Str(doctorId)))
      case None => Fail(404, DOCTOR_NOT_FOUND)
      case Some(doctor) =>
        match Schedule(doctor)
        case None => Fail(500, INTERNAL_ERROR)
        case Some(horario) =>
          var booked := BookedHours(docs, doctorId, fecha);
          Ok(200, Slots(doctorId, fecha, Get(doctor, Nombre), Get(doctor, Especialidad),
                        horario, booked, FreeSlots(horario, booked)))
  }

  /**
   * The handler as written: it queries through `container`, a name it never
   * defines (only `database` is), so every call that gets past the parameter
   * check throws, and the catch-all answers 500.
   */
  function AvailabilityAsWritten(req: Request, docs: seq<Object>): (r: Response<Slots>)
    ensures r.Fail?
    ensures req.verb == "GET" && ParamsGiven(req) ==> r == Fail(500, INTERNAL_ERROR)
    ensures req.verb != "GET" || !ParamsGiven(req) ==> r == Availability(req, docs)
  {
    if req.verb != "GET" then Fail(405, METHOD_NOT_ALLOWED)
    else if !ParamsGiven(req) then Fail(400, MISSING_PARAMETERS)
    else Fail(500, INTERNAL_ERROR)
  }

  /** Wherever the intended handler answers 200, the handler as written answers 500. */
  lemma AsWrittenFailsWheneverIntendedSucceeds(req: Request, docs: seq<Object>)
    ensures Availability(req, docs).Ok? ==> AvailabilityAsWritten(req, docs) == Fail(500, INTERNAL_ERROR)
  {
  }

  /** A doctor with schedule 09:00, 10:00, 11:00 … */
  const SAMPLE_DOCTOR: Object := map[Id := Str("D1"), Type := Str("doctor"), Nombre := Str("Dr. Carlos Rodriguez"),
                                     Horario := List([Str("09:00"), Str("10:00"), Str("11:00")])]
  /** … one appointment with that doctor at 10:00 … */
  const SAMPLE_APPOINTMENT: Object := map[Id := Str("A1"), Type := Str("appointment"), DoctorId := Str("D1"),
                                          Fecha := Str("2024-05-01"), Hora := Str("10:00"), Estado := Str("confirmada")]
  /** … and a request for that doctor's availability on that date. */
  const SAMPLE_REQUEST: Request := Request("GET", map["doctorId" := "D1", "fecha" := "2024-05-01"], None, map[])

  lemma SampleBookedHours()
    ensures BookedHours([SAMPLE_DOCTOR, SAMPLE_APPOINTMENT], "D1", "2024-05-01") == [Some(Str("10:00"))]
  {
    var docs := [SAMPLE_DOCTOR, SAMPLE_APPOINTMENT];
    assert docs[1..] == [SAMPLE_APPOINTMENT] && docs[1..][1..] == [];
    assert !OccupiesDay(SAMPLE_DOCTOR, "D1", "2024-05-01");
    assert OccupiesDay(SAMPLE_APPOINTMENT, "D1", "2024-05-01");
    assert BookedHours([], "D1", "2024-05-01") == [];
    assert BookedHours([SAMPLE_APPOINTMENT], "D1", "2024-05-01") == [Some(Str("10:00"))];
  }

  /** `FreeSlots` on a schedule with a known first slot. */
  lemma FreeSlotsCons(h: Value, rest: seq<Value>, booked: seq<Option<Value>>)
    ensures FreeSlots([h] + rest, booked) == (if Includes(booked, h) then [] else [h]) + FreeSlots(rest, booked)
  {
    FilterCons(h, rest, (x: Value) => !Includes(booked, x));
  }

  /** Only 10:00 is booked. */
  lemma SampleBookedSlot()
    ensures !Includes([Some(Str("10:00"))], Str("09:00"))
    ensures Includes([Some(Str("10:00"))], Str("10:00"))
    ensures !Includes([Some(Str("10:00"))], Str("11:00"))
  {
    assert StrictEquals([Some(Str("10:00"))][0], Some(Str("10:00")));
  }

  lemma SampleFreeTail()
    ensures FreeSlots([Str("10:00"), Str("11:00")], [Some(Str("10:00"))]) == [Str("11:00")]
  {
    var booked := [Some(Str("10:00"))];
    SampleBookedSlot();
    assert FreeSlots([], booked) == [];
    FreeSlotsCons(Str("11:00"), [], booked);
    FreeSlotsCons(Str("10:00"), [Str("11:00")], booked);
    assert [Str("10:00"), Str("11:00")] == [Str("10:00")] + [Str("11:00")];
    assert [Str("11:00")] == [Str("11:00")] + [];
  }

  lemma SampleFreeSlots()
    ensures FreeSlots([Str("09:00"), Str("10:00"), Str("11:00")], [Some(Str("10:00"))]) == [Str("09:00"), Str("11:00")]
  {
    var booked := [Some(Str("10:00"))];
    var rest := [Str("10:00"), Str("11:00")];
    var front := FreeSlots([Str("09:00")] + rest, booked);
    SampleBookedSlot();
    FreeSlotsCons(Str("09:00"), rest, booked);
    SampleFreeTail();
    assert front == [Str("09:00"), Str("11:00")];
    assert [Str("09:00")] + rest == [Str("09:00"), Str("10:00"), Str("11:00")];
  }

  lemma SampleRequestParams()
    ensures Param(SAMPLE_REQUEST, "doctorId") == Some("D1") && Param(SAMPLE_REQUEST, "fecha") == Some("2024-05-01")
    ensures SAMPLE_REQUEST.verb == "GET" && ParamsGiven(SAMPLE_REQUEST)
  {
  }

  lemma SampleDoctorFound()
    ensures FindOfType([SAMPLE_DOCTOR, SAMPLE_APPOINTMENT], "doctor", Some(Str("D1"))) == Some(SAMPLE_DOCTOR)
    ensures Schedule(SAMPLE_DOCTOR) == Some([Str("09:00"), Str("10:00"), Str("11:00")])
  {
    var docs := [SAMPLE_DOCTOR, SAMPLE_APPOINTMENT];
    assert FirstIndex(docs, (d: Object) => IsOfType(d, "doctor") && HasValue(d, Id, Str("D1"))) == 0;
  }

  /**
   * On that sample the intended handler answers 200 with 09:00 and 11:00
   * free, and the handler as written answers 500.
   */
  lemma AsWrittenFailsOnBookedDoctor()
    ensures AvailabilityAsWritten(SAMPLE_REQUEST, [SAMPLE_DOCTOR, SAMPLE_APPOINTMENT]).status == 500
    ensures Availability(SAMPLE_REQUEST, [SAMPLE_DOCTOR, SAMPLE_APPOINTMENT]).Ok?
    ensures Availability(SAMPLE_REQUEST, [SAMPLE_DOCTOR, SAMPLE_APPOINTMENT]).body.horariosDisponibles
         == [Str("09:00"), Str("11:00")]
  {
    var docs := [SAMPLE_DOCTOR, SAMPLE_APPOINTMENT];
    SampleRequestParams();
    SampleDoctorFound();
    SampleBookedHours();
    SampleFreeSlots();
    assert Availability(SAMPLE_REQUEST, docs).body.horariosDisponibles
        == FreeSlots([Str("09:00"), Str("10:00"), Str("11:00")], [Some(Str("10:00"))]);
  }
}
