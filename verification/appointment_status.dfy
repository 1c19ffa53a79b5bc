/**
 * `PUT /appointments/{id}/estado`: moves an appointment to a new state,
 * keeping the previous state for auditing, then answers with the stored
 * record joined to its doctor, service and branch.
 */
module AppointmentStatus {
  import opened Json
  import opened Http
  import opened Sequences
  import opened Store
  import Availability

  const PUT_ONLY: string := "Método no permitido. Use PUT para actualizar el estado de una cita."
  const ID_REQUIRED: string := "ID de cita requerido"
  const INVALID_STATE: string := "Estado inválido. Estados permitidos: confirmada, atendida, cancelada, no_asistio"
  const REASON_REQUIRED: string := "Motivo de cancelación requerido cuando el estado es \"cancelada\""
  const NOT_FOUND: string := "Cita no encontrada"

  /** The four states an appointment can be put in. */
  datatype State = Confirmada | Atendida | Cancelada | NoAsistio

  /** The state's name as stored in `estado`. */
  function StateName(e: State): string
  {
    match e
    case Confirmada => "confirmada"
    case Atendida => "atendida"
    case Cancelada => "cancelada"
    case NoAsistio => "no_asistio"
  }

  /** `estadosValidos.includes(estado)`: only one of the four names, as a string, is a state. */
  function ParseState(v: Option<Value>): (r: Option<State>)
    ensures r.Some? ==> v == Some(Str(StateName(r.value)))
    ensures r.None? <==> forall e :: v != Some(Str(StateName(e)))
  {
    match v
    case Some(Str(s)) =>
      if s == "confirmada" then Some(Confirmada)
      else if s == "atendida" then Some(Atendida)
      else if s == "cancelada" then Some(Cancelada)
      else if s == "no_asistio" then Some(NoAsistio)
      else None
    case _ => None
  }

  /** Every state's name reads back as that state. */
  lemma {:induction false} ParseStateName(e: State)
    ensures ParseState(Some(Str(StateName(e)))) == Some(e)
  {
    match e
    case Confirmada =>
    case Atendida =>
    case Cancelada => assert StateName(e) != "confirmada" && StateName(e) != "atendida";
    case NoAsistio => assert StateName(e) != "confirmada" && StateName(e) != "atendida" && StateName(e) != "cancelada";
  }

  /** What the request asks for once it passes the checks that need no store access. */
  datatype Plan = Reject(status: int, error: string) | Apply(id: string, state: State, motivo: Option<Value>)

  /**
   * The checks before the lookup, in order: method, route id, state,
   * reason when cancelling.
   */
  function Check(req: Request): (r: Plan)
    ensures req.verb != "PUT" ==> r == Reject(405, PUT_ONLY)
    ensures req.verb == "PUT" && !Given(req.routeId) ==> r == Reject(400, ID_REQUIRED)
    ensures req.verb == "PUT" && Given(req.routeId) && ParseState(Get(req.body, Estado)).None? ==> r == Reject(400, INVALID_STATE)
    ensures r == Reject(400, REASON_REQUIRED) <==>
      && req.verb == "PUT" && Given(req.routeId)
      && ParseState(Get(req.body, Estado)) == Some(Cancelada) && !Truthy(Get(req.body, MotivoCancelacion))
    ensures r.Apply? <==>
      && req.verb == "PUT" && Given(req.routeId) && ParseState(Get(req.body, Estado)).Some?
      && (ParseState(Get(req.body, Estado)) == Some(Cancelada) ==> Truthy(Get(req.body, MotivoCancelacion)))
    ensures r.Apply? ==>
      && r.id == req.routeId.value && Some(r.state) == ParseState(Get(req.body, Estado))
      && r.motivo == Get(req.body, MotivoCancelacion)
  {
    if req.verb != "PUT" then Reject(405, PUT_ONLY)
    else if !Given(req.routeId) then Reject(400, ID_REQUIRED)
    else match ParseState(Get(req.body, Estado))
      case None => Reject(400, INVALID_STATE)
      case Some(e) =>
        var motivo := Get(req.body, MotivoCancelacion);
        if e == Cancelada && !Truthy(motivo) then Reject(400, REASON_REQUIRED)
        else Apply(req.routeId.value, e, motivo)
  }

  /** The properties a status change may write. */
  const TouchedKeys: set<Field> := {Estado, EstadoAnterior, FechaCambioEstado, UpdatedAt, MotivoCancelacion, FechaAtencion}

  /**
   * The record written back: the new state, the previous one in
   * `estadoAnterior`, the change time; the reason only when cancelling with
   * one, the attention time only when attended; every other property as it
   * was, so a reason or attention time recorded earlier survives.
   */
  function UpdatedAppointment(existing: Object, e: State, motivo: Option<Value>, now: string): (r: Object)
    ensures Get(r, Estado) == Some(Str(StateName(e)))
    ensures Get(r, EstadoAnterior) == Get(existing, Estado)
    ensures Get(r, FechaCambioEstado) == Some(Str(now)) && Get(r, UpdatedAt) == Some(Str(now))
    ensures e == Cancelada && Truthy(motivo) ==> Get(r, MotivoCancelacion) == motivo
    ensures !(e == Cancelada && Truthy(motivo)) ==> Get(r, MotivoCancelacion) == Get(existing, MotivoCancelacion)
    ensures e == Atendida ==> Get(r, FechaAtencion) == Some(Str(now))
    ensures e != Atendida ==> Get(r, FechaAtencion) == Get(existing, FechaAtencion)
    ensures r - TouchedKeys == existing - TouchedKeys
  {
    var spread := Put(existing[Estado := Str(StateName(e))][FechaCambioEstado := Str(now)][UpdatedAt := Str(now)],
                      EstadoAnterior, Get(existing, Estado));
    var withReason := if e == Cancelada && Truthy(motivo) then spread[MotivoCancelacion := motivo.value] else spread;
    if e == Atendida then withReason[FechaAtencion := Str(now)] else withReason
  }

  /** The properties the join adds to the record. */
  const JoinedKeys: set<Field> := {DoctorNombre, DoctorEspecialidad, ServicioNombre, ServicioPrecio, SucursalNombre}

  /** The doctor's name and specialty, or their sentinels when the lookup failed. */
  function WithDoctor(apt: Object, doctor: Option<Object>): (r: Object)
    ensures doctor.None? ==>
      Get(r, DoctorNombre) == Some(Str(DOCTOR_NOT_FOUND)) && Get(r, DoctorEspecialidad) == Some(Str(NO_SPECIALTY))
    ensures doctor.Some? ==>
      Get(r, DoctorNombre) == Get(doctor.value, Nombre) && Get(r, DoctorEspecialidad) == Get(doctor.value, Especialidad)
    ensures r - {DoctorNombre, DoctorEspecialidad} == apt - {DoctorNombre, DoctorEspecialidad}
  {
    Put(Put(apt, DoctorNombre, ProjectOr(doctor, Nombre, Str(DOCTOR_NOT_FOUND))),
        DoctorEspecialidad, ProjectOr(doctor, Especialidad, Str(NO_SPECIALTY)))
  }

  /** The service's name and price, or the sentinel name and price 0 when the lookup failed. */
  function WithService(apt: Object, service: Option<Object>): (r: Object)
    ensures service.None? ==>
      Get(r, ServicioNombre) == Some(Str(SERVICE_NOT_FOUND)) && Get(r, ServicioPrecio) == Some(Num(0))
    ensures service.Some? ==>
      Get(r, ServicioNombre) == Get(service.value, Nombre) && Get(r, ServicioPrecio) == Get(service.value, Precio)
    ensures r - {ServicioNombre, ServicioPrecio} == apt - {ServicioNombre, ServicioPrecio}
  {
    Put(Put(apt, ServicioNombre, ProjectOr(service, Nombre, Str(SERVICE_NOT_FOUND))),
        ServicioPrecio, ProjectOr(service, Precio, Num(0)))
  }

  /**
   * The answered appointment: the stored record with the doctor's name and
   * specialty, the service's name and price and the branch name; a failed
   * lookup gives its sentinel (price 0) and never an error.
   */
  function Enrich(apt: Object, doctor: Option<Object>, service: Option<Object>): (r: Object)
    ensures doctor.None? ==>
      Get(r, DoctorNombre) == Some(Str(DOCTOR_NOT_FOUND)) && Get(r, DoctorEspecialidad) == Some(Str(NO_SPECIALTY))
    ensures doctor.Some? ==>
      Get(r, DoctorNombre) == Get(doctor.value, Nombre) && Get(r, DoctorEspecialidad) == Get(doctor.value, Especialidad)
    ensures service.None? ==>
      Get(r, ServicioNombre) == Some(Str(SERVICE_NOT_FOUND)) && Get(r, ServicioPrecio) == Some(Num(0))
    ensures service.Some? ==>
      Get(r, ServicioNombre) == Get(service.value, Nombre) && Get(r, ServicioPrecio) == Get(service.value, Precio)
    ensures Get(r, SucursalNombre) == Some(Str(BranchNameOr(apt)))
    ensures r - JoinedKeys == apt - JoinedKeys
  {
    var withDoctor := WithDoctor(apt, doctor);
    var withService := WithService(withDoctor, service);
    assert withService - JoinedKeys == apt - JoinedKeys by {
      assert withService - JoinedKeys == (withService - {ServicioNombre, ServicioPrecio}) - JoinedKeys;
      assert withDoctor - JoinedKeys == (withDoctor - {DoctorNombre, DoctorEspecialidad}) - JoinedKeys;
      assert apt - JoinedKeys == (apt - {DoctorNombre, DoctorEspecialidad}) - JoinedKeys;
    }
    withService[SucursalNombre := Str(BranchNameOr(apt))]
  }

  /** `cambio`: the previous state, the new one and when it changed. */
  datatype Change = Change(estadoAnterior: Option<Value>, estadoNuevo: string, fechaCambio: string)

  datatype StatusReply = StatusReply(message: string, appointment: Object, cambio: Change)

  function SuccessMessage(e: State): string
  {
    "Estado de cita actualizado exitosamente a \"" + StateName(e) + "\""
  }

  /** The record the request writes, when it passes the checks and the appointment exists. */
  function NewRecord(docs: seq<Object>, req: Request, now: string): (r: Option<Object>)
    ensures r.Some? <==> Check(req).Apply? && FindOfType(docs, "appointment", Some(Str(Check(req).id))).Some?
    ensures r.Some? ==>
      var existing := FindOfType(docs, "appointment", Some(Str(Check(req).id))).value;
      && existing in docs && HasText(existing, Id, req.routeId.value)
      && r.value == UpdatedAppointment(existing, Check(req).state, Check(req).motivo, now)
      && HasText(r.value, Id, req.routeId.value) && IsOfType(r.value, "appointment")
  {
    var plan := Check(req);
    if plan.Reject? then None
    else match FindOfType(docs, "appointment", Some(Str(plan.id)))
      case None => None
      case Some(existing) => Some(UpdatedAppointment(existing, plan.state, plan.motivo, now))
  }

  /**
   * The answer: the rejections of `Check`, 404 when no appointment has the id,
   * otherwise 200 with the joined record, read after the write, and the change.
   */
  function StatusOutcome(docs: seq<Object>, req: Request, now: string): (r: Response<StatusReply>)
    ensures Check(req).Reject? ==> r == Fail(Check(req).status, Check(req).error)
    ensures r == Fail(404, NOT_FOUND) <==> Check(req).Apply? && NewRecord(docs, req, now).None?
    ensures r.Ok? <==> NewRecord(docs, req, now).Some?
    ensures r.Ok? ==>
      var plan := Check(req);
      var existing := FindOfType(docs, "appointment", Some(Str(plan.id))).value;
      && r.status == 200
      && r.body.message == SuccessMessage(plan.state)
      && r.body.appointment == Enrich(NewRecord(docs, req, now).value,
                                     DoctorOf(Upserted(docs, NewRecord(docs, req, now).value), NewRecord(docs, req, now).value),
                                     ServiceOf(Upserted(docs, NewRecord(docs, req, now).value), NewRecord(docs, req, now).value))
      && r.body.cambio == Change(Get(existing, Estado), StateName(plan.state), now)
  {
    var plan := Check(req);
    if plan.Reject? then Fail(plan.status, plan.error)
    else match FindOfType(docs, "appointment", Some(Str(plan.id)))
      case None => Fail(404, NOT_FOUND)
      case Some(existing) =>
        var updated := UpdatedAppointment(existing, plan.state, plan.motivo, now);
        var after := Upserted(docs, updated);
        Ok(200, StatusReply(SuccessMessage(plan.state), Enrich(updated, DoctorOf(after, updated), ServiceOf(after, updated)),
                            Change(Get(existing, Estado), StateName(plan.state), now)))
  }

  /** The handler: validate, look the appointment up, upsert the new record, answer. */
  method UpdateStatus(c: Container, req: Request, now: string) returns (r: Response<StatusReply>)
    requires c.Valid()
    modifies c
    ensures c.Valid()
    ensures r == StatusOutcome(old(c.docs), req, now)
    ensures c.docs == if r.Ok? then Upserted(old(c.docs), NewRecord(old(c.docs), req, now).value) else old(c.docs)
  {
    var plan := Check(req);
    if plan.Reject? {
      return Fail(plan.status, plan.error);
    }
    var existing := FindOfType(c.docs, "appointment", Some(Str(plan.id)));
    if existing.None? {
      return Fail(404, NOT_FOUND);
    }
    var updated := UpdatedAppointment(existing.value, plan.state, plan.motivo, now);
    c.Upsert(updated);
    var enriched := Enrich(updated, DoctorOf(c.docs, updated), ServiceOf(c.docs, updated));
    r := Ok(200, StatusReply(SuccessMessage(plan.state), enriched,
                             Change(Get(existing.value, Estado), StateName(plan.state), now)));
  }

  /**
   * With unique ids, a successful change replaces the one appointment it
   * found, in place, and leaves every other document as it was.
   */
  lemma StatusChangeReplacesOnlyTarget(docs: seq<Object>, req: Request, now: string)
    requires UniqueIds(docs)
    requires NewRecord(docs, req, now).Some?
    ensures var after := Upserted(docs, NewRecord(docs, req, now).value);
      && |after| == |docs|
      && exists k :: 0 <= k < |docs| && HasText(docs[k], Id, req.routeId.value)
           && after[k] == NewRecord(docs, req, now).value
           && forall i :: 0 <= i < |docs| && i != k ==> after[i] == docs[i]
  {
    var updated := NewRecord(docs, req, now).value;
    var existing := FindOfType(docs, "appointment", Some(Str(Check(req).id))).value;
    var j :| 0 <= j < |docs| && docs[j] == existing;
    assert Get(docs[j], Id) == Get(updated, Id);
    var after := Upserted(docs, updated);
    var k :| 0 <= k < |docs| && Get(docs[k], Id) == Get(updated, Id) && after == docs[k := updated];
    forall i | 0 <= i < |docs| && i != k ensures after[i] == docs[i] {
    }
  }

  /** A state change leaves the properties that place an appointment in the calendar as they were. */
  lemma UpdateKeepsSlot(existing: Object, e: State, motivo: Option<Value>, now: string)
    ensures var r := UpdatedAppointment(existing, e, motivo, now);
      && Get(r, Type) == Get(existing, Type) && Get(r, DoctorId) == Get(existing, DoctorId)
      && Get(r, Fecha) == Get(existing, Fecha) && Get(r, Hora) == Get(existing, Hora) && Get(r, Id) == Get(existing, Id)
  {
    var r := UpdatedAppointment(existing, e, motivo, now);
    var rest, was := r - TouchedKeys, existing - TouchedKeys;
    assert Type !in TouchedKeys && DoctorId !in TouchedKeys && Fecha !in TouchedKeys && Hora !in TouchedKeys && Id !in TouchedKeys;
    assert Get(rest, Type) == Get(r, Type) && Get(was, Type) == Get(existing, Type);
    assert Get(rest, DoctorId) == Get(r, DoctorId) && Get(was, DoctorId) == Get(existing, DoctorId);
    assert Get(rest, Fecha) == Get(r, Fecha) && Get(was, Fecha) == Get(existing, Fecha);
    assert Get(rest, Hora) == Get(r, Hora) && Get(was, Hora) == Get(existing, Hora);
    assert Get(rest, Id) == Get(r, Id) && Get(was, Id) == Get(existing, Id);
  }

  /** Replacing one document by one with the same slot properties leaves every day's booked hours as they were. */
  lemma ReplaceKeepsBookedHours(docs: seq<Object>, after: seq<Object>, k: nat, doctorId: string, fecha: string)
    requires |after| == |docs| && k < |docs|
    requires forall i :: 0 <= i < |docs| && i != k ==> after[i] == docs[i]
    requires Get(after[k], Type) == Get(docs[k], Type) && Get(after[k], DoctorId) == Get(docs[k], DoctorId)
    requires Get(after[k], Fecha) == Get(docs[k], Fecha) && Get(after[k], Hora) == Get(docs[k], Hora)
    ensures Availability.BookedHours(after, doctorId, fecha) == Availability.BookedHours(docs, doctorId, fecha)
  {
    Availability.BookedHoursIgnoreOtherFields(after, docs, doctorId, fecha);
  }

  /**
   * With unique ids, the position of the appointment a successful change
   * replaces: there the new record keeps `type`, `doctorId`, `fecha`, `hora`
   * and `id`, and every other position is as it was.
   */
  lemma ChangedIndex(docs: seq<Object>, req: Request, now: string) returns (k: nat)
    requires UniqueIds(docs)
    requires NewRecord(docs, req, now).Some?
    ensures var after := Upserted(docs, NewRecord(docs, req, now).value);
      && |after| == |docs| && k < |docs|
      && after[k] == NewRecord(docs, req, now).value
      && (forall i :: 0 <= i < |docs| && i != k ==> after[i] == docs[i])
      && Get(after[k], Type) == Get(docs[k], Type) && Get(after[k], DoctorId) == Get(docs[k], DoctorId)
      && Get(after[k], Fecha) == Get(docs[k], Fecha) && Get(after[k], Hora) == Get(docs[k], Hora)
      && Get(after[k], Id) == Get(docs[k], Id)
  {
    var updated := NewRecord(docs, req, now).value;
    var existing := FindOfType(docs, "appointment", Some(Str(Check(req).id))).value;
    StatusChangeReplacesOnlyTarget(docs, req, now);
    var after := Upserted(docs, updated);
    k :| 0 <= k < |docs| && HasText(docs[k], Id, req.routeId.value) && after[k] == updated
         && forall i :: 0 <= i < |docs| && i != k ==> after[i] == docs[i];
    assert docs[k] == existing by {
      var j :| 0 <= j < |docs| && docs[j] == existing;
      assert Get(docs[j], Id) == Get(docs[k], Id);
    }
    UpdateKeepsSlot(existing, Check(req).state, Check(req).motivo, now);
  }

  /**
   * A state change keeps `type`, `doctorId`, `fecha` and `hora`, so it leaves
   * every availability answer as it was: a cancelled or missed appointment
   * still occupies its hour.
   */
  lemma StatusChangeKeepsBookedHours(docs: seq<Object>, req: Request, now: string, doctorId: string, fecha: string)
    requires UniqueIds(docs)
    requires NewRecord(docs, req, now).Some?
    ensures Availability.BookedHours(Upserted(docs, NewRecord(docs, req, now).value), doctorId, fecha)
         == Availability.BookedHours(docs, doctorId, fecha)
  {
    var k := ChangedIndex(docs, req, now);
    ReplaceKeepsBookedHours(docs, Upserted(docs, NewRecord(docs, req, now).value), k, doctorId, fecha);
  }
}
