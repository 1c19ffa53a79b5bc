/**
 * `GET /reports`: the appointments selected by optional branch and date
 * filters, counted per state, and the attended and cancelled ones listed
 * newest first with the doctor, service and branch names joined in.
 */
module Reports {
  import opened Json
  import opened Http
  import opened Text
  import opened Sequences
  import opened Ordering
  import opened Store
  import opened AppointmentStatus

  // ---------------------------------------------------------------- query

  /**
   * One condition of the query's `WHERE`, together with the parameter it
   * binds: `c.type = "appointment"`, `c.sucursalId = @sucursalId`,
   * `c.fecha >= @fechaInicio`, `c.fecha <= @fechaFin`.
   */
  datatype Condition = OfType(t: string) | BranchIs(id: string) | FromDate(first: string) | ToDate(last: string)

  /**
   * Whether a document satisfies a condition. The store compares strings in
   * ordinal order; a `fecha` that is missing or not a string compares as
   * undefined and never satisfies a date bound.
   */
  predicate Holds(d: Object, c: Condition)
  {
    match c
    case OfType(t) => IsOfType(d, t)
    case BranchIs(id) => HasText(d, SucursalId, id)
    case FromDate(first) => Get(d, Fecha).Some? && Get(d, Fecha).value.Str? && StrLe(first, Get(d, Fecha).value.s)
    case ToDate(last) => Get(d, Fecha).Some? && Get(d, Fecha).value.Str? && StrLe(Get(d, Fecha).value.s, last)
  }

  /** `whereConditions.join(' AND ')`. */
  predicate MatchesAll(d: Object, conds: seq<Condition>)
  {
    forall i :: 0 <= i < |conds| ==> Holds(d, conds[i])
  }

  /**
   * The report's selection: appointments, of the given branch when one is
   * given, dated no earlier than `fechaInicio` and no later than `fechaFin`
   * when those are given.
   */
  predicate InReport(d: Object, sucursalId: Option<string>, fechaInicio: Option<string>, fechaFin: Option<string>)
  {
    && IsOfType(d, "appointment")
    && (Given(sucursalId) ==> HasText(d, SucursalId, sucursalId.value))
    && (Given(fechaInicio) ==> Holds(d, FromDate(fechaInicio.value)))
    && (Given(fechaFin) ==> Holds(d, ToDate(fechaFin.value)))
  }

  lemma MatchesAllPush(d: Object, conds: seq<Condition>, c: Condition)
    ensures MatchesAll(d, conds + [c]) <==> MatchesAll(d, conds) && Holds(d, c)
  {
    if MatchesAll(d, conds) && Holds(d, c) {
      forall i | 0 <= i < |conds + [c]| ensures Holds(d, (conds + [c])[i]) {
        if i < |conds| {
          assert (conds + [c])[i] == conds[i];
        }
      }
    }
    if MatchesAll(d, conds + [c]) {
      forall i | 0 <= i < |conds| ensures Holds(d, conds[i]) {
        assert (conds + [c])[i] == conds[i];
      }
      assert (conds + [c])[|conds|] == c;
    }
  }

  /**
   * Builds the `WHERE` conditions: the type condition first, then one
   * condition per truthy parameter. A document matches them exactly when it
   * belongs in the report.
   */
  method BuildQuery(sucursalId: Option<string>, fechaInicio: Option<string>, fechaFin: Option<string>)
    returns (conds: seq<Condition>)
    ensures |conds| >= 1 && conds[0] == OfType("appointment")
    ensures |conds| == 1 + (if Given(sucursalId) then 1 else 0) + (if Given(fechaInicio) then 1 else 0)
                         + (if Given(fechaFin) then 1 else 0)
    ensures forall d :: MatchesAll(d, conds) <==> InReport(d, sucursalId, fechaInicio, fechaFin)
  {
    conds := [OfType("appointment")];
    assert forall d :: MatchesAll(d, conds) <==> IsOfType(d, "appointment") by {
      forall d ensures MatchesAll(d, conds) <==> IsOfType(d, "appointment") {
        assert conds[0] == OfType("appointment");
      }
    }
    ghost var before := conds;
    if Given(sucursalId) {
      conds := conds + [BranchIs(sucursalId.value)];
      forall d ensures MatchesAll(d, conds) <==> MatchesAll(d, before) && HasText(d, SucursalId, sucursalId.value) {
        MatchesAllPush(d, before, BranchIs(sucursalId.value));
      }
    }
    before := conds;
    if Given(fechaInicio) {
      conds := conds + [FromDate(fechaInicio.value)];
      forall d ensures MatchesAll(d, conds) <==> MatchesAll(d, before) && Holds(d, FromDate(fechaInicio.value)) {
        MatchesAllPush(d, before, FromDate(fechaInicio.value));
      }
    }
    before := conds;
    if Given(fechaFin) {
      conds := conds + [ToDate(fechaFin.value)];
      forall d ensures MatchesAll(d, conds) <==> MatchesAll(d, before) && Holds(d, ToDate(fechaFin.value)) {
        MatchesAllPush(d, before, ToDate(fechaFin.value));
      }
    }
  }

  /** The appointments the query returns, in store order. */
  function Selected(docs: seq<Object>, sucursalId: Option<string>, fechaInicio: Option<string>, fechaFin: Option<string>)
    : (r: seq<Object>)
    ensures forall d :: multiset(r)[d] == if InReport(d, sucursalId, fechaInicio, fechaFin) then multiset(docs)[d] else 0
    ensures forall d :: d in r <==> d in docs && InReport(d, sucursalId, fechaInicio, fechaFin)
  {
    Filter(docs, (d: Object) => InReport(d, sucursalId, fechaInicio, fechaFin))
  }

  // ---------------------------------------------------------------- metrics

  /** `apt => apt.estado === name`. */
  function InState(name: string): Object -> bool
  {
    (a: Object) => HasText(a, Estado, name)
  }

  /** The positions of `apts` that hold an appointment whose `estado` is `name`. */
  ghost function PositionsIn(apts: seq<Object>, name: string): set<int>
  {
    set i | 0 <= i < |apts| && HasText(apts[i], Estado, name)
  }

  /** `appointments.filter(apt => apt.estado === name).length`. */
  function Tally(apts: seq<Object>, e: State): (n: nat)
    ensures n <= |apts|
  {
    |Filter(apts, InState(StateName(e)))|
  }

  /** The tally for `e` is the number of appointments whose `estado` is the name of `e`. */
  lemma TallyCountsPositions(apts: seq<Object>, e: State)
    ensures Tally(apts, e) == |PositionsIn(apts, StateName(e))|
  {
    var name := StateName(e);
    var p := InState(name);
    FilterCountsPositions(apts, p);
    forall i | 0 <= i < |apts| ensures p(apts[i]) == HasText(apts[i], Estado, name) {
    }
    assert Positions(apts, p) == PositionsIn(apts, name);
  }

  datatype Metrics = Metrics(total: nat, confirmadas: nat, atendidas: nat, canceladas: nat, noAsistio: nat)

  /** `metricas`: how many appointments there are, and how many are in each state. */
  function MetricsOf(apts: seq<Object>): (m: Metrics)
    ensures m.total == |apts|
    ensures m.confirmadas <= m.total && m.atendidas <= m.total && m.canceladas <= m.total && m.noAsistio <= m.total
  {
    Metrics(|apts|, Tally(apts, Confirmada), Tally(apts, Atendida), Tally(apts, Cancelada), Tally(apts, NoAsistio))
  }

  /** Each count of `metricas` is the number of appointments whose `estado` is that state's name. */
  lemma MetricsCountPositions(apts: seq<Object>)
    ensures MetricsOf(apts).confirmadas == |PositionsIn(apts, "confirmada")|
    ensures MetricsOf(apts).atendidas == |PositionsIn(apts, "atendida")|
    ensures MetricsOf(apts).canceladas == |PositionsIn(apts, "cancelada")|
    ensures MetricsOf(apts).noAsistio == |PositionsIn(apts, "no_asistio")|
  {
    assert StateName(Confirmada) == "confirmada" && StateName(Atendida) == "atendida";
    assert StateName(Cancelada) == "cancelada" && StateName(NoAsistio) == "no_asistio";
    TallyCountsPositions(apts, Confirmada);
    TallyCountsPositions(apts, Atendida);
    TallyCountsPositions(apts, Cancelada);
    TallyCountsPositions(apts, NoAsistio);
  }

  /** The appointment's `estado` is one of the four state names. */
  predicate KnownState(a: Object)
  {
    ParseState(Get(a, Estado)).Some?
  }

  /** The sum of the four per-state counts. */
  function Counted(m: Metrics): nat
  {
    m.confirmadas + m.atendidas + m.canceladas + m.noAsistio
  }

  /** The first appointment adds one to the count of its own state and nothing to the others. */
  lemma TallyCons(a: Object, tail: seq<Object>, e: State)
    ensures Tally([a] + tail, e) == (if HasText(a, Estado, StateName(e)) then 1 else 0) + Tally(tail, e)
  {
    assert ([a] + tail)[1..] == tail;
  }

  /** Different states have different names. */
  lemma StateNamesDiffer(e: State, f: State)
    requires e != f
    ensures StateName(e) != StateName(f)
  {
    var x, y := StateName(e), StateName(f);
    if |x| == |y| {
      assert x[0] != y[0];
    }
  }

  /** An appointment in state `e` is in no other state. */
  lemma OnlyOwnState(a: Object, e: State)
    requires HasText(a, Estado, StateName(e))
    ensures forall f :: HasText(a, Estado, StateName(f)) <==> f == e
  {
    forall f | f != e ensures !HasText(a, Estado, StateName(f)) {
      StateNamesDiffer(e, f);
    }
  }

  /** The first appointment adds one to the sum of the counts when its state is known, nothing otherwise. */
  lemma CountedCons(a: Object, tail: seq<Object>)
    ensures Counted(MetricsOf([a] + tail)) == (if KnownState(a) then 1 else 0) + Counted(MetricsOf(tail))
  {
    TallyCons(a, tail, Confirmada);
    TallyCons(a, tail, Atendida);
    TallyCons(a, tail, Cancelada);
    TallyCons(a, tail, NoAsistio);
    var parsed := ParseState(Get(a, Estado));
    if parsed.Some? {
      OnlyOwnState(a, parsed.value);
    }
  }

  /** Every appointment of `[a] + tail` has a known state exactly when `a` and every one of `tail` do. */
  lemma AllKnownCons(a: Object, tail: seq<Object>)
    ensures (forall x :: x in [a] + tail ==> KnownState(x)) <==> KnownState(a) && forall x :: x in tail ==> KnownState(x)
  {
    assert forall x :: x in [a] + tail <==> x == a || x in tail;
  }

  /**
   * No appointment is counted twice: the four counts add up to at most the
   * total, and to exactly the total when every appointment's `estado` is one
   * of the four names.
   */
  lemma {:induction false} CountsAddUp(apts: seq<Object>)
    ensures Counted(MetricsOf(apts)) <= |apts|
    ensures Counted(MetricsOf(apts)) == |apts| <==> forall a :: a in apts ==> KnownState(a)
  {
    if apts != [] {
      var a, tail := apts[0], apts[1..];
      assert apts == [a] + tail;
      CountsAddUp(tail);
      CountedCons(a, tail);
      AllKnownCons(a, tail);
    }
  }

  // ---------------------------------------------------------------- detail lists

  /** `(a, b) => new Date(b.fecha) - new Date(a.fecha)`: newest date first. */
  function NewestFirst(): (Object, Object) -> bool
  {
    Descending(ByField(Fecha))
  }

  lemma NewestFirstPreorder()
    ensures TotalPreorder(NewestFirst())
  {
    ByFieldPreorder(Fecha);
    DescendingPreorder(ByField(Fecha));
  }

  /** The appointments in state `e`, newest date first. */
  function InStateNewestFirst(apts: seq<Object>, e: State): (r: seq<Object>)
    ensures forall d :: multiset(r)[d] == if HasText(d, Estado, StateName(e)) then multiset(apts)[d] else 0
    ensures forall d :: d in r <==> d in apts && HasText(d, Estado, StateName(e))
    ensures Sorted(r, NewestFirst())
    ensures |r| == Tally(apts, e)
  {
    NewestFirstPreorder();
    var picked := Filter(apts, InState(StateName(e)));
    var r := SortBy(picked, NewestFirst());
    assert |multiset(r)| == |multiset(picked)|;
    assert forall d :: d in r <==> d in multiset(picked);
    r
  }

  /** The properties enrichment adds. */
  const NamedKeys: set<Field> := {DoctorNombre, ServicioNombre, SucursalNombre}

  /**
   * One enriched appointment: every stored property, then the doctor's name,
   * the service's name and the branch name, each replaced by its sentinel when
   * the lookup finds nothing. A found document without `nombre` leaves the
   * name undefined, and it disappears from the answer.
   */
  function WithNames(apt: Object, doctor: Option<Object>, service: Option<Object>): (r: Object)
    ensures doctor.None? ==> Get(r, DoctorNombre) == Some(Str(DOCTOR_NOT_FOUND))
    ensures doctor.Some? ==> Get(r, DoctorNombre) == Get(doctor.value, Nombre)
    ensures service.None? ==> Get(r, ServicioNombre) == Some(Str(SERVICE_NOT_FOUND))
    ensures service.Some? ==> Get(r, ServicioNombre) == Get(service.value, Nombre)
    ensures Get(r, SucursalNombre) == Some(Str(BranchNameOr(apt)))
    ensures r - NamedKeys == apt - NamedKeys
  {
    var withDoctor := Put(apt, DoctorNombre, ProjectOr(doctor, Nombre, Str(DOCTOR_NOT_FOUND)));
    var withService := Put(withDoctor, ServicioNombre, ProjectOr(service, Nombre, Str(SERVICE_NOT_FOUND)));
    withService[SucursalNombre := Str(BranchNameOr(apt))]
  }

  /** `enrichAppointments`: each appointment of the list with its names joined in, in the same order. */
  function Enriched(docs: seq<Object>, apts: seq<Object>): (r: seq<Object>)
    ensures |r| == |apts|
    ensures forall i :: 0 <= i < |r| ==> r[i] == WithNames(apts[i], DoctorOf(docs, apts[i]), ServiceOf(docs, apts[i]))
    ensures forall i :: 0 <= i < |r| ==> r[i] - NamedKeys == apts[i] - NamedKeys
  {
    seq(|apts|, i requires 0 <= i < |apts| => WithNames(apts[i], DoctorOf(docs, apts[i]), ServiceOf(docs, apts[i])))
  }

  /** Enrichment changes no property outside the three names: `fecha` and `estado` in particular. */
  lemma WithNamesKeeps(apt: Object, doctor: Option<Object>, service: Option<Object>, k: Field)
    requires k !in NamedKeys
    ensures Get(WithNames(apt, doctor, service), k) == Get(apt, k)
  {
    var r := WithNames(apt, doctor, service);
    assert Get(r - NamedKeys, k) == Get(r, k);
    assert Get(apt - NamedKeys, k) == Get(apt, k);
  }

  /** Enriching a list newest-first keeps it newest-first. */
  lemma {:induction false} EnrichedKeepsOrder(docs: seq<Object>, apts: seq<Object>)
    requires Sorted(apts, NewestFirst())
    ensures Sorted(Enriched(docs, apts), NewestFirst())
  {
    var r := Enriched(docs, apts);
    forall i, j | 0 <= i < j < |r| ensures NewestFirst()(r[i], r[j]) {
      WithNamesKeeps(apts[i], DoctorOf(docs, apts[i]), ServiceOf(docs, apts[i]), Fecha);
      WithNamesKeeps(apts[j], DoctorOf(docs, apts[j]), ServiceOf(docs, apts[j]), Fecha);
      assert NewestFirst()(apts[i], apts[j]);
    }
  }

  /** `x` is one of `apts` with, at most, the three names joined in. */
  predicate JoinedFrom(x: Object, apts: seq<Object>)
  {
    exists a :: a in apts && x - NamedKeys == a - NamedKeys
  }

  /** Enriching a list of appointments in one state gives entries in that state, each one of them with names joined in. */
  lemma EnrichedInState(docs: seq<Object>, list: seq<Object>, apts: seq<Object>, name: string)
    requires forall x :: x in list ==> x in apts && HasText(x, Estado, name)
    ensures forall i :: 0 <= i < |list| ==> HasText(Enriched(docs, list)[i], Estado, name)
    ensures forall i :: 0 <= i < |list| ==> JoinedFrom(Enriched(docs, list)[i], apts)
  {
    var r := Enriched(docs, list);
    forall i | 0 <= i < |list|
      ensures HasText(r[i], Estado, name) && JoinedFrom(r[i], apts)
    {
      WithNamesKeeps(list[i], DoctorOf(docs, list[i]), ServiceOf(docs, list[i]), Estado);
      assert list[i] in list;
      assert r[i] - NamedKeys == list[i] - NamedKeys;
    }
  }

  /**
   * `citasAtendidas` or `citasCanceladas`: as many entries as appointments in
   * state `e`, each one of them with its names joined in, newest first.
   */
  function DetailList(docs: seq<Object>, apts: seq<Object>, e: State): (r: seq<Object>)
    ensures |r| == Tally(apts, e)
    ensures forall i :: 0 <= i < |r| ==> HasText(r[i], Estado, StateName(e))
    ensures forall i :: 0 <= i < |r| ==> JoinedFrom(r[i], apts)
    ensures Sorted(r, NewestFirst())
    ensures r == Enriched(docs, InStateNewestFirst(apts, e))
  {
    var list := InStateNewestFirst(apts, e);
    EnrichedKeepsOrder(docs, list);
    EnrichedInState(docs, list, apts, StateName(e));
    Enriched(docs, list)
  }

  // ---------------------------------------------------------------- answer

  /** `filtros`: the parameters as given, or `todas` / `sin_limite` in their place. */
  datatype Filters = Filters(sucursalId: string, fechaInicio: string, fechaFin: string)

  function FiltersEcho(sucursalId: Option<string>, fechaInicio: Option<string>, fechaFin: Option<string>): (f: Filters)
    ensures Given(sucursalId) ==> f.sucursalId == sucursalId.value
    ensures !Given(sucursalId) ==> f.sucursalId == "todas"
    ensures Given(fechaInicio) ==> f.fechaInicio == fechaInicio.value
    ensures !Given(fechaInicio) ==> f.fechaInicio == "sin_limite"
    ensures Given(fechaFin) ==> f.fechaFin == fechaFin.value
    ensures !Given(fechaFin) ==> f.fechaFin == "sin_limite"
  {
    Filters(OrElse(sucursalId, "todas"), OrElse(fechaInicio, "sin_limite"), OrElse(fechaFin, "sin_limite"))
  }

  /** A shown filter read back: its placeholder stands for a parameter that was not given. */
  function ReadBack(shown: string, placeholder: string): (p: Option<string>)
    ensures Given(p) <==> shown != "" && shown != placeholder
    ensures Given(p) ==> p.value == shown
  {
    if shown == placeholder then None else Some(shown)
  }

  /**
   * Unless a parameter was given as its own placeholder, the echoed
   * `filtros` tell which appointments the report covers.
   */
  lemma FiltersEchoDeterminesSelection(docs: seq<Object>, sucursalId: Option<string>, fechaInicio: Option<string>, fechaFin: Option<string>)
    requires !(Given(sucursalId) && sucursalId.value == "todas")
    requires !(Given(fechaInicio) && fechaInicio.value == "sin_limite")
    requires !(Given(fechaFin) && fechaFin.value == "sin_limite")
    ensures var f := FiltersEcho(sucursalId, fechaInicio, fechaFin);
      Selected(docs, ReadBack(f.sucursalId, "todas"), ReadBack(f.fechaInicio, "sin_limite"), ReadBack(f.fechaFin, "sin_limite"))
      == Selected(docs, sucursalId, fechaInicio, fechaFin)
  {
    var f := FiltersEcho(sucursalId, fechaInicio, fechaFin);
    var s, i, j := ReadBack(f.sucursalId, "todas"), ReadBack(f.fechaInicio, "sin_limite"), ReadBack(f.fechaFin, "sin_limite");
    FilterSamePredicate(docs, (d: Object) => InReport(d, s, i, j), (d: Object) => InReport(d, sucursalId, fechaInicio, fechaFin));
  }

  datatype Report = Report(metricas: Metrics, citasAtendidas: seq<Object>, citasCanceladas: seq<Object>, filtros: Filters)

  /** The report for the selected appointments. */
  function ReportOf(docs: seq<Object>, apts: seq<Object>, filtros: Filters): Report
  {
    Report(MetricsOf(apts), DetailList(docs, apts, Atendida), DetailList(docs, apts, Cancelada), filtros)
  }

  /**
   * The handler: `GET` builds the query from the search parameters, runs it
   * and answers the report of what it selects; any other method is 405.
   */
  method ReportsHandler(docs: seq<Object>, req: Request) returns (r: Response<Report>)
    ensures req.verb != "GET" ==> r == Fail(405, METHOD_NOT_ALLOWED)
    ensures req.verb == "GET" ==>
      var sucursalId, fechaInicio, fechaFin := Param(req, "sucursalId"), Param(req, "fechaInicio"), Param(req, "fechaFin");
      r == Ok(200, ReportOf(docs, Selected(docs, sucursalId, fechaInicio, fechaFin), FiltersEcho(sucursalId, fechaInicio, fechaFin)))
  {
    if req.verb != "GET" {
      return Fail(405, METHOD_NOT_ALLOWED);
    }
    var sucursalId := Param(req, "sucursalId");
    var fechaInicio := Param(req, "fechaInicio");
    var fechaFin := Param(req, "fechaFin");
    var conds := BuildQuery(sucursalId, fechaInicio, fechaFin);
    var appointments := Filter(docs, (d: Object) => MatchesAll(d, conds));
    FilterSamePredicate(docs, (d: Object) => MatchesAll(d, conds), (d: Object) => InReport(d, sucursalId, fechaInicio, fechaFin));
    r := Ok(200, ReportOf(docs, appointments, FiltersEcho(sucursalId, fechaInicio, fechaFin)));
  }
}
