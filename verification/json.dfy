/**
 * JSON documents as the handlers see them: plain JavaScript objects read from
 * and written to the document store. A property that is not there reads as
 * `undefined` (modelled by `None`), and an `undefined` property disappears
 * when the object is serialised.
 */
module Json {

  datatype Option<+T> = None | Some(value: T)

  /** JSON values. Numbers are integers here (prices and durations never take part in a decision). */
  datatype Value =
    | Null
    | Bool(b: bool)
    | Num(n: int)
    | Str(s: string)
    | List(items: seq<Value>)

  /**
   * Property names the handlers read or write. `Other(name)` stands for any
   * property the handlers do not name themselves (the store's own `_rid`,
   * `_ts`, …); object spread copies those like every other property.
   */
  datatype Field =
    | Id | Type
    | Nombre | Apellido | Especialidad | Horario | Precio
    | CorreoElectronico | NumeroTelefono | Pais | Ciudad | Direccion
    | AceptaPoliticas | Activo | FechaRegistro | CreatedAt | UpdatedAt
    | PacienteNombre | DoctorId | ServicioId | SucursalId | Fecha | Hora
    | Estado | EstadoAnterior | FechaCambioEstado | MotivoCancelacion | FechaAtencion
    | DoctorNombre | DoctorEspecialidad | ServicioNombre | ServicioPrecio | SucursalNombre
    | Other(name: string)

  type Object = map<Field, Value>

  /** Property read `o.k`. */
  function Get(o: Object, k: Field): Option<Value>
  {
    if k in o then Some(o[k]) else None
  }

  /** `o.k = v` followed by serialisation: writing `undefined` leaves no property behind. */
  function Put(o: Object, k: Field, v: Option<Value>): (r: Object)
    ensures Get(r, k) == v
  {
    if v.Some? then o[k := v.value] else o - {k}
  }

  /** Setting or removing field `k` leaves every other field as it was. */
  lemma PutKeepsOthers(o: Object, k: Field, v: Option<Value>, j: Field)
    requires j != k
    ensures Get(Put(o, k, v), j) == Get(o, j)
  {
  }


  /** JavaScript truthiness (`!x` is false): undefined, null, false, 0 and "" are falsy. */
  predicate Truthy(v: Option<Value>)
  {
    match v
    case None => false
    case Some(Null) => false
    case Some(Bool(b)) => b
    case Some(Num(n)) => n != 0
    case Some(Str(s)) => s != ""
    case Some(List(_)) => true
  }

  /**
   * `a === b`, and SameValueZero as used by `Array.prototype.includes` (the two
   * agree once numbers are integers): primitives compare by value, arrays by
   * identity, so two arrays read from documents are never the same.
   */
  predicate StrictEquals(a: Option<Value>, b: Option<Value>)
  {
    match (a, b)
    case (None, None) => true
    case (Some(x), Some(y)) => !x.List? && x == y
    case _ => false
  }

  /** The store's `c.k = @p` for a defined parameter `p`: a missing property never matches. */
  predicate HasValue(o: Object, k: Field, p: Value)
  {
    Get(o, k) == Some(p)
  }

  /** `c.k = "s"` for a string literal or string parameter. */
  predicate HasText(o: Object, k: Field, s: string)
  {
    HasValue(o, k, Str(s))
  }

  /** A document whose `type` discriminator is `t`. */
  predicate IsOfType(o: Object, t: string)
  {
    HasText(o, Type, t)
  }
}
