/**
 * The document store: one collection of heterogeneous documents told apart by
 * their `type` property, with the two writes the handlers use (`create` and
 * `upsert`), the "first document of this type with this id" query, and the
 * fixed branch table the handlers join against.
 */
module Store {
  import opened Json
  import opened Sequences

  /** Every document carries a text `id`, and no two documents share one. */
  predicate UniqueIds(docs: seq<Object>)
  {
    && (forall i :: 0 <= i < |docs| ==> Get(docs[i], Id).Some? && Get(docs[i], Id).value.Str?)
    && (forall i, j :: 0 <= i < j < |docs| ==> Get(docs[i], Id) != Get(docs[j], Id))
  }

  /** Some document already has this id. */
  predicate IdInUse(docs: seq<Object>, id: string)
  {
    exists i :: 0 <= i < |docs| && HasText(docs[i], Id, id)
  }

  /** The document has property `k` set to a string. */
  predicate HasTextField(o: Object, k: Field)
  {
    Get(o, k).Some? && Get(o, k).value.Str?
  }

  class Container {
    var docs: seq<Object>

    ghost predicate Valid()
      reads this
    {
      UniqueIds(docs)
    }

    constructor (initial: seq<Object>)
      requires UniqueIds(initial)
      ensures Valid() && docs == initial
    {
      docs := initial;
    }

    /** `container.items.create(doc)`: a document whose id is not in use is added at the end. */
    method Create(doc: Object)
      requires Valid()
      requires HasTextField(doc, Id) && !IdInUse(docs, Get(doc, Id).value.s)
      modifies this
      ensures Valid()
      ensures docs == old(docs) + [doc]
    {
      docs := docs + [doc];
    }

    /** `container.items.upsert(doc)`: the store becomes `Upserted(docs, doc)`. */
    method Upsert(doc: Object)
      requires Valid()
      requires HasTextField(doc, Id)
      modifies this
      ensures Valid()
      ensures docs == Upserted(old(docs), doc)
    {
      var k := FirstIndex(docs, (d: Object) => Get(d, Id) == Get(doc, Id));
      if k < |docs| {
        docs := docs[k := doc];
      } else {
        docs := docs + [doc];
      }
    }
  }

  /**
   * The store after an upsert: the document that has `doc`'s id is replaced in
   * place, or `doc` is added at the end when none has; every document with a
   * different id stays where it was, and ids stay unique.
   */
  function Upserted(docs: seq<Object>, doc: Object): (r: seq<Object>)
    ensures (exists i :: 0 <= i < |docs| && Get(docs[i], Id) == Get(doc, Id)) ==>
      exists k :: 0 <= k < |docs| && Get(docs[k], Id) == Get(doc, Id) && r == docs[k := doc]
    ensures (forall i :: 0 <= i < |docs| ==> Get(docs[i], Id) != Get(doc, Id)) ==> r == docs + [doc]
    ensures forall i :: 0 <= i < |docs| && Get(docs[i], Id) != Get(doc, Id) ==> r[i] == docs[i]
    ensures UniqueIds(docs) && HasTextField(doc, Id) ==> UniqueIds(r)
  {
    var k := FirstIndex(docs, (d: Object) => Get(d, Id) == Get(doc, Id));
    if k < |docs| then docs[k := doc] else docs + [doc]
  }

  /**
   * `SELECT * FROM c WHERE c.type = t AND c.id = @id`, first result. A parameter
   * whose value is `undefined` matches nothing.
   */
  function FindOfType(docs: seq<Object>, t: string, id: Option<Value>): (r: Option<Object>)
    ensures r.Some? ==> r.value in docs && IsOfType(r.value, t) && id.Some? && HasValue(r.value, Id, id.value)
    ensures r.None? <==> id.None? || forall d :: d in docs ==> !(IsOfType(d, t) && HasValue(d, Id, id.value))
  {
    if id.None? then None else First(docs, (d: Object) => IsOfType(d, t) && HasValue(d, Id, id.value))
  }

  /** The fixed branch table: id and display name. */
  const Branches: seq<(string, string)> := [
    ("barranquilla", "Sede Barranquilla"),
    ("bucaramanga", "Sede Bucaramanga"),
    ("cali", "Sede Cali"),
    ("cartagena", "Sede Cartagena"),
    ("centro", "Sede Centro"),
    ("medellin", "Sede Medellín"),
    ("norte", "Sede Norte"),
    ("sur", "Sede Sur")
  ]

  /** The name paired with the first entry of `table` whose id is `id`. */
  function LookupName(table: seq<(string, string)>, id: string): (r: Option<string>)
    ensures r.Some? ==> (id, r.value) in table
    ensures r.None? <==> forall e :: e in table ==> e.0 != id
  {
    if table == [] then None
    else if table[0].0 == id then Some(table[0].1)
    else LookupName(table[1..], id)
  }

  /** `sucursales.find(s => s.id === id)`: only a string equal to a table id finds a branch. */
  function BranchName(id: Option<Value>): (r: Option<string>)
    ensures r.Some? ==> id.Some? && id.value.Str? && (id.value.s, r.value) in Branches
    ensures r.None? <==> !(id.Some? && id.value.Str?) || forall e :: e in Branches ==> e.0 != id.value.s
  {
    match id
    case Some(Str(s)) => LookupName(Branches, s)
    case _ => None
  }

  const DOCTOR_NOT_FOUND: string := "Doctor no encontrado"
  const NO_SPECIALTY: string := "Sin especialidad"
  const SERVICE_NOT_FOUND: string := "Servicio no encontrado"
  const BRANCH_NOT_FOUND: string := "Sucursal no encontrada"

  /** The doctor an appointment points at through `doctorId`. */
  function DoctorOf(docs: seq<Object>, apt: Object): Option<Object>
  {
    FindOfType(docs, "doctor", Get(apt, DoctorId))
  }

  /** The service an appointment points at through `servicioId`. */
  function ServiceOf(docs: seq<Object>, apt: Object): Option<Object>
  {
    FindOfType(docs, "service", Get(apt, ServicioId))
  }

  /** `found ? found.k : sentinel`: the projected property (possibly undefined), or the sentinel when the lookup failed. */
  function ProjectOr(found: Option<Object>, k: Field, sentinel: Value): (r: Option<Value>)
    ensures found.None? ==> r == Some(sentinel)
    ensures found.Some? ==> r == Get(found.value, k)
  {
    if found.Some? then Get(found.value, k) else Some(sentinel)
  }

  /** `sucursal ? sucursal.nombre : 'Sucursal no encontrada'`. */
  function BranchNameOr(apt: Object): (r: string)
    ensures BranchName(Get(apt, SucursalId)).None? ==> r == BRANCH_NOT_FOUND
    ensures BranchName(Get(apt, SucursalId)).Some? ==> r == BranchName(Get(apt, SucursalId)).value
  {
    match BranchName(Get(apt, SucursalId))
    case Some(n) => n
    case None => BRANCH_NOT_FOUND
  }
}
