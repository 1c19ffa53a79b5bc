/**
 * `/patients`: `GET` lists patients, optionally only those whose name,
 * surname or email contains a search term (ignoring case), ordered by surname
 * then name; `POST` registers a patient after an ordered chain of checks.
 */
module Patients {
  import opened Json
  import opened Http
  import opened Text
  import opened Sequences
  import opened Ordering
  import opened Store

  const MISSING_FIELDS: string := "Se requieren todos los campos: nombre, apellido, correoElectronico, numeroTelefono, pais, ciudad, direccion"
  const POLICY_REQUIRED: string := "Debe aceptar las políticas de privacidad de datos"
  const BAD_EMAIL: string := "El formato del correo electrónico no es válido"
  const EMAIL_TAKEN: string := "Ya existe un paciente registrado con este correo electrónico"

  // ---------------------------------------------------------------- GET

  /** `CONTAINS(LOWER(c.k), LOWER(@search))`: false when the property is not a string. */
  predicate FieldContains(d: Object, k: Field, term: string)
  {
    match Get(d, k)
    case Some(Str(s)) => Contains(ToLower(s), ToLower(term))
    case _ => false
  }

  /** The search condition: the term occurs in the name, the surname or the email. */
  predicate SearchHit(d: Object, term: string)
  {
    FieldContains(d, Nombre, term) || FieldContains(d, Apellido, term) || FieldContains(d, CorreoElectronico, term)
  }

  /** The listing's `WHERE`: patients, and only matching ones when a term is given. */
  predicate Listed(d: Object, search: Option<string>)
  {
    IsOfType(d, "patient") && (Given(search) ==> SearchHit(d, search.value))
  }

  /** The listing order: by surname, then by name, each read as `(o.k || '')`. */
  function BySurname(): (Object, Object) -> bool
  {
    ThenBy(ByName(Apellido), ByName(Nombre))
  }

  /**
   * The `GET` result: every stored patient that the search selects, each as
   * often as it is stored and nothing else, ordered by surname then name.
   */
  function SearchPatients(docs: seq<Object>, search: Option<string>): (r: seq<Object>)
    ensures forall d :: multiset(r)[d] == if Listed(d, search) then multiset(docs)[d] else 0
    ensures forall d :: d in r <==> d in docs && Listed(d, search)
    ensures Sorted(r, BySurname())
  {
    ByNamePreorder(Apellido);
    ByNamePreorder(Nombre);
    ThenByPreorder(ByName(Apellido), ByName(Nombre));
    var picked := Filter(docs, (d: Object) => Listed(d, search));
    var r := SortBy(picked, BySurname());
    assert forall d :: d in r <==> d in multiset(picked);
    r
  }

  /** The search ignores case: a term and its lower-cased form select the same patients. */
  lemma SearchIgnoresCase(d: Object, term: string)
    ensures SearchHit(d, term) == SearchHit(d, ToLower(term))
  {
    ToLowerIdempotent(term);
  }

  // ---------------------------------------------------------------- POST

  /** All seven required properties are truthy. */
  predicate AllRequired(body: Object)
  {
    && Truthy(Get(body, Nombre)) && Truthy(Get(body, Apellido)) && Truthy(Get(body, CorreoElectronico))
    && Truthy(Get(body, NumeroTelefono)) && Truthy(Get(body, Pais)) && Truthy(Get(body, Ciudad))
    && Truthy(Get(body, Direccion))
  }

  /** All seven are strings, so that `.trim()` and `.toLowerCase()` can be called on them. */
  predicate AllText(body: Object)
  {
    && HasTextField(body, Nombre) && HasTextField(body, Apellido) && HasTextField(body, CorreoElectronico)
    && HasTextField(body, NumeroTelefono) && HasTextField(body, Pais) && HasTextField(body, Ciudad)
    && HasTextField(body, Direccion)
  }

  /** `emailRegex.test(correoElectronico)` for the string case; no other value contains an '@'. */
  predicate EmailOk(v: Option<Value>)
  {
    v.Some? && v.value.Str? && EmailValid(v.value.s)
  }

  /** A stored patient already has exactly this `correoElectronico` value. */
  predicate EmailTaken(docs: seq<Object>, email: Value)
  {
    exists i :: 0 <= i < |docs| && IsOfType(docs[i], "patient") && HasValue(docs[i], CorreoElectronico, email)
  }

  /** The string held in property `k`. */
  function TextOf(body: Object, k: Field): string
    requires HasTextField(body, k)
  {
    Get(body, k).value.s
  }

  /** The free-text properties stored trimmed. */
  const TEXT_KEYS: set<Field> := {Nombre, Apellido, NumeroTelefono, Pais, Ciudad, Direccion}

  /** The properties taken from the request body. */
  const SUBMITTED_KEYS: set<Field> := TEXT_KEYS + {CorreoElectronico}

  /** The properties the handler sets itself. */
  const STAMPED_KEYS: set<Field> := {Id, Type, AceptaPoliticas, FechaRegistro, Activo, CreatedAt}

  /**
   * The submitted properties as they are stored: the six free-text ones
   * trimmed, the email lower-cased and then trimmed.
   */
  function Cleaned(body: Object): (r: Object)
    requires AllText(body)
    ensures r.Keys == SUBMITTED_KEYS
    ensures forall k :: k in TEXT_KEYS ==> Get(r, k) == Some(Str(Trim(TextOf(body, k))))
    ensures Get(r, CorreoElectronico) == Some(Str(Trim(ToLower(TextOf(body, CorreoElectronico)))))
  {
    var trimmed := map k | k in TEXT_KEYS :: Str(Trim(TextOf(body, k)));
    trimmed[CorreoElectronico := Str(Trim(ToLower(TextOf(body, CorreoElectronico))))]
  }

  /**
   * The properties the handler adds: the fresh id, `type` "patient", the
   * policy accepted, active, registered and created now. Every other
   * property of `fields` is kept.
   */
  function Stamped(fields: Object, id: string, now: string): (r: Object)
    ensures r.Keys == fields.Keys + STAMPED_KEYS
    ensures Get(r, Id) == Some(Str(id))
    ensures IsOfType(r, "patient")
    ensures Get(r, AceptaPoliticas) == Some(Bool(true))
    ensures Get(r, Activo) == Some(Bool(true))
    ensures Get(r, FechaRegistro) == Some(Str(now))
    ensures Get(r, CreatedAt) == Some(Str(now))
    ensures forall k :: k !in STAMPED_KEYS ==> Get(r, k) == Get(fields, k)
  {
    fields[Id := Str(id)][Type := Str("patient")][AceptaPoliticas := Bool(true)]
          [FechaRegistro := Str(now)][Activo := Bool(true)][CreatedAt := Str(now)]
  }

  /** The stored patient: a patient document with the fresh id and the cleaned email. */
  function NewPatient(body: Object, id: string, now: string): (r: Object)
    requires AllText(body)
    ensures Get(r, Id) == Some(Str(id))
    ensures IsOfType(r, "patient")
    ensures Get(r, CorreoElectronico) == Some(Str(Trim(ToLower(TextOf(body, CorreoElectronico)))))
    ensures r.Keys == SUBMITTED_KEYS + STAMPED_KEYS
  {
    var fields := Cleaned(body);
    var r := Stamped(fields, id, now);
    assert Get(r, CorreoElectronico) == Get(fields, CorreoElectronico);
    r
  }

  /**
   * What `POST` answers, check by check in the source's order: required
   * properties (400), policy acceptance (400), email format (400), email
   * already registered (409); a required property that is truthy but not a
   * string then makes `.trim()` throw (500); otherwise 201 with the patient.
   */
  function RegisterOutcome(docs: seq<Object>, body: Object, id: string, now: string): (r: Response<Object>)
    ensures !AllRequired(body) ==> r == Fail(400, MISSING_FIELDS)
    ensures AllRequired(body) && !Truthy(Get(body, AceptaPoliticas)) ==> r == Fail(400, POLICY_REQUIRED)
    ensures AllRequired(body) && Truthy(Get(body, AceptaPoliticas)) && !EmailOk(Get(body, CorreoElectronico))
      ==> r == Fail(400, BAD_EMAIL)
    ensures r == Fail(409, EMAIL_TAKEN) <==>
      && AllRequired(body) && Truthy(Get(body, AceptaPoliticas)) && EmailOk(Get(body, CorreoElectronico))
      && EmailTaken(docs, Get(body, CorreoElectronico).value)
    ensures r == Fail(500, INTERNAL_ERROR) <==>
      && AllRequired(body) && Truthy(Get(body, AceptaPoliticas)) && EmailOk(Get(body, CorreoElectronico))
      && !EmailTaken(docs, Get(body, CorreoElectronico).value) && !AllText(body)
    ensures r.Ok? <==>
      && AllRequired(body) && Truthy(Get(body, AceptaPoliticas)) && EmailOk(Get(body, CorreoElectronico))
      && !EmailTaken(docs, Get(body, CorreoElectronico).value) && AllText(body)
    ensures r.Ok? ==> r.status == 201 && r.body == NewPatient(body, id, now)
  {
    if !AllRequired(body) then Fail(400, MISSING_FIELDS)
    else if !Truthy(Get(body, AceptaPoliticas)) then Fail(400, POLICY_REQUIRED)
    else if !EmailOk(Get(body, CorreoElectronico)) then Fail(400, BAD_EMAIL)
    else if EmailTaken(docs, Get(body, CorreoElectronico).value) then Fail(409, EMAIL_TAKEN)
    else if !AllText(body) then Fail(500, INTERNAL_ERROR)
    else Ok(201, NewPatient(body, id, now))
  }

  /**
   * The `POST` branch: validate, query for a patient with that email, and
   * create the patient only when there is none. The store gains exactly the
   * returned patient on 201 and is untouched otherwise.
   */
  method Register(c: Container, body: Object, id: string, now: string) returns (r: Response<Object>)
    requires c.Valid() && !IdInUse(c.docs, id)
    modifies c
    ensures c.Valid()
    ensures r == RegisterOutcome(old(c.docs), body, id, now)
    ensures c.docs == if r.Ok? then old(c.docs) + [r.body] else old(c.docs)
  {
    if !AllRequired(body) {
      return Fail(400, MISSING_FIELDS);
    }
    if !Truthy(Get(body, AceptaPoliticas)) {
      return Fail(400, POLICY_REQUIRED);
    }
    var email := Get(body, CorreoElectronico);
    if !EmailOk(email) {
      return Fail(400, BAD_EMAIL);
    }
    var existing := Filter(c.docs, (d: Object) => IsOfType(d, "patient") && HasValue(d, CorreoElectronico, email.value));
    if |existing| > 0 {
      assert existing[0] in c.docs;
      return Fail(409, EMAIL_TAKEN);
    }
    assert !EmailTaken(c.docs, email.value) by {
      forall i | 0 <= i < |c.docs| ensures !(IsOfType(c.docs[i], "patient") && HasValue(c.docs[i], CorreoElectronico, email.value)) {
        assert c.docs[i] in c.docs;
      }
    }
    if !AllText(body) {
      return Fail(500, INTERNAL_ERROR);
    }
    var paciente := NewPatient(body, id, now);
    c.Create(paciente);
    r := Ok(201, paciente);
  }

  /**
   * The email as stored, `trim(toLowerCase(raw))`, is the submitted address
   * lower-cased: a valid address holds no white space for `trim` to remove.
   * The stored form is valid too, and lower-casing leaves it unchanged.
   */
  lemma StoredEmailIsLowered(raw: string)
    requires EmailValid(raw)
    ensures Trim(ToLower(raw)) == ToLower(raw)
    ensures EmailValid(ToLower(raw))
    ensures ToLower(ToLower(raw)) == ToLower(raw)
  {
    EmailValidUnderLower(raw);
    TrimNoSpace(ToLower(raw));
    ToLowerIdempotent(raw);
  }

  /** A patient whose stored email is `raw` lower-cased matches a search for `raw`. */
  lemma SearchFindsOwnEmail(p: Object, raw: string)
    requires IsOfType(p, "patient") && Get(p, CorreoElectronico) == Some(Str(ToLower(raw)))
    ensures Listed(p, Some(raw))
  {
    var stored := ToLower(raw);
    ToLowerIdempotent(raw);
    assert StartsWith(stored, stored) by {
      assert stored[..|stored|] == stored;
    }
    assert FieldContains(p, CorreoElectronico, raw);
  }

  /** A registered patient is found again by searching for the email it was registered with. */
  lemma RegisteredPatientFoundByEmail(docs: seq<Object>, body: Object, id: string, now: string)
    requires AllText(body) && EmailOk(Get(body, CorreoElectronico))
    ensures NewPatient(body, id, now) in SearchPatients(docs + [NewPatient(body, id, now)], Some(TextOf(body, CorreoElectronico)))
  {
    var p := NewPatient(body, id, now);
    var raw := TextOf(body, CorreoElectronico);
    StoredEmailIsLowered(raw);
    SearchFindsOwnEmail(p, raw);
    assert p in docs + [p];
  }

  /** No two stored patients have the same `correoElectronico`. */
  predicate UniqueEmails(docs: seq<Object>)
  {
    forall i, j ::
      (0 <= i < j < |docs| && IsOfType(docs[i], "patient") && IsOfType(docs[j], "patient")
       && Get(docs[i], CorreoElectronico).Some?)
      ==> Get(docs[i], CorreoElectronico) != Get(docs[j], CorreoElectronico)
  }

  /**
   * Registration keeps stored emails unique when the submitted address is
   * already in lower case: only then does the exact-match duplicate query
   * compare it with the form that gets stored.
   */
  lemma RegistrationKeepsEmailsUnique(docs: seq<Object>, body: Object, id: string, now: string)
    requires UniqueEmails(docs)
    requires RegisterOutcome(docs, body, id, now).Ok?
    requires ToLower(TextOf(body, CorreoElectronico)) == TextOf(body, CorreoElectronico)
    ensures UniqueEmails(docs + [NewPatient(body, id, now)])
  {
    var p := NewPatient(body, id, now);
    var after := docs + [p];
    StoredEmailIsLowered(TextOf(body, CorreoElectronico));
    assert Get(p, CorreoElectronico) == Get(body, CorreoElectronico);
    forall i, j | 0 <= i < j < |after| && IsOfType(after[i], "patient") && IsOfType(after[j], "patient")
      && Get(after[i], CorreoElectronico).Some?
      ensures Get(after[i], CorreoElectronico) != Get(after[j], CorreoElectronico)
    {
      if j == |docs| {
        assert after[i] == docs[i];
        assert !(IsOfType(docs[i], "patient") && HasValue(docs[i], CorreoElectronico, Get(body, CorreoElectronico).value));
      } else {
        assert after[i] == docs[i] && after[j] == docs[j];
      }
    }
  }

  /** A stored patient with address "a@b.c" … */
  const SAMPLE_PATIENT: Object := map[Id := Str("P1"), Type := Str("patient"), CorreoElectronico := Str("a@b.c")]

  /** … and a registration for "A@b.c". */
  const SAMPLE_BODY: Object := map[
    Nombre := Str("Ana"), Apellido := Str("Gómez"), CorreoElectronico := Str("A@b.c"),
    NumeroTelefono := Str("3001234567"), Pais := Str("Colombia"), Ciudad := Str("Cali"),
    Direccion := Str("Calle 1"), AceptaPoliticas := Bool(true)]

  const SAMPLE_NOW: string := "2024-05-01T10:00:00Z"

  lemma SampleEmailValid()
    ensures EmailValid("A@b.c")
  {
    var s := "A@b.c";
    assert s[1] == '@' && s[3] == '.';
    assert s[..1] == "A" && s[2..3] == "b" && s[4..] == "c";
    EmailValidComplete(s);
  }

  lemma SampleLowered()
    ensures ToLower("A@b.c") == "a@b.c"
  {
    var s := "A@b.c";
    assert LowerChar('A') == 'a';
    assert ToLower(s) == [LowerChar('A')] + ToLower(s[1..]);
  }

  /** The sample body gives every property, as text, and accepts the policy. */
  lemma SampleBodyComplete()
    ensures AllRequired(SAMPLE_BODY) && AllText(SAMPLE_BODY) && Truthy(Get(SAMPLE_BODY, AceptaPoliticas))
    ensures Get(SAMPLE_BODY, CorreoElectronico) == Some(Str("A@b.c"))
  {
  }

  lemma SamplePatientStored()
    ensures Get(SAMPLE_PATIENT, CorreoElectronico) == Some(Str("a@b.c")) && IsOfType(SAMPLE_PATIENT, "patient")
  {
  }

  /** "A@b.c" is not the stored "a@b.c". */
  lemma SampleNotTaken()
    ensures !EmailTaken([SAMPLE_PATIENT], Str("A@b.c"))
  {
    assert "A@b.c"[0] != "a@b.c"[0];
    SamplePatientStored();
  }

  /** The registration passes every check. */
  lemma SampleAccepted()
    ensures RegisterOutcome([SAMPLE_PATIENT], SAMPLE_BODY, "P2", SAMPLE_NOW).Ok?
  {
    SampleBodyComplete();
    SampleEmailValid();
    SampleNotTaken();
  }

  /** … and stores the address as "a@b.c". */
  lemma SampleStoredLowered()
    ensures AllText(SAMPLE_BODY)
    ensures Get(NewPatient(SAMPLE_BODY, "P2", SAMPLE_NOW), CorreoElectronico) == Some(Str("a@b.c"))
  {
    SampleBodyComplete();
    SampleLowered();
    assert NoSpace("a@b.c");
    TrimNoSpace("a@b.c");
  }

  /**
   * The duplicate check compares the address as submitted with the stored,
   * lower-cased ones, so registering "A@b.c" next to a patient stored as
   * "a@b.c" succeeds and leaves two patients with the same stored address.
   */
  lemma MixedCaseDuplicateAccepted()
    ensures RegisterOutcome([SAMPLE_PATIENT], SAMPLE_BODY, "P2", SAMPLE_NOW).Ok?
    ensures !UniqueEmails([SAMPLE_PATIENT, NewPatient(SAMPLE_BODY, "P2", SAMPLE_NOW)])
  {
    SampleStoredLowered();
    SamplePatientStored();
    SameStoredEmail(SAMPLE_PATIENT, NewPatient(SAMPLE_BODY, "P2", SAMPLE_NOW));
    SampleAccepted();
  }

  /** Two patient documents with the same defined email break `UniqueEmails`. */
  lemma SameStoredEmail(a: Object, b: Object)
    requires IsOfType(a, "patient") && IsOfType(b, "patient")
    requires Get(a, CorreoElectronico).Some? && Get(a, CorreoElectronico) == Get(b, CorreoElectronico)
    ensures !UniqueEmails([a, b])
  {
    var after := [a, b];
    assert after[0] == a && after[1] == b;
  }

  // ---------------------------------------------------------------- dispatch

  datatype Reply = Listing(items: seq<Object>) | Created(patient: Object)

  /** The handler: `GET` searches, `POST` registers, anything else is 405. */
  method PatientsHandler(c: Container, req: Request, id: string, now: string) returns (r: Response<Reply>)
    requires c.Valid() && !IdInUse(c.docs, id)
    modifies c
    ensures c.Valid()
    ensures req.verb == "GET" ==>
      r == Ok(200, Listing(SearchPatients(old(c.docs), Param(req, "search")))) && c.docs == old(c.docs)
    ensures req.verb == "POST" ==>
      var o := RegisterOutcome(old(c.docs), req.body, id, now);
      && r == (if o.Ok? then Ok(o.status, Created(o.body)) else Fail(o.status, o.error))
      && c.docs == if o.Ok? then old(c.docs) + [o.body] else old(c.docs)
    ensures req.verb != "GET" && req.verb != "POST" ==> r == Fail(405, METHOD_NOT_ALLOWED) && c.docs == old(c.docs)
  {
    if req.verb == "GET" {
      return Ok(200, Listing(SearchPatients(c.docs, Param(req, "search"))));
    }
    if req.verb == "POST" {
      var o := Register(c, req.body, id, now);
      return if o.Ok? then Ok(o.status, Created(o.body)) else Fail(o.status, o.error);
    }
    return Fail(405, METHOD_NOT_ALLOWED);
  }
}
