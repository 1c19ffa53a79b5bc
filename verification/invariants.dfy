/**
 * The store's invariants across all three handlers that write. Each write
 * keeps the invariant the other handlers check, so a run of requests
 * handled one after the other, in any mix, keeps them all.
 */
module StoreInvariants {
  import opened Json
  import opened Http
  import opened Text
  import opened Store
  import opened Appointments
  import opened Patients
  import opened AppointmentStatus

  /** No slot held twice, and no two patients with the same address. */
  predicate Consistent(docs: seq<Object>)
  {
    NoDoubleBooking(docs) && UniqueEmails(docs)
  }

  /** Whether `a` and `b` hold the same slot depends only on their `doctorId`, `fecha` and `hora`. */
  lemma SameSlotBySlotFields(a: Object, b: Object, a2: Object, b2: Object)
    requires Get(a2, DoctorId) == Get(a, DoctorId) && Get(a2, Fecha) == Get(a, Fecha) && Get(a2, Hora) == Get(a, Hora)
    requires Get(b2, DoctorId) == Get(b, DoctorId) && Get(b2, Fecha) == Get(b, Fecha) && Get(b2, Hora) == Get(b, Hora)
    ensures SameSlot(a2, b2) == SameSlot(a, b)
  {
  }

  /** A booking adds an untyped document, so it cannot break the uniqueness of patient addresses. */
  lemma BookingKeepsEmailsUnique(docs: seq<Object>, body: Object, id: string, now: string)
    requires UniqueEmails(docs)
    ensures UniqueEmails(docs + [NewAppointment(body, id, now)])
  {
  }

  /** A stored patient has no `doctorId`. */
  lemma NewPatientHoldsNoSlot(body: Object, id: string, now: string)
    requires AllText(body)
    ensures Get(NewPatient(body, id, now), DoctorId).None?
  {
    assert DoctorId !in SUBMITTED_KEYS + STAMPED_KEYS;
  }

  /** A registration adds a patient, which holds no slot, so it cannot create a double booking. */
  lemma RegistrationKeepsNoDoubleBooking(docs: seq<Object>, body: Object, id: string, now: string)
    requires AllText(body)
    requires NoDoubleBooking(docs)
    ensures NoDoubleBooking(docs + [NewPatient(body, id, now)])
  {
    var p := NewPatient(body, id, now);
    var after := docs + [p];
    NewPatientHoldsNoSlot(body, id, now);
    forall i, j | 0 <= i < j < |after| ensures !SameSlot(after[i], after[j]) {
      if j < |docs| {
        assert after[i] == docs[i] && after[j] == docs[j];
      }
    }
  }

  /** A state change keeps the slot of the appointment it replaces, so it cannot create a double booking. */
  lemma StatusChangeKeepsNoDoubleBooking(docs: seq<Object>, req: Request, now: string)
    requires UniqueIds(docs) && NoDoubleBooking(docs)
    requires NewRecord(docs, req, now).Some?
    ensures NoDoubleBooking(Upserted(docs, NewRecord(docs, req, now).value))
  {
    var k := ChangedIndex(docs, req, now);
    var after := Upserted(docs, NewRecord(docs, req, now).value);
    forall i, j | 0 <= i < j < |after| ensures !SameSlot(after[i], after[j]) {
      SameSlotBySlotFields(docs[i], docs[j], after[i], after[j]);
    }
  }

  /** A state change replaces an appointment by an appointment, so patient addresses are untouched. */
  lemma StatusChangeKeepsEmailsUnique(docs: seq<Object>, req: Request, now: string)
    requires UniqueIds(docs) && UniqueEmails(docs)
    requires NewRecord(docs, req, now).Some?
    ensures UniqueEmails(Upserted(docs, NewRecord(docs, req, now).value))
  {
    var k := ChangedIndex(docs, req, now);
    var after := Upserted(docs, NewRecord(docs, req, now).value);
    assert !IsOfType(after[k], "patient");
    forall i, j | 0 <= i < j < |after| && IsOfType(after[i], "patient") && IsOfType(after[j], "patient")
      && Get(after[i], CorreoElectronico).Some?
      ensures Get(after[i], CorreoElectronico) != Get(after[j], CorreoElectronico)
    {
      assert after[i] == docs[i] && after[j] == docs[j];
    }
  }

  /** A successful booking keeps both invariants. */
  lemma BookingKeepsConsistent(docs: seq<Object>, body: Object, id: string, now: string)
    requires Consistent(docs)
    requires BookOutcome(docs, body, id, now).Ok?
    ensures Consistent(docs + [NewAppointment(body, id, now)])
  {
    BookingKeepsNoDoubleBooking(docs, body, id, now);
    BookingKeepsEmailsUnique(docs, body, id, now);
  }

  /**
   * A successful registration of an address submitted in lower case keeps
   * both invariants (a mixed-case duplicate gets through the exact-match
   * check, see `Patients.MixedCaseDuplicateAccepted`).
   */
  lemma RegistrationKeepsConsistent(docs: seq<Object>, body: Object, id: string, now: string)
    requires Consistent(docs)
    requires RegisterOutcome(docs, body, id, now).Ok?
    requires ToLower(TextOf(body, CorreoElectronico)) == TextOf(body, CorreoElectronico)
    ensures Consistent(docs + [NewPatient(body, id, now)])
  {
    RegistrationKeepsEmailsUnique(docs, body, id, now);
    RegistrationKeepsNoDoubleBooking(docs, body, id, now);
  }

  /** A successful state change keeps both invariants. */
  lemma StatusChangeKeepsConsistent(docs: seq<Object>, req: Request, now: string)
    requires UniqueIds(docs) && Consistent(docs)
    requires NewRecord(docs, req, now).Some?
    ensures Consistent(Upserted(docs, NewRecord(docs, req, now).value))
  {
    StatusChangeKeepsNoDoubleBooking(docs, req, now);
    StatusChangeKeepsEmailsUnique(docs, req, now);
  }
}
