/**
 * `DatabaseStorage`: every query and mutation of the storage layer over the
 * in-memory store of `Schema`.
 *
 * Every operation first passes the availability gate (`ensureDb`): without
 * a connection it fails with `Unavailable` ("Database not available") and
 * changes nothing. A query is a WHERE condition plus an ORDER BY relation
 * (`Ordering.Selected`); a mutation is an UPDATE of the rows with the given
 * id that leaves every other row and every other table as it was.
 */
module Storage {
  import opened Outcomes
  import opened Text
  import opened Ordering
  import opened Schema

  datatype StorageError =
    | Unavailable   // the gate: no database handle
    | QueryFailed   // the statement ran and the database rejected it
    | NoValuesToSet // the ORM refused to build an UPDATE that sets no column

  function ErrorMessage(e: StorageError): string
  {
    match e
    case Unavailable => "Database not available"
    case QueryFailed => "Query failed"
    case NoValuesToSet => "No values to set"
  }

  /** The store after a mutating call, and what the call returned. */
  datatype Write<T> = Write(db: Db, result: Result<T, StorageError>)

  /** A read passed the gate exactly when a connection exists, and failed
      with `Unavailable` otherwise. */
  ghost predicate Gated<T>(db: Db, r: Result<T, StorageError>)
  {
    (r.Failure? <==> !db.available) && (r.Failure? ==> r.error == Unavailable)
  }

  /** Without a connection a mutating call fails with `Unavailable` and
      leaves the store as it was. */
  ghost predicate WriteGated<T>(db: Db, w: Write<T>)
  {
    !db.available ==> w == Write(db, Failure(Unavailable))
  }

  // ---------------------------------------------------------------------
  // ORDER BY relations
  // ---------------------------------------------------------------------

  predicate ByDepartment(a: Doctor, b: Doctor) { StrLe(a.department, b.department) }
  predicate ByDoctorId(a: Doctor, b: Doctor) { StrLe(a.id, b.id) }
  predicate ByLastName(a: Patient, b: Patient) { StrLe(a.lastName, b.lastName) }
  predicate ByWardName(a: Ward, b: Ward) { StrLe(a.name, b.name) }
  predicate ByBedNumber(a: Bed, b: Bed) { StrLe(a.bedNumber, b.bedNumber) }

  /** `ORDER BY wards.name, beds.bedNumber`. */
  predicate ByWardThenBedNumber(a: BedWithWard, b: BedWithWard)
  {
    StrLe(a.ward.name, b.ward.name) &&
    (a.ward.name == b.ward.name ==> StrLe(a.bed.bedNumber, b.bed.bedNumber))
  }

  predicate ByDateAscending(a: Appointment, b: Appointment) { a.appointmentDate <= b.appointmentDate }
  predicate ByDateDescending(a: Appointment, b: Appointment) { a.appointmentDate >= b.appointmentDate }
  predicate ByDetailsDateDescending(a: AppointmentWithDetails, b: AppointmentWithDetails)
  {
    a.appointment.appointmentDate >= b.appointment.appointmentDate
  }
  predicate ByDonorRecency(a: OrganDonor, b: OrganDonor) { a.lastUpdated >= b.lastUpdated }
  predicate ByAlertRecency(a: Alert, b: Alert) { a.createdAt >= b.createdAt }
  predicate ByTimestamp(a: ChatMessage, b: ChatMessage) { a.timestamp <= b.timestamp }

  lemma KeyedOrderTotal<T(!new)>(key: T -> string, le: (T, T) -> bool)
    requires forall a, b :: le(a, b) == StrLe(key(a), key(b))
    ensures TotalPreorder(le)
  {
    forall a, b ensures le(a, b) || le(b, a) {
      StrLeTotal(key(a), key(b));
    }
    forall a, b, c | le(a, b) && le(b, c) ensures le(a, c) {
      StrLeTransitive(key(a), key(b), key(c));
    }
  }

  lemma WardThenBedNumberTotal()
    ensures TotalPreorder(ByWardThenBedNumber)
  {
    forall a, b ensures ByWardThenBedNumber(a, b) || ByWardThenBedNumber(b, a) {
      StrLeTotal(a.ward.name, b.ward.name);
      StrLeTotal(a.bed.bedNumber, b.bed.bedNumber);
    }
    forall a, b, c | ByWardThenBedNumber(a, b) && ByWardThenBedNumber(b, c)
      ensures ByWardThenBedNumber(a, c)
    {
      StrLeTransitive(a.ward.name, b.ward.name, c.ward.name);
      if a.ward.name == c.ward.name {
        StrLeAntisymmetric(a.ward.name, b.ward.name);
        StrLeTransitive(a.bed.bedNumber, b.bed.bedNumber, c.bed.bedNumber);
      }
    }
  }

  /** Every ORDER BY relation of the storage layer is a total preorder. */
  lemma OrdersTotal()
    ensures TotalPreorder(ByDepartment) && TotalPreorder(ByDoctorId)
    ensures TotalPreorder(ByLastName) && TotalPreorder(ByWardName)
    ensures TotalPreorder(ByBedNumber) && TotalPreorder(ByWardThenBedNumber)
    ensures TotalPreorder(ByDateAscending) && TotalPreorder(ByDateDescending)
    ensures TotalPreorder(ByDetailsDateDescending) && TotalPreorder(ByDonorRecency)
    ensures TotalPreorder(ByAlertRecency) && TotalPreorder(ByTimestamp)
  {
    KeyedOrderTotal((d: Doctor) => d.department, ByDepartment);
    KeyedOrderTotal((d: Doctor) => d.id, ByDoctorId);
    KeyedOrderTotal((p: Patient) => p.lastName, ByLastName);
    KeyedOrderTotal((w: Ward) => w.name, ByWardName);
    KeyedOrderTotal((b: Bed) => b.bedNumber, ByBedNumber);
    WardThenBedNumberTotal();
  }

  // ---------------------------------------------------------------------
  // WHERE conditions
  // ---------------------------------------------------------------------

  function UserIdIs(id: Id): User -> bool { (u: User) => u.id == id }
  function DoctorIdIs(id: Id): Doctor -> bool { (d: Doctor) => d.id == id }
  function PatientIdIs(id: Id): Patient -> bool { (p: Patient) => p.id == id }
  function WardIdIs(id: Id): Ward -> bool { (w: Ward) => w.id == id }
  function BedIdIs(id: Id): Bed -> bool { (b: Bed) => b.id == id }
  function AppointmentIdIs(id: Id): Appointment -> bool { (a: Appointment) => a.id == id }
  function DonorIdIs(id: Id): OrganDonor -> bool { (d: OrganDonor) => d.id == id }
  function AlertIdIs(id: Id): Alert -> bool { (a: Alert) => a.id == id }

  function InDepartment(department: string): Doctor -> bool { (d: Doctor) => d.department == department }
  function InWard(wardId: Id): Bed -> bool { (b: Bed) => b.wardId == wardId }
  function HasStatus(status: string): Bed -> bool { (b: Bed) => b.status == status }

  /** `appointmentDate >= startOfDay AND appointmentDate <= endOfDay`: both
      bounds inclusive, so the next day's midnight belongs to this day too. */
  function OnDay(day: DayWindow): Appointment -> bool
  {
    (a: Appointment) => day.start <= a.appointmentDate <= day.nextStart
  }

  function WithDoctor(doctorId: Id): Appointment -> bool { (a: Appointment) => a.doctorId == doctorId }
  function WithPatient(patientId: Id): Appointment -> bool { (a: Appointment) => a.patientId == patientId }
  function OfOrganType(organType: string): OrganDonor -> bool { (d: OrganDonor) => d.organType == organType }
  function OfBloodType(bloodType: string): OrganDonor -> bool { (d: OrganDonor) => d.bloodType == bloodType }
  function OfBloodAndOrganType(bloodType: string, organType: string): OrganDonor -> bool
  {
    (d: OrganDonor) => d.bloodType == bloodType && d.organType == organType
  }
  /** What the four branches of the donor search amount to: each given
      (non-empty) argument must equal its column. */
  function SearchCondition(bloodType: string, organType: string): OrganDonor -> bool
  {
    (d: OrganDonor) => (bloodType == "" || d.bloodType == bloodType) && (organType == "" || d.organType == organType)
  }

  function IsUnread(): Alert -> bool { (a: Alert) => !a.isRead }
  function InSession(sessionId: string): ChatMessage -> bool { (m: ChatMessage) => m.sessionId == sessionId }

  // ---------------------------------------------------------------------
  // Users
  // ---------------------------------------------------------------------

  function GetUser(db: Db, id: Id): (r: Result<Option<User>, StorageError>)
    ensures Gated(db, r)
    ensures r.Success? && r.value.Some? ==> r.value.value in db.users && r.value.value.id == id
    ensures r.Success? ==> (r.value.None? <==> forall i :: 0 <= i < |db.users| ==> db.users[i].id != id)
  {
    if !db.available then Failure(Unavailable) else Success(First(db.users, UserIdIs(id)))
  }

  // ---------------------------------------------------------------------
  // Doctors
  // ---------------------------------------------------------------------

  function GetDoctor(db: Db, id: Id): (r: Result<Option<Doctor>, StorageError>)
    ensures Gated(db, r)
    ensures r.Success? && r.value.Some? ==> r.value.value in db.doctors && r.value.value.id == id
    ensures r.Success? ==> (r.value.None? <==> forall i :: 0 <= i < |db.doctors| ==> db.doctors[i].id != id)
  {
    if !db.available then Failure(Unavailable) else Success(First(db.doctors, DoctorIdIs(id)))
  }

  function GetAllDoctors(db: Db): (r: Result<seq<Doctor>, StorageError>)
    ensures Gated(db, r)
    ensures r.Success? ==> multiset(r.value) == multiset(db.doctors) && SortedBy(r.value, ByDepartment)
  {
    if !db.available then Failure(Unavailable) else OrdersTotal(); Success(Sort(db.doctors, ByDepartment))
  }

  function GetDoctorsByDepartment(db: Db, department: string): (r: Result<seq<Doctor>, StorageError>)
    ensures Gated(db, r)
    ensures r.Success? ==> Selected(r.value, db.doctors, InDepartment(department), ByDoctorId)
  {
    if !db.available then Failure(Unavailable)
    else OrdersTotal(); Success(Query(db.doctors, InDepartment(department), ByDoctorId))
  }

  /** `INSERT ... RETURNING`: `doctor` is the row as the database completes
      it; a primary key already in use makes the statement fail. */
  function CreateDoctor(db: Db, doctor: Doctor): (w: Write<Doctor>)
    ensures WriteGated(db, w)
    ensures db.available && (exists d :: d in db.doctors && d.id == doctor.id) ==> w == Write(db, Failure(QueryFailed))
    ensures db.available && !(exists d :: d in db.doctors && d.id == doctor.id) ==>
              w == Write(db.(doctors := db.doctors + [doctor]), Success(doctor))
  {
    if !db.available then Write(db, Failure(Unavailable))
    else if exists d :: d in db.doctors && d.id == doctor.id then Write(db, Failure(QueryFailed))
    else Write(db.(doctors := db.doctors + [doctor]), Success(doctor))
  }

  function UpdateDoctorAvailability(db: Db, id: Id, available: bool): (w: Write<()>)
    ensures WriteGated(db, w)
    ensures db.available ==> w.result == Success(()) && w.db == db.(doctors := w.db.doctors)
    ensures db.available ==> |w.db.doctors| == |db.doctors|
    ensures db.available ==> forall i :: 0 <= i < |db.doctors| ==>
              w.db.doctors[i] == if db.doctors[i].id == id then db.doctors[i].(available := available) else db.doctors[i]
  {
    if !db.available then Write(db, Failure(Unavailable))
    else Write(db.(doctors := UpdateWhere(db.doctors, DoctorIdIs(id), (d: Doctor) => d.(available := available))), Success(()))
  }

  // ---------------------------------------------------------------------
  // Patients
  // ---------------------------------------------------------------------

  function GetPatient(db: Db, id: Id): (r: Result<Option<Patient>, StorageError>)
    ensures Gated(db, r)
    ensures r.Success? && r.value.Some? ==> r.value.value in db.patients && r.value.value.id == id
    ensures r.Success? ==> (r.value.None? <==> forall i :: 0 <= i < |db.patients| ==> db.patients[i].id != id)
  {
    if !db.available then Failure(Unavailable) else Success(First(db.patients, PatientIdIs(id)))
  }

  function GetAllPatients(db: Db): (r: Result<seq<Patient>, StorageError>)
    ensures Gated(db, r)
    ensures r.Success? ==> multiset(r.value) == multiset(db.patients) && SortedBy(r.value, ByLastName)
  {
    if !db.available then Failure(Unavailable) else OrdersTotal(); Success(Sort(db.patients, ByLastName))
  }

  function CreatePatient(db: Db, patient: Patient): (w: Write<Patient>)
    ensures WriteGated(db, w)
    ensures db.available && (exists p :: p in db.patients && p.id == patient.id) ==> w == Write(db, Failure(QueryFailed))
    ensures db.available && !(exists p :: p in db.patients && p.id == patient.id) ==>
              w == Write(db.(patients := db.patients + [patient]), Success(patient))
  {
    if !db.available then Write(db, Failure(Unavailable))
    else if exists p :: p in db.patients && p.id == patient.id then Write(db, Failure(QueryFailed))
    else Write(db.(patients := db.patients + [patient]), Success(patient))
  }

  /** A patient with every column the patch sets overwritten. */
  function Patched(p: Patient, patch: PatientPatch): Patient
  {
    p.(firstName := if patch.firstName.Some? then patch.firstName.value else p.firstName,
       lastName := if patch.lastName.Some? then patch.lastName.value else p.lastName,
       bloodType := if patch.bloodType.Some? then patch.bloodType.value else p.bloodType,
       medicalHistory := if patch.medicalHistory.Some? then patch.medicalHistory.value else p.medicalHistory)
  }

  /** A patch that names no column. */
  predicate SetsNothing(patch: PatientPatch)
  {
    patch.firstName.None? && patch.lastName.None? && patch.bloodType.None? && patch.medicalHistory.None?
  }

  /** `UPDATE ... RETURNING` destructured to its first row: `None` (the
      source's `undefined`) when no patient has the id. The ORM's `set`
      drops the fields a partial row leaves undefined and rejects the
      statement when none is left, so an empty patch fails without
      touching the table. */
  function UpdatePatient(db: Db, id: Id, patch: PatientPatch): (w: Write<Option<Patient>>)
    ensures WriteGated(db, w)
    ensures db.available && SetsNothing(patch) ==> w == Write(db, Failure(NoValuesToSet))
    ensures db.available ==> w.db == db.(patients := w.db.patients)
    ensures db.available ==> |w.db.patients| == |db.patients|
    ensures db.available ==> forall i :: 0 <= i < |db.patients| ==>
              w.db.patients[i] == if db.patients[i].id == id then Patched(db.patients[i], patch) else db.patients[i]
    ensures db.available && !SetsNothing(patch) ==> w.result.Success?
    ensures db.available && !SetsNothing(patch) ==>
              (w.result.value.None? <==> forall i :: 0 <= i < |db.patients| ==> db.patients[i].id != id)
    ensures db.available && !SetsNothing(patch) && w.result.value.Some? ==>
              w.result.value.value.id == id && w.result.value.value in w.db.patients
  {
    if !db.available then Write(db, Failure(Unavailable))
    else if SetsNothing(patch) then
      assert forall i :: 0 <= i < |db.patients| ==> Patched(db.patients[i], patch) == db.patients[i];
      Write(db, Failure(NoValuesToSet))
    else
      var patients := UpdateWhere(db.patients, PatientIdIs(id), (p: Patient) => Patched(p, patch));
      assert forall i :: 0 <= i < |patients| ==> (patients[i].id == id <==> db.patients[i].id == id);
      Write(db.(patients := patients), Success(First(patients, PatientIdIs(id))))
  }

  // ---------------------------------------------------------------------
  // Wards
  // ---------------------------------------------------------------------

  function GetWard(db: Db, id: Id): (r: Result<Option<Ward>, StorageError>)
    ensures Gated(db, r)
    ensures r.Success? && r.value.Some? ==> r.value.value in db.wards && r.value.value.id == id
    ensures r.Success? ==> (r.value.None? <==> forall i :: 0 <= i < |db.wards| ==> db.wards[i].id != id)
  {
    if !db.available then Failure(Unavailable) else Success(First(db.wards, WardIdIs(id)))
  }

  function GetAllWards(db: Db): (r: Result<seq<Ward>, StorageError>)
    ensures Gated(db, r)
    ensures r.Success? ==> multiset(r.value) == multiset(db.wards) && SortedBy(r.value, ByWardName)
  {
    if !db.available then Failure(Unavailable) else OrdersTotal(); Success(Sort(db.wards, ByWardName))
  }

  function CreateWard(db: Db, ward: Ward): (w: Write<Ward>)
    ensures WriteGated(db, w)
    ensures db.available && (exists x :: x in db.wards && x.id == ward.id) ==> w == Write(db, Failure(QueryFailed))
    ensures db.available && !(exists x :: x in db.wards && x.id == ward.id) ==>
              w == Write(db.(wards := db.wards + [ward]), Success(ward))
  {
    if !db.available then Write(db, Failure(Unavailable))
    else if exists x :: x in db.wards && x.id == ward.id then Write(db, Failure(QueryFailed))
    else Write(db.(wards := db.wards + [ward]), Success(ward))
  }

  // ---------------------------------------------------------------------
  // Beds
  // ---------------------------------------------------------------------

  function GetBed(db: Db, id: Id): (r: Result<Option<Bed>, StorageError>)
    ensures Gated(db, r)
    ensures r.Success? && r.value.Some? ==> r.value.value in db.beds && r.value.value.id == id
    ensures r.Success? ==> (r.value.None? <==> forall i :: 0 <= i < |db.beds| ==> db.beds[i].id != id)
  {
    if !db.available then Failure(Unavailable) else Success(First(db.beds, BedIdIs(id)))
  }

  function GetAllBeds(db: Db): (r: Result<seq<Bed>, StorageError>)
    ensures Gated(db, r)
    ensures r.Success? ==> multiset(r.value) == multiset(db.beds) && SortedBy(r.value, ByBedNumber)
  {
    if !db.available then Failure(Unavailable) else OrdersTotal(); Success(Sort(db.beds, ByBedNumber))
  }

  function GetBedsByWard(db: Db, wardId: Id): (r: Result<seq<Bed>, StorageError>)
    ensures Gated(db, r)
    ensures r.Success? ==> Selected(r.value, db.beds, InWard(wardId), ByBedNumber)
  {
    if !db.available then Failure(Unavailable)
    else OrdersTotal(); Success(Query(db.beds, InWard(wardId), ByBedNumber))
  }

  function GetBedsByStatus(db: Db, status: string): (r: Result<seq<Bed>, StorageError>)
    ensures Gated(db, r)
    ensures r.Success? ==> Selected(r.value, db.beds, HasStatus(status), ByBedNumber)
  {
    if !db.available then Failure(Unavailable)
    else OrdersTotal(); Success(Query(db.beds, HasStatus(status), ByBedNumber))
  }

  /** `patientId || null`: an absent or empty patient id clears the bed. */
  function PatientRef(patientId: string): (r: Option<Id>)
    ensures r.None? <==> patientId == ""
    ensures r.Some? ==> r.value == patientId
  {
    if patientId == "" then None else Some(patientId)
  }

  function UpdateBedStatus(db: Db, id: Id, status: string, patientId: string, now: Timestamp): (w: Write<()>)
    ensures WriteGated(db, w)
    ensures db.available ==> w.result == Success(()) && w.db == db.(beds := w.db.beds)
    ensures db.available ==> |w.db.beds| == |db.beds|
    ensures db.available ==> forall i :: 0 <= i < |db.beds| ==>
              w.db.beds[i] == if db.beds[i].id == id
                              then db.beds[i].(status := status, patientId := PatientRef(patientId), lastUpdated := now)
                              else db.beds[i]
  {
    if !db.available then Write(db, Failure(Unavailable))
    else
      var beds := UpdateWhere(db.beds, BedIdIs(id),
                              (b: Bed) => b.(status := status, patientId := PatientRef(patientId), lastUpdated := now));
      Write(db.(beds := beds), Success(()))
  }

  /** The rows of `[b] JOIN wards ON b.wardId = wards.id`. */
  function WardsOf(b: Bed, wards: seq<Ward>): (r: seq<BedWithWard>)
    ensures forall p :: multiset(r)[p] ==
              if p.bed == b && p.ward.id == b.wardId then multiset(wards)[p.ward] else 0
    decreases |wards|
  {
    if wards == [] then []
    else
      assert wards == [wards[0]] + wards[1..];
      (if wards[0].id == b.wardId then [BedWithWard(b, wards[0])] else []) + WardsOf(b, wards[1..])
  }

  /** `r` holds each bed/ward pair that agrees on the ward id as many
      times as the two tables hold the bed and the ward together. */
  ghost predicate IsBedWardJoin(r: seq<BedWithWard>, beds: seq<Bed>, wards: seq<Ward>)
  {
    forall p :: multiset(r)[p] == JoinCount(p, beds, wards)
  }

  ghost function JoinCount(p: BedWithWard, beds: seq<Bed>, wards: seq<Ward>): nat
  {
    if p.bed.wardId == p.ward.id then multiset(beds)[p.bed] * multiset(wards)[p.ward] else 0
  }

  lemma JoinStep(p: BedWithWard, beds: seq<Bed>, wards: seq<Ward>, head: seq<BedWithWard>, rest: seq<BedWithWard>)
    requires beds != []
    requires multiset(head)[p] == if p.bed == beds[0] && p.ward.id == beds[0].wardId then multiset(wards)[p.ward] else 0
    requires multiset(rest)[p] == JoinCount(p, beds[1..], wards)
    ensures multiset(head + rest)[p] == JoinCount(p, beds, wards)
  {
    assert beds == [beds[0]] + beds[1..];
    var mb := multiset(beds[1..])[p.bed];
    var mw := multiset(wards)[p.ward];
    if p.bed == beds[0] {
      assert multiset(beds)[p.bed] == mb + 1;
      assert (mb + 1) * mw == mb * mw + mw;
    } else {
      assert multiset(beds)[p.bed] == mb;
    }
  }

  /** `beds INNER JOIN wards ON beds.wardId = wards.id`, before ordering. */
  function JoinWards(beds: seq<Bed>, wards: seq<Ward>): (r: seq<BedWithWard>)
    ensures IsBedWardJoin(r, beds, wards)
    decreases |beds|
  {
    if beds == [] then []
    else
      var head := WardsOf(beds[0], wards);
      var rest := JoinWards(beds[1..], wards);
      forall p ensures multiset(head + rest)[p] == JoinCount(p, beds, wards) {
        JoinStep(p, beds, wards, head, rest);
      }
      head + rest
  }

  function GetBedsWithWardInfo(db: Db): (r: Result<seq<BedWithWard>, StorageError>)
    ensures Gated(db, r)
    ensures r.Success? ==> SortedBy(r.value, ByWardThenBedNumber)
    ensures r.Success? ==> IsBedWardJoin(r.value, db.beds, db.wards)
  {
    if !db.available then Failure(Unavailable)
    else OrdersTotal(); Success(Sort(JoinWards(db.beds, db.wards), ByWardThenBedNumber))
  }

  // ---------------------------------------------------------------------
  // Appointments
  // ---------------------------------------------------------------------

  function GetAppointment(db: Db, id: Id): (r: Result<Option<Appointment>, StorageError>)
    ensures Gated(db, r)
    ensures r.Success? && r.value.Some? ==> r.value.value in db.appointments && r.value.value.id == id
    ensures r.Success? ==> (r.value.None? <==> forall i :: 0 <= i < |db.appointments| ==> db.appointments[i].id != id)
  {
    if !db.available then Failure(Unavailable) else Success(First(db.appointments, AppointmentIdIs(id)))
  }

  function GetAllAppointments(db: Db): (r: Result<seq<Appointment>, StorageError>)
    ensures Gated(db, r)
    ensures r.Success? ==> multiset(r.value) == multiset(db.appointments) && SortedBy(r.value, ByDateDescending)
  {
    if !db.available then Failure(Unavailable) else OrdersTotal(); Success(Sort(db.appointments, ByDateDescending))
  }

  /** The appointments of the day the window describes, earliest first. */
  function GetAppointmentsByDate(db: Db, day: DayWindow): (r: Result<seq<Appointment>, StorageError>)
    ensures Gated(db, r)
    ensures r.Success? ==> Selected(r.value, db.appointments, OnDay(day), ByDateAscending)
  {
    if !db.available then Failure(Unavailable)
    else OrdersTotal(); Success(Query(db.appointments, OnDay(day), ByDateAscending))
  }

  function GetAppointmentsByDoctor(db: Db, doctorId: Id): (r: Result<seq<Appointment>, StorageError>)
    ensures Gated(db, r)
    ensures r.Success? ==> Selected(r.value, db.appointments, WithDoctor(doctorId), ByDateDescending)
  {
    if !db.available then Failure(Unavailable)
    else OrdersTotal(); Success(Query(db.appointments, WithDoctor(doctorId), ByDateDescending))
  }

  function GetAppointmentsByPatient(db: Db, patientId: Id): (r: Result<seq<Appointment>, StorageError>)
    ensures Gated(db, r)
    ensures r.Success? ==> Selected(r.value, db.appointments, WithPatient(patientId), ByDateDescending)
  {
    if !db.available then Failure(Unavailable)
    else OrdersTotal(); Success(Query(db.appointments, WithPatient(patientId), ByDateDescending))
  }

  function CreateAppointment(db: Db, appointment: Appointment): (w: Write<Appointment>)
    ensures WriteGated(db, w)
    ensures db.available && (exists a :: a in db.appointments && a.id == appointment.id) ==> w == Write(db, Failure(QueryFailed))
    ensures db.available && !(exists a :: a in db.appointments && a.id == appointment.id) ==>
              w == Write(db.(appointments := db.appointments + [appointment]), Success(appointment))
  {
    if !db.available then Write(db, Failure(Unavailable))
    else if exists a :: a in db.appointments && a.id == appointment.id then Write(db, Failure(QueryFailed))
    else Write(db.(appointments := db.appointments + [appointment]), Success(appointment))
  }

  function UpdateAppointmentStatus(db: Db, id: Id, status: string): (w: Write<()>)
    ensures WriteGated(db, w)
    ensures db.available ==> w.result == Success(()) && w.db == db.(appointments := w.db.appointments)
    ensures db.available ==> |w.db.appointments| == |db.appointments|
    ensures db.available ==> forall i :: 0 <= i < |db.appointments| ==>
              w.db.appointments[i] == if db.appointments[i].id == id
                                      then db.appointments[i].(status := status)
                                      else db.appointments[i]
  {
    if !db.available then Write(db, Failure(Unavailable))
    else
      var rows := UpdateWhere(db.appointments, AppointmentIdIs(id), (a: Appointment) => a.(status := status));
      Write(db.(appointments := rows), Success(()))
  }

  /** The rows of `[a] JOIN patients JOIN doctors` for one appointment. */
  function DetailsOf(a: Appointment, patients: seq<Patient>, doctors: seq<Doctor>): (r: seq<AppointmentWithDetails>)
    ensures forall x :: multiset(r)[x] == OneAppointmentCount(x, a, patients, doctors)
    decreases |patients|
  {
    if patients == [] then []
    else
      var here := PatientRows(a, patients[0], doctors);
      var rest := DetailsOf(a, patients[1..], doctors);
      forall x ensures multiset(here + rest)[x] == OneAppointmentCount(x, a, patients, doctors) {
        PatientStep(x, a, patients, doctors, here, rest);
      }
      here + rest
  }

  /** How often `[a] JOIN patients JOIN doctors` holds `x`. */
  ghost function OneAppointmentCount(x: AppointmentWithDetails, a: Appointment,
                                     patients: seq<Patient>, doctors: seq<Doctor>): nat
  {
    if x.appointment == a && x.patient.id == a.patientId && x.doctor.id == a.doctorId
    then multiset(patients)[x.patient] * multiset(doctors)[x.doctor] else 0
  }

  /** The rows of `[a] JOIN [p] JOIN doctors`, empty unless `p` is the
      appointment's patient. */
  function PatientRows(a: Appointment, p: Patient, doctors: seq<Doctor>): (r: seq<AppointmentWithDetails>)
    ensures forall x :: multiset(r)[x] ==
              if x.appointment == a && x.patient == p && p.id == a.patientId && x.doctor.id == a.doctorId
              then multiset(doctors)[x.doctor] else 0
  {
    if p.id == a.patientId then DoctorsFor(a, p, doctors) else []
  }

  lemma PatientStep(x: AppointmentWithDetails, a: Appointment, patients: seq<Patient>, doctors: seq<Doctor>,
                    here: seq<AppointmentWithDetails>, rest: seq<AppointmentWithDetails>)
    requires patients != []
    requires multiset(here)[x] ==
               if x.appointment == a && x.patient == patients[0] && patients[0].id == a.patientId && x.doctor.id == a.doctorId
               then multiset(doctors)[x.doctor] else 0
    requires multiset(rest)[x] == OneAppointmentCount(x, a, patients[1..], doctors)
    ensures multiset(here + rest)[x] == OneAppointmentCount(x, a, patients, doctors)
  {
    assert patients == [patients[0]] + patients[1..];
    var mp := multiset(patients[1..])[x.patient];
    var md := multiset(doctors)[x.doctor];
    if x.patient == patients[0] {
      assert multiset(patients)[x.patient] == mp + 1;
      assert (mp + 1) * md == mp * md + md;
    } else {
      assert multiset(patients)[x.patient] == mp;
    }
  }

  /** The rows of `[a] JOIN [p] JOIN doctors`. */
  function DoctorsFor(a: Appointment, p: Patient, doctors: seq<Doctor>): (r: seq<AppointmentWithDetails>)
    ensures forall x :: multiset(r)[x] ==
              if x.appointment == a && x.patient == p && x.doctor.id == a.doctorId then multiset(doctors)[x.doctor] else 0
    decreases |doctors|
  {
    if doctors == [] then []
    else
      assert doctors == [doctors[0]] + doctors[1..];
      (if doctors[0].id == a.doctorId then [AppointmentWithDetails(a, p, doctors[0])] else [])
        + DoctorsFor(a, p, doctors[1..])
  }

  /** `r` holds each appointment/patient/doctor triple whose ids agree as
      many times as the three tables hold its parts together. */
  ghost predicate IsDetailsJoin(r: seq<AppointmentWithDetails>, appointments: seq<Appointment>,
                                patients: seq<Patient>, doctors: seq<Doctor>)
  {
    forall x :: multiset(r)[x] == DetailsCount(x, appointments, patients, doctors)
  }

  ghost function DetailsCount(x: AppointmentWithDetails, appointments: seq<Appointment>,
                              patients: seq<Patient>, doctors: seq<Doctor>): nat
  {
    if x.patient.id == x.appointment.patientId && x.doctor.id == x.appointment.doctorId
    then multiset(appointments)[x.appointment] * (multiset(patients)[x.patient] * multiset(doctors)[x.doctor])
    else 0
  }

  lemma AppointmentStep(x: AppointmentWithDetails, appointments: seq<Appointment>, patients: seq<Patient>,
                        doctors: seq<Doctor>, head: seq<AppointmentWithDetails>, rest: seq<AppointmentWithDetails>)
    requires appointments != []
    requires multiset(head)[x] == OneAppointmentCount(x, appointments[0], patients, doctors)
    requires multiset(rest)[x] == DetailsCount(x, appointments[1..], patients, doctors)
    ensures multiset(head + rest)[x] == DetailsCount(x, appointments, patients, doctors)
  {
    assert appointments == [appointments[0]] + appointments[1..];
    var ma := multiset(appointments[1..])[x.appointment];
    var k := multiset(patients)[x.patient] * multiset(doctors)[x.doctor];
    if x.appointment == appointments[0] {
      assert multiset(appointments)[x.appointment] == ma + 1;
      assert (ma + 1) * k == ma * k + k;
    } else {
      assert multiset(appointments)[x.appointment] == ma;
    }
  }

  /** `appointments JOIN patients ON ... JOIN doctors ON ...`, before ordering. */
  function JoinDetails(appointments: seq<Appointment>, patients: seq<Patient>, doctors: seq<Doctor>): (r: seq<AppointmentWithDetails>)
    ensures IsDetailsJoin(r, appointments, patients, doctors)
    decreases |appointments|
  {
    if appointments == [] then []
    else
      var head := DetailsOf(appointments[0], patients, doctors);
      var rest := JoinDetails(appointments[1..], patients, doctors);
      forall x ensures multiset(head + rest)[x] == DetailsCount(x, appointments, patients, doctors) {
        AppointmentStep(x, appointments, patients, doctors, head, rest);
      }
      head + rest
  }

  lemma ProductPositive(a: nat, b: nat)
    ensures a * b > 0 <==> a > 0 && b > 0
  {
    if a > 0 && b > 0 {
      assert a * b >= b;
    }
  }

  /** A joined row is an appointment with its own patient and its own
      doctor, and every such triple is a joined row. */
  lemma DetailsJoinMembers(r: seq<AppointmentWithDetails>, appointments: seq<Appointment>,
                           patients: seq<Patient>, doctors: seq<Doctor>)
    requires IsDetailsJoin(r, appointments, patients, doctors)
    ensures forall x :: x in r <==>
              x.appointment in appointments && x.patient in patients && x.doctor in doctors &&
              x.patient.id == x.appointment.patientId && x.doctor.id == x.appointment.doctorId
  {
    forall x ensures x in r <==>
                       x.appointment in appointments && x.patient in patients && x.doctor in doctors &&
                       x.patient.id == x.appointment.patientId && x.doctor.id == x.appointment.doctorId {
      var ma, mp, md := multiset(appointments)[x.appointment], multiset(patients)[x.patient], multiset(doctors)[x.doctor];
      assert x in r <==> multiset(r)[x] > 0;
      assert x.appointment in appointments <==> ma > 0;
      assert x.patient in patients <==> mp > 0;
      assert x.doctor in doctors <==> md > 0;
      ProductPositive(mp, md);
      ProductPositive(ma, mp * md);
    }
  }

  /** Appointments joined with their patient and doctor, latest first; an
      appointment whose patient or doctor is missing is dropped. */
  function GetAppointmentsWithDetails(db: Db): (r: Result<seq<AppointmentWithDetails>, StorageError>)
    ensures Gated(db, r)
    ensures r.Success? ==> SortedBy(r.value, ByDetailsDateDescending)
    ensures r.Success? ==> IsDetailsJoin(r.value, db.appointments, db.patients, db.doctors)
    ensures r.Success? ==> forall x :: x in r.value <==>
              x.appointment in db.appointments && x.patient in db.patients && x.doctor in db.doctors &&
              x.patient.id == x.appointment.patientId && x.doctor.id == x.appointment.doctorId
  {
    if !db.available then Failure(Unavailable)
    else
      OrdersTotal();
      var r := Sort(JoinDetails(db.appointments, db.patients, db.doctors), ByDetailsDateDescending);
      DetailsJoinMembers(r, db.appointments, db.patients, db.doctors);
      Success(r)
  }

  // ---------------------------------------------------------------------
  // Organ donors
  // ---------------------------------------------------------------------

  function GetOrganDonor(db: Db, id: Id): (r: Result<Option<OrganDonor>, StorageError>)
    ensures Gated(db, r)
    ensures r.Success? && r.value.Some? ==> r.value.value in db.donors && r.value.value.id == id
    ensures r.Success? ==> (r.value.None? <==> forall i :: 0 <= i < |db.donors| ==> db.donors[i].id != id)
  {
    if !db.available then Failure(Unavailable) else Success(First(db.donors, DonorIdIs(id)))
  }

  function GetAllOrganDonors(db: Db): (r: Result<seq<OrganDonor>, StorageError>)
    ensures Gated(db, r)
    ensures r.Success? ==> multiset(r.value) == multiset(db.donors) && SortedBy(r.value, ByDonorRecency)
  {
    if !db.available then Failure(Unavailable) else OrdersTotal(); Success(Sort(db.donors, ByDonorRecency))
  }

  function GetOrganDonorsByType(db: Db, organType: string): (r: Result<seq<OrganDonor>, StorageError>)
    ensures Gated(db, r)
    ensures r.Success? ==> Selected(r.value, db.donors, OfOrganType(organType), ByDonorRecency)
  {
    if !db.available then Failure(Unavailable)
    else OrdersTotal(); Success(Query(db.donors, OfOrganType(organType), ByDonorRecency))
  }

  function GetOrganDonorsByBloodType(db: Db, bloodType: string): (r: Result<seq<OrganDonor>, StorageError>)
    ensures Gated(db, r)
    ensures r.Success? ==> Selected(r.value, db.donors, OfBloodType(bloodType), ByDonorRecency)
  {
    if !db.available then Failure(Unavailable)
    else OrdersTotal(); Success(Query(db.donors, OfBloodType(bloodType), ByDonorRecency))
  }

  /** The search dispatches on which arguments are truthy (non-empty);
      absent arguments are the empty string. Each branch is an exact match,
      latest update first. */
  function SearchOrganDonors(db: Db, bloodType: string, organType: string): (r: Result<seq<OrganDonor>, StorageError>)
    ensures Gated(db, r)
    ensures r.Success? && bloodType != "" && organType != "" ==>
              Selected(r.value, db.donors, OfBloodAndOrganType(bloodType, organType), ByDonorRecency)
    ensures r.Success? && bloodType != "" && organType == "" ==>
              Selected(r.value, db.donors, OfBloodType(bloodType), ByDonorRecency)
    ensures r.Success? && bloodType == "" && organType != "" ==>
              Selected(r.value, db.donors, OfOrganType(organType), ByDonorRecency)
    ensures r.Success? && bloodType == "" && organType == "" ==>
              multiset(r.value) == multiset(db.donors) && SortedBy(r.value, ByDonorRecency)
  {
    if !db.available then Failure(Unavailable)
    else
      OrdersTotal();
      if bloodType != "" && organType != "" then
        Success(Query(db.donors, OfBloodAndOrganType(bloodType, organType), ByDonorRecency))
      else if bloodType != "" then
        Success(Query(db.donors, OfBloodType(bloodType), ByDonorRecency))
      else if organType != "" then
        Success(Query(db.donors, OfOrganType(organType), ByDonorRecency))
      else
        Success(Sort(db.donors, ByDonorRecency))
  }

  function CreateOrganDonor(db: Db, donor: OrganDonor): (w: Write<OrganDonor>)
    ensures WriteGated(db, w)
    ensures db.available && (exists d :: d in db.donors && d.id == donor.id) ==> w == Write(db, Failure(QueryFailed))
    ensures db.available && !(exists d :: d in db.donors && d.id == donor.id) ==>
              w == Write(db.(donors := db.donors + [donor]), Success(donor))
  {
    if !db.available then Write(db, Failure(Unavailable))
    else if exists d :: d in db.donors && d.id == donor.id then Write(db, Failure(QueryFailed))
    else Write(db.(donors := db.donors + [donor]), Success(donor))
  }

  function UpdateOrganDonorStatus(db: Db, id: Id, status: string, now: Timestamp): (w: Write<()>)
    ensures WriteGated(db, w)
    ensures db.available ==> w.result == Success(()) && w.db == db.(donors := w.db.donors)
    ensures db.available ==> |w.db.donors| == |db.donors|
    ensures db.available ==> forall i :: 0 <= i < |db.donors| ==>
              w.db.donors[i] == if db.donors[i].id == id
                                then db.donors[i].(status := status, lastUpdated := now)
                                else db.donors[i]
  {
    if !db.available then Write(db, Failure(Unavailable))
    else
      var rows := UpdateWhere(db.donors, DonorIdIs(id), (d: OrganDonor) => d.(status := status, lastUpdated := now));
      Write(db.(donors := rows), Success(()))
  }

  // ---------------------------------------------------------------------
  // Alerts
  // ---------------------------------------------------------------------

  function GetAlert(db: Db, id: Id): (r: Result<Option<Alert>, StorageError>)
    ensures Gated(db, r)
    ensures r.Success? && r.value.Some? ==> r.value.value in db.alerts && r.value.value.id == id
    ensures r.Success? ==> (r.value.None? <==> forall i :: 0 <= i < |db.alerts| ==> db.alerts[i].id != id)
  {
    if !db.available then Failure(Unavailable) else Success(First(db.alerts, AlertIdIs(id)))
  }

  function GetAllAlerts(db: Db): (r: Result<seq<Alert>, StorageError>)
    ensures Gated(db, r)
    ensures r.Success? ==> multiset(r.value) == multiset(db.alerts) && SortedBy(r.value, ByAlertRecency)
  {
    if !db.available then Failure(Unavailable) else OrdersTotal(); Success(Sort(db.alerts, ByAlertRecency))
  }

  function GetUnreadAlerts(db: Db): (r: Result<seq<Alert>, StorageError>)
    ensures Gated(db, r)
    ensures r.Success? ==> Selected(r.value, db.alerts, IsUnread(), ByAlertRecency)
  {
    if !db.available then Failure(Unavailable)
    else OrdersTotal(); Success(Query(db.alerts, IsUnread(), ByAlertRecency))
  }

  function CreateAlert(db: Db, alert: Alert): (w: Write<Alert>)
    ensures WriteGated(db, w)
    ensures db.available && (exists a :: a in db.alerts && a.id == alert.id) ==> w == Write(db, Failure(QueryFailed))
    ensures db.available && !(exists a :: a in db.alerts && a.id == alert.id) ==>
              w == Write(db.(alerts := db.alerts + [alert]), Success(alert))
  {
    if !db.available then Write(db, Failure(Unavailable))
    else if exists a :: a in db.alerts && a.id == alert.id then Write(db, Failure(QueryFailed))
    else Write(db.(alerts := db.alerts + [alert]), Success(alert))
  }

  function MarkAlertAsRead(db: Db, id: Id): (w: Write<()>)
    ensures WriteGated(db, w)
    ensures db.available ==> w.result == Success(()) && w.db == db.(alerts := w.db.alerts)
    ensures db.available ==> |w.db.alerts| == |db.alerts|
    ensures db.available ==> forall i :: 0 <= i < |db.alerts| ==>
              w.db.alerts[i] == if db.alerts[i].id == id then db.alerts[i].(isRead := true) else db.alerts[i]
  {
    if !db.available then Write(db, Failure(Unavailable))
    else Write(db.(alerts := UpdateWhere(db.alerts, AlertIdIs(id), (a: Alert) => a.(isRead := true))), Success(()))
  }

  // ---------------------------------------------------------------------
  // Chat messages
  // ---------------------------------------------------------------------

  function GetChatMessages(db: Db, sessionId: string): (r: Result<seq<ChatMessage>, StorageError>)
    ensures Gated(db, r)
    ensures r.Success? ==> Selected(r.value, db.chats, InSession(sessionId), ByTimestamp)
  {
    if !db.available then Failure(Unavailable)
    else OrdersTotal(); Success(Query(db.chats, InSession(sessionId), ByTimestamp))
  }

  function CreateChatMessage(db: Db, message: ChatMessage): (w: Write<ChatMessage>)
    ensures WriteGated(db, w)
    ensures db.available && (exists m :: m in db.chats && m.id == message.id) ==> w == Write(db, Failure(QueryFailed))
    ensures db.available && !(exists m :: m in db.chats && m.id == message.id) ==>
              w == Write(db.(chats := db.chats + [message]), Success(message))
  {
    if !db.available then Write(db, Failure(Unavailable))
    else if exists m :: m in db.chats && m.id == message.id then Write(db, Failure(QueryFailed))
    else Write(db.(chats := db.chats + [message]), Success(message))
  }
}
