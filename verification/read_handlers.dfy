/**
 * The read endpoints. Each one asks storage once (the dashboard four
 * times) and, when any of those calls fails for whatever reason, answers
 * with the fixed mock records instead: a read never reports an error
 * status, never writes and never broadcasts.
 */
module ReadHandlers {
  import opened Outcomes
  import opened Ordering
  import opened Schema
  import opened Storage
  import opened StorageFacts
  import opened MockData
  import opened Http

  // ---------------------------------------------------------------------
  // GET /api/dashboard/stats
  // ---------------------------------------------------------------------

  /** The dashboard's fixed counts when storage fails. */
  const FallbackStats: Body := Stats(2, 2, 1, 1)

  function DonorStatusIs(status: string): OrganDonor -> bool { (d: OrganDonor) => d.status == status }

  /** Four reads: available beds, today's appointments, all donors and
      occupied beds. The occupied beds are fetched and not used; the
      emergency count is always 0. */
  function DashboardStats(env: Env, today: DayWindow): (h: Handled)
    ensures ReadPolicy(env, h)
    ensures !Serves(env, 4) ==> h.response.body == FallbackStats
    ensures Serves(env, 4) ==> h.response.body.Stats? && h.response.body.emergencyCases == 0
  {
    var available := Attempt(env, 0, GetBedsByStatus(env.db, "available"));
    var todays := Attempt(env, 1, GetAppointmentsByDate(env.db, today));
    var donors := Attempt(env, 2, GetAllOrganDonors(env.db));
    var occupied := Attempt(env, 3, GetBedsByStatus(env.db, "occupied"));
    var body :=
      if available.Success? && todays.Success? && donors.Success? && occupied.Success?
      then Stats(|available.value|, |todays.value|, |Filter(donors.value, DonorStatusIs("available"))|, 0)
      else FallbackStats;
    ServedCalls(env);
    Handled(env.db, Response(200, body), [])
  }

  /** With every call served, the dashboard counts the available beds,
      today's appointments and the donors whose status is "available". */
  lemma DashboardCountsRows(env: Env, today: DayWindow)
    requires Serves(env, 4)
    ensures DashboardStats(env, today).response.body == Stats(
              |Filter(env.db.beds, HasStatus("available"))|,
              |Filter(env.db.appointments, OnDay(today))|,
              |Filter(env.db.donors, DonorStatusIs("available"))|,
              0)
  {
    assert 0 !in env.faults && 1 !in env.faults && 2 !in env.faults && 3 !in env.faults;
    var available := GetBedsByStatus(env.db, "available").value;
    var todays := GetAppointmentsByDate(env.db, today).value;
    var donors := GetAllOrganDonors(env.db).value;
    SelectsSize(available, env.db.beds, HasStatus("available"));
    SelectsSize(todays, env.db.appointments, OnDay(today));
    FilterPermutation(donors, env.db.donors, DonorStatusIs("available"));
  }

  // ---------------------------------------------------------------------
  // GET /api/beds and /api/beds/by-ward/:wardId
  // ---------------------------------------------------------------------

  function ListBeds(env: Env): (h: Handled)
    ensures ReadPolicy(env, h)
    ensures !Serves(env, 1) ==> h.response.body == MockBedList(env.fixtures.beds)
    ensures Serves(env, 1) ==> h.response.body.BedWardList?
    ensures Serves(env, 1) ==> IsBedWardJoin(h.response.body.rows, env.db.beds, env.db.wards)
                               && SortedBy(h.response.body.rows, ByWardThenBedNumber)
  {
    ServedCalls(env);
    var r := Attempt(env, 0, GetBedsWithWardInfo(env.db));
    var body := if r.Success? then BedWardList(r.value) else MockBedList(env.fixtures.beds);
    Handled(env.db, Response(200, body), [])
  }

  function BedsByWard(env: Env, wardId: string): (h: Handled)
    ensures ReadPolicy(env, h)
    ensures !Serves(env, 1) ==> h.response.body == MockBedList(BedsInWard(env.fixtures.beds, wardId))
    ensures Serves(env, 1) ==> h.response.body.BedList?
    ensures Serves(env, 1) ==> Selected(h.response.body.beds, env.db.beds, InWard(wardId), ByBedNumber)
  {
    ServedCalls(env);
    var r := Attempt(env, 0, GetBedsByWard(env.db, wardId));
    var body := if r.Success? then BedList(r.value) else MockBedList(BedsInWard(env.fixtures.beds, wardId));
    Handled(env.db, Response(200, body), [])
  }

  // ---------------------------------------------------------------------
  // GET /api/wards
  // ---------------------------------------------------------------------

  function ListWards(env: Env): (h: Handled)
    ensures ReadPolicy(env, h)
    ensures !Serves(env, 1) ==> h.response.body == MockWardList(env.fixtures.wards)
    ensures Serves(env, 1) ==> h.response.body.WardList?
    ensures Serves(env, 1) ==> multiset(h.response.body.wards) == multiset(env.db.wards)
                               && SortedBy(h.response.body.wards, ByWardName)
  {
    ServedCalls(env);
    var r := Attempt(env, 0, GetAllWards(env.db));
    var body := if r.Success? then WardList(r.value) else MockWardList(env.fixtures.wards);
    Handled(env.db, Response(200, body), [])
  }

  // ---------------------------------------------------------------------
  // GET /api/appointments and /api/appointments/today
  // ---------------------------------------------------------------------

  function ListAppointments(env: Env): (h: Handled)
    ensures ReadPolicy(env, h)
    ensures !Serves(env, 1) ==> h.response.body == MockAppointmentList(env.fixtures.appointments)
    ensures Serves(env, 1) ==> h.response.body.AppointmentDetailList?
    ensures Serves(env, 1) ==> SortedBy(h.response.body.details, ByDetailsDateDescending)
    ensures Serves(env, 1) ==> IsDetailsJoin(h.response.body.details, env.db.appointments, env.db.patients, env.db.doctors)
    ensures Serves(env, 1) ==> forall x :: x in h.response.body.details <==>
              x.appointment in env.db.appointments && x.patient in env.db.patients && x.doctor in env.db.doctors &&
              x.patient.id == x.appointment.patientId && x.doctor.id == x.appointment.doctorId
  {
    ServedCalls(env);
    var r := Attempt(env, 0, GetAppointmentsWithDetails(env.db));
    var body := if r.Success? then AppointmentDetailList(r.value) else MockAppointmentList(env.fixtures.appointments);
    Handled(env.db, Response(200, body), [])
  }

  /** `today` is the window of the server's current local day. */
  function TodayAppointments(env: Env, today: DayWindow): (h: Handled)
    ensures ReadPolicy(env, h)
    ensures !Serves(env, 1) ==> h.response.body == MockAppointmentList(env.fixtures.appointments)
    ensures Serves(env, 1) ==> h.response.body.AppointmentList?
    ensures Serves(env, 1) ==> Selected(h.response.body.appointments, env.db.appointments, OnDay(today), ByDateAscending)
  {
    ServedCalls(env);
    var r := Attempt(env, 0, GetAppointmentsByDate(env.db, today));
    var body := if r.Success? then AppointmentList(r.value) else MockAppointmentList(env.fixtures.appointments);
    Handled(env.db, Response(200, body), [])
  }

  // ---------------------------------------------------------------------
  // GET /api/doctors and /api/doctors/department/:department
  // ---------------------------------------------------------------------

  function ListDoctors(env: Env): (h: Handled)
    ensures ReadPolicy(env, h)
    ensures !Serves(env, 1) ==> h.response.body == MockDoctorList(env.fixtures.doctors)
    ensures Serves(env, 1) ==> h.response.body.DoctorList?
    ensures Serves(env, 1) ==> multiset(h.response.body.doctors) == multiset(env.db.doctors)
                               && SortedBy(h.response.body.doctors, ByDepartment)
  {
    ServedCalls(env);
    var r := Attempt(env, 0, GetAllDoctors(env.db));
    var body := if r.Success? then DoctorList(r.value) else MockDoctorList(env.fixtures.doctors);
    Handled(env.db, Response(200, body), [])
  }

  /** Storage matches the department column exactly; the fallback matches
      the mock specialty by case-insensitive substring. */
  function DoctorsByDepartment(env: Env, department: string): (h: Handled)
    ensures ReadPolicy(env, h)
    ensures !Serves(env, 1) ==> h.response.body == MockDoctorList(DoctorsInDepartment(env.fixtures.doctors, department))
    ensures Serves(env, 1) ==> h.response.body.DoctorList?
    ensures Serves(env, 1) ==> Selected(h.response.body.doctors, env.db.doctors, InDepartment(department), ByDoctorId)
  {
    ServedCalls(env);
    var r := Attempt(env, 0, GetDoctorsByDepartment(env.db, department));
    var body := if r.Success? then DoctorList(r.value) else MockDoctorList(DoctorsInDepartment(env.fixtures.doctors, department));
    Handled(env.db, Response(200, body), [])
  }

  // ---------------------------------------------------------------------
  // GET /api/patients
  // ---------------------------------------------------------------------

  function ListPatients(env: Env): (h: Handled)
    ensures ReadPolicy(env, h)
    ensures !Serves(env, 1) ==> h.response.body == MockPatientList(env.fixtures.patients)
    ensures Serves(env, 1) ==> h.response.body.PatientList?
    ensures Serves(env, 1) ==> multiset(h.response.body.patients) == multiset(env.db.patients)
                               && SortedBy(h.response.body.patients, ByLastName)
  {
    ServedCalls(env);
    var r := Attempt(env, 0, GetAllPatients(env.db));
    var body := if r.Success? then PatientList(r.value) else MockPatientList(env.fixtures.patients);
    Handled(env.db, Response(200, body), [])
  }

  // ---------------------------------------------------------------------
  // GET /api/organ-donors?bloodType=&organType=
  // ---------------------------------------------------------------------

  /** The donor search with the query values read before the `try`, so the
      fallback can filter on them. An absent query value is "". */
  function SearchDonors(env: Env, bloodType: string, organType: string): (h: Handled)
    ensures ReadPolicy(env, h)
    ensures !Serves(env, 1) ==> h.response.body == MockDonorList(DonorFallback(env.fixtures.donors, bloodType, organType))
    ensures Serves(env, 1) ==> h.response.body.DonorList?
    ensures Serves(env, 1) ==> Selected(h.response.body.donors, env.db.donors,
                                        SearchCondition(bloodType, organType), ByDonorRecency)
  {
    ServedCalls(env);
    var r := Attempt(env, 0, SearchOrganDonors(env.db, bloodType, organType));
    if r.Success? then
      SearchIsOneCondition(env.db, bloodType, organType);
      Handled(env.db, Response(200, DonorList(r.value)), [])
    else
      Handled(env.db, Response(200, MockDonorList(DonorFallback(env.fixtures.donors, bloodType, organType))), [])
  }

  /** The handler as written: `bloodType` and `organType` are declared
      inside the `try` block, so the `catch` block's first reference to
      `bloodType` throws a ReferenceError and the fallback is never sent. */
  function SearchDonorsAsWritten(env: Env, bloodType: string, organType: string): (o: Outcome)
    ensures Serves(env, 1) ==> o == Responded(SearchDonors(env, bloodType, organType))
    ensures !Serves(env, 1) ==> o.Threw? && o.db == env.db
  {
    ServedCalls(env);
    var r := Attempt(env, 0, SearchOrganDonors(env.db, bloodType, organType));
    if r.Success? then Responded(Handled(env.db, Response(200, DonorList(r.value)), []))
    else Threw(env.db, "ReferenceError: bloodType is not defined")
  }

  /** Without a database every donor search, as written, ends in a thrown
      error instead of the mock donors the corrected handler returns. */
  lemma DonorFallbackNeverSent(db: Db, bloodType: string, organType: string)
    requires !db.available
    ensures SearchDonorsAsWritten(Env(db, {}, ServerFixtures), bloodType, organType).Threw?
    ensures SearchDonors(Env(db, {}, ServerFixtures), bloodType, organType).response ==
              Response(200, MockDonorList(DonorFallback(MockDonors, bloodType, organType)))
  {
  }

  // ---------------------------------------------------------------------
  // GET /api/alerts and /api/alerts/unread
  // ---------------------------------------------------------------------

  function ListAlerts(env: Env): (h: Handled)
    ensures ReadPolicy(env, h)
    ensures !Serves(env, 1) ==> h.response.body == MockAlertList(env.fixtures.alerts)
    ensures Serves(env, 1) ==> h.response.body.AlertList?
    ensures Serves(env, 1) ==> multiset(h.response.body.alerts) == multiset(env.db.alerts)
                               && SortedBy(h.response.body.alerts, ByAlertRecency)
  {
    ServedCalls(env);
    var r := Attempt(env, 0, GetAllAlerts(env.db));
    var body := if r.Success? then AlertList(r.value) else MockAlertList(env.fixtures.alerts);
    Handled(env.db, Response(200, body), [])
  }

  function UnreadAlertsHandler(env: Env): (h: Handled)
    ensures ReadPolicy(env, h)
    ensures !Serves(env, 1) ==> h.response.body == MockAlertList(UnreadAlerts(env.fixtures.alerts))
    ensures Serves(env, 1) ==> h.response.body.AlertList?
    ensures Serves(env, 1) ==> Selected(h.response.body.alerts, env.db.alerts, IsUnread(), ByAlertRecency)
  {
    ServedCalls(env);
    var r := Attempt(env, 0, GetUnreadAlerts(env.db));
    var body := if r.Success? then AlertList(r.value) else MockAlertList(UnreadAlerts(env.fixtures.alerts));
    Handled(env.db, Response(200, body), [])
  }
}
