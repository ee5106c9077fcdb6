/**
 * The mutating endpoints. Each one answers with its success status or with
 * its own failure status and message; a failure broadcasts nothing. A
 * request body that fails schema validation is `None`: it is rejected
 * before storage is called. A statement the database rejects leaves the
 * store as it was, but a statement that ran stays committed even when a
 * later step of the same request fails.
 */
module WriteHandlers {
  import opened Outcomes
  import opened Schema
  import opened Storage
  import opened StorageFacts
  import opened Http

  const BedFailure: string := "Failed to update bed status"
  const AppointmentFailure: string := "Failed to create appointment"
  const AppointmentStatusFailure: string := "Failed to update appointment status"
  const PatientFailure: string := "Failed to create patient"
  const DonorFailure: string := "Failed to create organ donor"
  const AlertFailure: string := "Failed to mark alert as read"

  // ---------------------------------------------------------------------
  // PATCH /api/beds/:id/status
  // ---------------------------------------------------------------------

  /** Update the bed (call 0), read it back (call 1), broadcast what was
      read and acknowledge. An absent or empty `patientId` clears the bed. */
  function UpdateBedHandler(env: Env, id: Id, status: string, patientId: string, now: Timestamp): (h: Handled)
    ensures WritePolicy(h, 200, 500, BedFailure)
    ensures h.response.status == 200 <==> Serves(env, 2)
    ensures h.response.status == 200 ==> h.response.body == Acknowledged
    ensures Serves(env, 2) ==> h.db.available && h.events == [Event("bedStatusUpdate", BedPayload(GetBed(h.db, id).value))]
    ensures Serves(env, 1) ==> h.db == UpdateBedStatus(env.db, id, status, patientId, now).db
    ensures !Serves(env, 1) ==> h.db == env.db
  {
    ServedCalls(env);
    var w := AttemptWrite(env, 0, env.db, UpdateBedStatus(env.db, id, status, patientId, now));
    if w.result.Failure? then Handled(w.db, Response(500, Failed(BedFailure)), [])
    else
      var found := Attempt(env, 1, GetBed(w.db, id));
      if found.Failure? then Handled(w.db, Response(500, Failed(BedFailure)), [])
      else Handled(w.db, Response(200, Acknowledged), [Event("bedStatusUpdate", BedPayload(found.value))])
  }

  /** A served update of an existing bed broadcasts that bed with the new
      status, patient and time, and the bed is listed under the new status. */
  lemma UpdateBedBroadcastsNewState(env: Env, id: Id, status: string, patientId: string, now: Timestamp)
    requires Serves(env, 2)
    requires exists i :: 0 <= i < |env.db.beds| && env.db.beds[i].id == id
    ensures var h := UpdateBedHandler(env, id, status, patientId, now);
            && |h.events| == 1
            && h.events[0].data.bed.Some?
            && h.events[0].data.bed.value.status == status
            && h.events[0].data.bed.value.patientId == PatientRef(patientId)
            && h.events[0].data.bed.value.lastUpdated == now
            && h.events[0].data.bed.value in GetBedsByStatus(h.db, status).value
  {
    UpdatedBedIsListedUnderNewStatus(env.db, id, status, patientId, now);
  }

  /** When the read-back fails, the client is told the update failed
      although the new status is committed. */
  lemma FailedReadBackKeepsUpdate(db: Db, id: Id, status: string, patientId: string, now: Timestamp)
    requires db.available
    requires exists i :: 0 <= i < |db.beds| && db.beds[i].id == id
    ensures var h := UpdateBedHandler(Env(db, {1}, MockData.ServerFixtures), id, status, patientId, now);
            && h.response == Response(500, Failed(BedFailure))
            && h.events == []
            && GetBed(h.db, id).value.Some?
            && GetBed(h.db, id).value.value.status == status
  {
    var env := Env(db, {1}, MockData.ServerFixtures);
    ServedCalls(env);
    var after := UpdateBedStatus(db, id, status, patientId, now).db;
    assert UpdateBedHandler(env, id, status, patientId, now).db == after;
    UpdatedBedRows(db, id, status, patientId, now);
    var k :| 0 <= k < |db.beds| && db.beds[k].id == id;
    assert after.beds[k].id == id;
  }

  // ---------------------------------------------------------------------
  // POST /api/appointments
  // ---------------------------------------------------------------------

  /** Validate (`parsed`), insert (call 0), broadcast the new row and
      answer 201 with it. */
  function CreateAppointmentHandler(env: Env, parsed: Option<Appointment>): (h: Handled)
    ensures WritePolicy(h, 201, 400, AppointmentFailure)
    ensures h.response.status == 201 <==>
              parsed.Some? && Serves(env, 1) && !(exists a :: a in env.db.appointments && a.id == parsed.value.id)
    ensures h.response.status == 201 ==>
              && h.db == env.db.(appointments := env.db.appointments + [parsed.value])
              && h.response.body == AppointmentRecord(parsed.value)
              && h.events == [Event("newAppointment", AppointmentPayload(parsed.value))]
    ensures h.response.status == 400 ==> h.db == env.db
  {
    ServedCalls(env);
    if parsed.None? then Handled(env.db, Response(400, Failed(AppointmentFailure)), [])
    else
      var w := AttemptWrite(env, 0, env.db, CreateAppointment(env.db, parsed.value));
      if w.result.Failure? then Handled(w.db, Response(400, Failed(AppointmentFailure)), [])
      else
        var a := w.result.value;
        Handled(w.db, Response(201, AppointmentRecord(a)), [Event("newAppointment", AppointmentPayload(a))])
  }

  /** An appointment the endpoint created is then found by its id. */
  lemma CreatedAppointmentIsServed(env: Env, a: Appointment)
    requires CreateAppointmentHandler(env, Some(a)).response.status == 201
    ensures GetAppointment(CreateAppointmentHandler(env, Some(a)).db, a.id) == Success(Some(a))
  {
    ServedCalls(env);
    forall i | 0 <= i < |env.db.appointments| ensures env.db.appointments[i].id != a.id {
      assert env.db.appointments[i] in env.db.appointments;
    }
    CreatedAppointmentIsFound(env.db, a);
  }

  // ---------------------------------------------------------------------
  // PATCH /api/appointments/:id/status
  // ---------------------------------------------------------------------

  function UpdateAppointmentStatusHandler(env: Env, id: Id, status: string): (h: Handled)
    ensures WritePolicy(h, 200, 500, AppointmentStatusFailure)
    ensures h.events == []
    ensures h.response.status == 200 <==> Serves(env, 1)
    ensures h.response.status == 200 ==> h.response.body == Acknowledged
    ensures h.response.status == 500 ==> h.db == env.db
    ensures h.response.status == 200 ==>
              && h.db == env.db.(appointments := h.db.appointments)
              && |h.db.appointments| == |env.db.appointments|
              && forall i :: 0 <= i < |env.db.appointments| ==>
                   h.db.appointments[i] == if env.db.appointments[i].id == id
                                           then env.db.appointments[i].(status := status)
                                           else env.db.appointments[i]
  {
    ServedCalls(env);
    var w := AttemptWrite(env, 0, env.db, UpdateAppointmentStatus(env.db, id, status));
    if w.result.Failure? then Handled(w.db, Response(500, Failed(AppointmentStatusFailure)), [])
    else Handled(w.db, Response(200, Acknowledged), [])
  }

  // ---------------------------------------------------------------------
  // POST /api/patients
  // ---------------------------------------------------------------------

  function CreatePatientHandler(env: Env, parsed: Option<Patient>): (h: Handled)
    ensures WritePolicy(h, 201, 400, PatientFailure)
    ensures h.events == []
    ensures h.response.status == 201 <==>
              parsed.Some? && Serves(env, 1) && !(exists p :: p in env.db.patients && p.id == parsed.value.id)
    ensures h.response.status == 201 ==>
              && h.db == env.db.(patients := env.db.patients + [parsed.value])
              && h.response.body == PatientRecord(parsed.value)
    ensures h.response.status == 400 ==> h.db == env.db
  {
    ServedCalls(env);
    if parsed.None? then Handled(env.db, Response(400, Failed(PatientFailure)), [])
    else
      var w := AttemptWrite(env, 0, env.db, CreatePatient(env.db, parsed.value));
      if w.result.Failure? then Handled(w.db, Response(400, Failed(PatientFailure)), [])
      else Handled(w.db, Response(201, PatientRecord(w.result.value)), [])
  }

  // ---------------------------------------------------------------------
  // POST /api/organ-donors
  // ---------------------------------------------------------------------

  function CreateDonorHandler(env: Env, parsed: Option<OrganDonor>): (h: Handled)
    ensures WritePolicy(h, 201, 400, DonorFailure)
    ensures h.response.status == 201 <==>
              parsed.Some? && Serves(env, 1) && !(exists d :: d in env.db.donors && d.id == parsed.value.id)
    ensures h.response.status == 201 ==>
              && h.db == env.db.(donors := env.db.donors + [parsed.value])
              && h.response.body == DonorRecord(parsed.value)
              && h.events == [Event("newDonor", DonorPayload(parsed.value))]
    ensures h.response.status == 400 ==> h.db == env.db
  {
    ServedCalls(env);
    if parsed.None? then Handled(env.db, Response(400, Failed(DonorFailure)), [])
    else
      var w := AttemptWrite(env, 0, env.db, CreateOrganDonor(env.db, parsed.value));
      if w.result.Failure? then Handled(w.db, Response(400, Failed(DonorFailure)), [])
      else
        var d := w.result.value;
        Handled(w.db, Response(201, DonorRecord(d)), [Event("newDonor", DonorPayload(d))])
  }

  /** A donor the endpoint created is then found by its id. */
  lemma CreatedDonorIsServed(env: Env, d: OrganDonor)
    requires CreateDonorHandler(env, Some(d)).response.status == 201
    ensures GetOrganDonor(CreateDonorHandler(env, Some(d)).db, d.id) == Success(Some(d))
  {
    ServedCalls(env);
    forall i | 0 <= i < |env.db.donors| ensures env.db.donors[i].id != d.id {
      assert env.db.donors[i] in env.db.donors;
    }
    CreatedDonorIsFound(env.db, d);
  }

  // ---------------------------------------------------------------------
  // PATCH /api/alerts/:id/read
  // ---------------------------------------------------------------------

  function MarkAlertReadHandler(env: Env, id: Id): (h: Handled)
    ensures WritePolicy(h, 200, 500, AlertFailure)
    ensures h.events == []
    ensures h.response.status == 200 <==> Serves(env, 1)
    ensures h.response.status == 200 ==> h.response.body == Acknowledged
    ensures h.response.status == 500 ==> h.db == env.db
    ensures h.response.status == 200 ==> h.db == MarkAlertAsRead(env.db, id).db
    ensures h.response.status == 200 ==> h.db.available && forall a :: a in GetUnreadAlerts(h.db).value ==> a.id != id
  {
    ServedCalls(env);
    var w := AttemptWrite(env, 0, env.db, MarkAlertAsRead(env.db, id));
    if w.result.Failure? then Handled(w.db, Response(500, Failed(AlertFailure)), [])
    else
      ReadAlertLeavesUnreadList(env.db, id);
      Handled(w.db, Response(200, Acknowledged), [])
  }

  /** Marking an alert read twice answers the same and stores the same as
      marking it once, whether or not storage serves the request. */
  lemma MarkAlertReadTwice(env: Env, id: Id)
    ensures var once := MarkAlertReadHandler(env, id);
            MarkAlertReadHandler(env.(db := once.db), id) == once
  {
    ServedCalls(env);
    MarkAlertAsReadIdempotent(env.db, id);
  }
}
