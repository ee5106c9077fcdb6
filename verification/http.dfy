/**
 * What a request handler sees and produces.
 *
 * A handler runs against an `Env`: the store, the positions (counted
 * from 0 within the request) of the storage calls that the database
 * rejects, and the fallback records. It answers with a status and a body, leaves the store in some
 * state, and hands the broadcaster a list of events. JSON rendering is not
 * modelled: a body is the value the handler passes to `res.json`.
 */
module Http {
  import opened Outcomes
  import opened Schema
  import opened Storage
  import opened MockData

  /** `fixtures` are the records the read endpoints fall back on; the
      server's are `ServerFixtures`. */
  datatype Env = Env(db: Db, faults: set<nat>, fixtures: Fixtures)

  /** The reply of the AI service to a chat message. */
  datatype AiResponse = AiResponse(message: string, suggestions: seq<string>)

  datatype SymptomAnalysis = SymptomAnalysis(diagnosis: string, recommendations: seq<string>, urgency: string)

  datatype Body =
    | Stats(availableBeds: nat, todayAppointments: nat, activeDonors: nat, emergencyCases: nat)
    | BedList(beds: seq<Bed>)
    | BedWardList(rows: seq<BedWithWard>)
    | MockBedList(mockBeds: seq<MockBed>)
    | WardList(wards: seq<Ward>)
    | MockWardList(mockWards: seq<MockWard>)
    | AppointmentList(appointments: seq<Appointment>)
    | AppointmentDetailList(details: seq<AppointmentWithDetails>)
    | MockAppointmentList(mockAppointments: seq<MockAppointment>)
    | AppointmentRecord(appointment: Appointment)
    | DoctorList(doctors: seq<Doctor>)
    | MockDoctorList(mockDoctors: seq<MockDoctor>)
    | PatientList(patients: seq<Patient>)
    | MockPatientList(mockPatients: seq<MockPatient>)
    | PatientRecord(patient: Patient)
    | DonorList(donors: seq<OrganDonor>)
    | MockDonorList(mockDonors: seq<MockDonor>)
    | DonorRecord(donor: OrganDonor)
    | AlertList(alerts: seq<Alert>)
    | MockAlertList(mockAlerts: seq<MockAlert>)
    | ChatHistory(messages: seq<ChatMessage>)
    | AiReply(reply: AiResponse)
    | CannedReply(text: string, timestamp: Timestamp)
    | Analysis(analysis: SymptomAnalysis)
    | Acknowledged            // `{ success: true }`
    | Failed(message: string) // `{ message: ... }` with an error status

  datatype Response = Response(status: nat, body: Body)

  /** The `data` of a broadcast `{ type, data }` message. */
  datatype Payload =
    | BedPayload(bed: Option<Bed>)   // `undefined` when no bed has the id
    | AppointmentPayload(appointment: Appointment)
    | DonorPayload(donor: OrganDonor)

  datatype Event = Event(kind: string, data: Payload)

  /** The store after the request, the response, and the events broadcast. */
  datatype Handled = Handled(db: Db, response: Response, events: seq<Event>)

  /** A handler that answers, or one whose error handler itself throws and
      so never produces its fallback response. */
  datatype Outcome = Responded(handled: Handled) | Threw(db: Db, error: string)

  /** The storage call at position `i`: a result the database rejects
      becomes `QueryFailed`. */
  function Attempt<T>(env: Env, i: nat, r: Result<T, StorageError>): (a: Result<T, StorageError>)
    ensures a.Success? <==> r.Success? && i !in env.faults
    ensures a.Success? ==> a == r
  {
    if r.Success? && i in env.faults then Failure(QueryFailed) else r
  }

  /** The mutating storage call at position `i`: a rejected statement
      leaves the store as it was before the call. */
  function AttemptWrite<T>(env: Env, i: nat, before: Db, w: Write<T>): (a: Write<T>)
    ensures a.result.Success? <==> w.result.Success? && i !in env.faults
    ensures a.result.Success? ==> a == w
    ensures a.result.Failure? && w.result.Success? ==> a.db == before
    ensures w.result.Failure? ==> a == w
  {
    if w.result.Success? && i in env.faults then Write(before, Failure(QueryFailed)) else w
  }

  /** The read endpoints' policy: always 200, nothing written, nothing broadcast. */
  ghost predicate ReadPolicy(env: Env, h: Handled)
  {
    h.db == env.db && h.events == [] && h.response.status == 200
  }

  /** The write endpoints' policy: the success status or the failure status;
      a failure carries its message and broadcasts nothing. */
  ghost predicate WritePolicy(h: Handled, ok: nat, failure: nat, message: string)
  {
    && (h.response.status == ok || h.response.status == failure)
    && (h.response.status == failure ==> h.response.body == Failed(message) && h.events == [])
  }

  /** The storage calls at positions `0 .. n-1` all pass. */
  ghost predicate Serves(env: Env, n: nat)
  {
    env.db.available && forall i :: 0 <= i < n ==> i !in env.faults
  }

  /** `Serves` spelled out for the handlers' call counts. */
  lemma ServedCalls(env: Env)
    ensures Serves(env, 1) <==> env.db.available && 0 !in env.faults
    ensures Serves(env, 2) <==> env.db.available && 0 !in env.faults && 1 !in env.faults
    ensures Serves(env, 4) <==> env.db.available && 0 !in env.faults && 1 !in env.faults && 2 !in env.faults && 3 !in env.faults
  {
  }
}
