/**
 * The rows of the hospital database, abbreviated to the columns the
 * storage layer filters, orders or updates on, and the store that holds
 * them: one sequence per table plus whether a connection exists at all.
 */
module Schema {
  import opened Outcomes

  /** Primary and foreign keys are text columns. */
  type Id = string

  /** Instants as milliseconds since the epoch. */
  type Timestamp = int

  datatype User = User(id: Id, username: string)

  datatype Doctor = Doctor(
    id: Id,
    userId: Id,
    specialization: string,
    department: string,
    available: bool)

  datatype Patient = Patient(
    id: Id,
    firstName: string,
    lastName: string,
    bloodType: string,
    medicalHistory: string)

  /** The columns `updatePatient` may overwrite; `None` leaves one as it is. */
  datatype PatientPatch = PatientPatch(
    firstName: Option<string>,
    lastName: Option<string>,
    bloodType: Option<string>,
    medicalHistory: Option<string>)

  datatype Ward = Ward(id: Id, name: string, department: string, totalBeds: int)

  /** `status` is free text as far as the storage layer goes: the source
      casts whatever it is given. `patientId` is NULL for an empty bed. */
  datatype Bed = Bed(
    id: Id,
    wardId: Id,
    bedNumber: string,
    status: string,
    patientId: Option<Id>,
    lastUpdated: Timestamp)

  datatype Appointment = Appointment(
    id: Id,
    patientId: Id,
    doctorId: Id,
    appointmentDate: Timestamp,
    status: string)

  datatype OrganDonor = OrganDonor(
    id: Id,
    bloodType: string,
    organType: string,
    status: string,
    lastUpdated: Timestamp)

  datatype Alert = Alert(
    id: Id,
    message: string,
    severity: string,
    isRead: bool,
    createdAt: Timestamp)

  datatype ChatMessage = ChatMessage(
    id: Id,
    sessionId: string,
    message: string,
    isUser: bool,
    timestamp: Timestamp)

  /** A row of the bed/ward inner join. */
  datatype BedWithWard = BedWithWard(bed: Bed, ward: Ward)

  /** A row of the appointment/patient/doctor inner join. */
  datatype AppointmentWithDetails = AppointmentWithDetails(
    appointment: Appointment,
    patient: Patient,
    doctor: Doctor)

  /** The database as the server sees it. `available` is whether a
      connection handle was built at start-up (a connection string was set). */
  datatype Db = Db(
    available: bool,
    users: seq<User>,
    doctors: seq<Doctor>,
    patients: seq<Patient>,
    wards: seq<Ward>,
    beds: seq<Bed>,
    appointments: seq<Appointment>,
    donors: seq<OrganDonor>,
    alerts: seq<Alert>,
    chats: seq<ChatMessage>)

  /** The local midnights that begin a calendar day and the day after it. */
  datatype DayWindow = DayWindow(start: Timestamp, nextStart: Timestamp)
}
