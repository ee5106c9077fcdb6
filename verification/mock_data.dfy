/**
 * The fixed records the request handlers serve when storage fails, and the
 * filters the handlers apply to them: doctors by department, beds by ward,
 * donors by blood and organ type, and unread alerts. Every filter keeps the
 * matching records in their original order.
 */
module MockData {
  import opened Outcomes
  import opened Text
  import opened Ordering

  datatype MockPatient = MockPatient(id: int, name: string, age: int, condition: string, room: string)
  datatype MockDoctor = MockDoctor(id: int, name: string, specialty: string, available: bool)
  /** `kind` is the record's `type` field. */
  datatype MockBed = MockBed(id: int, number: string, status: string, kind: string, wardId: int)
  datatype MockAppointment = MockAppointment(
    id: int, patientName: string, doctor: string, date: string, time: string, status: string)
  datatype MockDonor = MockDonor(id: int, name: string, bloodType: string, organs: seq<string>, status: string)
  datatype MockWard = MockWard(id: int, name: string, capacity: int, occupied: int)
  /** `kind` is the record's `type` field. */
  datatype MockAlert = MockAlert(id: int, message: string, kind: string, read: bool)

  const MockPatients: seq<MockPatient> := [
    MockPatient(1, "John Doe", 45, "Stable", "101"),
    MockPatient(2, "Jane Smith", 32, "Recovering", "102"),
    MockPatient(3, "Mike Johnson", 68, "Critical", "ICU-1")
  ]

  const MockDoctors: seq<MockDoctor> := [
    MockDoctor(1, "Dr. Sarah Wilson", "Cardiology", true),
    MockDoctor(2, "Dr. Alex Chen", "Neurology", true),
    MockDoctor(3, "Dr. Maria Garcia", "Pediatrics", false)
  ]

  const MockBeds: seq<MockBed> := [
    MockBed(1, "101", "available", "General", 1),
    MockBed(2, "102", "occupied", "General", 1),
    MockBed(3, "ICU-1", "occupied", "ICU", 2),
    MockBed(4, "ICU-2", "available", "ICU", 2)
  ]

  const MockAppointments: seq<MockAppointment> := [
    MockAppointment(1, "John Doe", "Dr. Sarah Wilson", "2024-01-15", "10:00 AM", "scheduled"),
    MockAppointment(2, "Jane Smith", "Dr. Alex Chen", "2024-01-15", "11:30 AM", "scheduled")
  ]

  const MockDonors: seq<MockDonor> := [
    MockDonor(1, "Robert Brown", "O+", ["Kidney"], "Available"),
    MockDonor(2, "Lisa Wang", "A-", ["Liver", "Cornea"], "Pending")
  ]

  const MockWards: seq<MockWard> := [
    MockWard(1, "General Ward", 20, 15),
    MockWard(2, "ICU", 8, 6),
    MockWard(3, "Pediatrics", 12, 8)
  ]

  const MockAlerts: seq<MockAlert> := [
    MockAlert(1, "Patient in room 102 needs attention", "warning", false),
    MockAlert(2, "ICU bed available", "info", true)
  ]

  /** The complete set of fallback records. */
  datatype Fixtures = Fixtures(
    patients: seq<MockPatient>,
    doctors: seq<MockDoctor>,
    beds: seq<MockBed>,
    appointments: seq<MockAppointment>,
    donors: seq<MockDonor>,
    wards: seq<MockWard>,
    alerts: seq<MockAlert>)

  /** The records the server falls back on. */
  const ServerFixtures: Fixtures :=
    Fixtures(MockPatients, MockDoctors, MockBeds, MockAppointments, MockDonors, MockWards, MockAlerts)

  // ---------------------------------------------------------------------
  // Doctors by department
  // ---------------------------------------------------------------------

  /** `d.specialty.toLowerCase().includes(department.toLowerCase())`. */
  function SpecialtyMatches(department: string): MockDoctor -> bool
  {
    (d: MockDoctor) => Contains(Lower(d.specialty), Lower(department))
  }

  function DoctorsInDepartment(doctors: seq<MockDoctor>, department: string): (r: seq<MockDoctor>)
    ensures forall d :: multiset(r)[d] ==
              if exists i :: OccursAt(Lower(d.specialty), Lower(department), i) then multiset(doctors)[d] else 0
  {
    var r := Filter(doctors, SpecialtyMatches(department));
    forall d ensures SpecialtyMatches(department)(d) <==> exists i :: OccursAt(Lower(d.specialty), Lower(department), i) {
      ContainsIffOccursAt(Lower(d.specialty), Lower(department));
    }
    r
  }

  lemma DoctorsInDepartmentKeepOrder(doctors: seq<MockDoctor>, department: string)
    ensures IsSubsequence(DoctorsInDepartment(doctors, department), doctors)
  {
    FilterIsSubsequence(doctors, SpecialtyMatches(department));
  }

  /** The department is matched without regard to case. */
  lemma DepartmentIgnoresCase(doctors: seq<MockDoctor>, department: string)
    ensures DoctorsInDepartment(doctors, Lower(department)) == DoctorsInDepartment(doctors, department)
  {
    LowerIdempotent(department);
    FilterCongruent(doctors, SpecialtyMatches(Lower(department)), SpecialtyMatches(department));
  }

  /** The empty department occurs in every specialty, so it keeps every doctor. */
  lemma EmptyDepartmentKeepsAll(doctors: seq<MockDoctor>)
    ensures DoctorsInDepartment(doctors, "") == doctors
  {
    assert Lower("") == "";
    forall i | 0 <= i < |doctors| ensures SpecialtyMatches("")(doctors[i]) {
      assert StartsWith(Lower(doctors[i].specialty), "");
    }
    FilterKeepsAll(doctors, SpecialtyMatches(""));
  }

  // ---------------------------------------------------------------------
  // Beds by ward
  // ---------------------------------------------------------------------

  /** `bed.wardId === parseInt(wardId)`: NaN and the infinities equal no
      ward. */
  function WardIdMatches(wardId: string): MockBed -> bool
  {
    (b: MockBed) => ParseInt(wardId) == Finite(b.wardId)
  }

  function BedsInWard(beds: seq<MockBed>, wardId: string): (r: seq<MockBed>)
    ensures !ParseInt(wardId).Finite? ==> r == []
    ensures ParseInt(wardId).Finite? ==>
              forall b :: multiset(r)[b] == if b.wardId == ParseInt(wardId).value then multiset(beds)[b] else 0
  {
    var r := Filter(beds, WardIdMatches(wardId));
    if !ParseInt(wardId).Finite? then
      FilterKeepsNone(beds, WardIdMatches(wardId));
      r
    else
      r
  }

  lemma BedsInWardKeepOrder(beds: seq<MockBed>, wardId: string)
    ensures IsSubsequence(BedsInWard(beds, wardId), beds)
  {
    FilterIsSubsequence(beds, WardIdMatches(wardId));
  }

  /** A ward id written in decimal selects the beds of the ward its Number
      value names: exactly ward `n` up to 2^53 in magnitude. */
  lemma BedsInWardOfDecimal(beds: seq<MockBed>, n: int)
    ensures forall b :: multiset(BedsInWard(beds, Decimal(n)))[b] ==
              if ToNumber(n) == Finite(b.wardId) then multiset(beds)[b] else 0
    ensures -TwoTo53 <= n <= TwoTo53 ==>
              forall b :: multiset(BedsInWard(beds, Decimal(n)))[b] == if b.wardId == n then multiset(beds)[b] else 0
  {
    ParseIntDecimal(n);
  }

  /** Past 2^53 two numerals can name one ward: "9007199254740993" selects
      a bed of ward 9007199254740992. */
  lemma BedsInWardPastTwoTo53(b: MockBed)
    requires b.wardId == TwoTo53
    ensures BedsInWard([b], Decimal(TwoTo53 + 1)) == [b]
  {
    ParseIntRoundsPastTwoTo53();
    BedsInWardOfNumber([b], Decimal(TwoTo53 + 1), TwoTo53);
    FilterKeepsAll([b], WardNumberIs(TwoTo53));
  }

  /** A ward id that does not start with a number selects no bed. */
  lemma BedsInWardOfWord()
    ensures BedsInWard(MockBeds, "ward") == []
  {
    ParseIntOfWordIsNaN();
  }

  lemma ParseIntOfTwo()
    ensures ParseInt("2") == Finite(2)
  {
    ParseIntDecimal(2);
    assert Digits(2) == "2";
    assert Decimal(2) == "2";
  }

  function WardNumberIs(n: int): MockBed -> bool { (b: MockBed) => b.wardId == n }

  /** A ward id that parses to `n` keeps the beds of ward `n`, in order. */
  lemma BedsInWardOfNumber(beds: seq<MockBed>, wardId: string, n: int)
    requires ParseInt(wardId) == Finite(n)
    ensures BedsInWard(beds, wardId) == Filter(beds, WardNumberIs(n))
  {
    FilterCongruent(beds, WardIdMatches(wardId), WardNumberIs(n));
  }

  /** Ward "2" holds the two ICU beds. */
  lemma BedsInWardTwo()
    ensures BedsInWard(MockBeds, "2") == MockBeds[2..]
  {
    ParseIntOfTwo();
    BedsInWardOfNumber(MockBeds, "2", 2);
    MockBedsOfWardTwo();
  }

  lemma MockBedsOfWardTwo()
    ensures Filter(MockBeds, WardNumberIs(2)) == MockBeds[2..]
  {
    FilterKeepsAll(MockBeds[2..], WardNumberIs(2));
    assert MockBeds[1..][1..] == MockBeds[2..];
  }

  // ---------------------------------------------------------------------
  // Organ donors
  // ---------------------------------------------------------------------

  function BloodTypeIs(bloodType: string): MockDonor -> bool
  {
    (d: MockDonor) => d.bloodType == bloodType
  }

  /** Some organ of the donor contains the organ type, ignoring case. */
  predicate HasOrganLike(d: MockDonor, organType: string)
  {
    exists i :: 0 <= i < |d.organs| && Contains(Lower(d.organs[i]), Lower(organType))
  }

  function OrganLike(organType: string): MockDonor -> bool
  {
    (d: MockDonor) => HasOrganLike(d, organType)
  }

  /** The donor fallback: an exact blood-type filter when a blood type is
      given, then a case-insensitive organ filter when an organ type is
      given; an empty value counts as not given. */
  function DonorFallback(donors: seq<MockDonor>, bloodType: string, organType: string): (r: seq<MockDonor>)
    ensures forall d :: multiset(r)[d] ==
              if (bloodType == "" || d.bloodType == bloodType) && (organType == "" || HasOrganLike(d, organType))
              then multiset(donors)[d] else 0
  {
    var byBlood := if bloodType != "" then Filter(donors, BloodTypeIs(bloodType)) else donors;
    if organType == "" then byBlood else Filter(byBlood, OrganLike(organType))
  }

  /** Both filters keep the surviving donors in their original order. */
  lemma DonorFallbackKeepsOrder(donors: seq<MockDonor>, bloodType: string, organType: string)
    ensures IsSubsequence(DonorFallback(donors, bloodType, organType), donors)
  {
    var byBlood := if bloodType != "" then Filter(donors, BloodTypeIs(bloodType)) else donors;
    if bloodType != "" {
      FilterIsSubsequence(donors, BloodTypeIs(bloodType));
    } else {
      SubsequenceReflexive(donors);
    }
    if organType != "" {
      FilterIsSubsequence(byBlood, OrganLike(organType));
      SubsequenceTransitive(Filter(byBlood, OrganLike(organType)), byBlood, donors);
    }
  }

  /** The organ type is matched without regard to case. */
  lemma OrganTypeIgnoresCase(donors: seq<MockDonor>, bloodType: string, organType: string)
    ensures DonorFallback(donors, bloodType, Lower(organType)) == DonorFallback(donors, bloodType, organType)
  {
    LowerIdempotent(organType);
    assert Lower(organType) == "" <==> organType == "";
    var byBlood := if bloodType != "" then Filter(donors, BloodTypeIs(bloodType)) else donors;
    FilterCongruent(byBlood, OrganLike(Lower(organType)), OrganLike(organType));
  }

  /** Only the first mock donor has blood type O+. */
  lemma DonorFallbackByBloodType()
    ensures DonorFallback(MockDonors, "O+", "") == [MockDonors[0]]
  {
    assert MockDonors[1..][1..] == [];
  }

  /** "liv" finds the liver donor whatever the case of the stored organ. */
  lemma DonorFallbackByOrganPart()
    ensures DonorFallback(MockDonors, "", "liv") == [MockDonors[1]]
  {
    var kidney, liver := MockDonors[0], MockDonors[1];
    assert Lower("liv") == "liv";
    assert Lower("Liver") == "liver";
    assert Lower("Liver")[..3] == "liv";
    assert HasOrganLike(liver, "liv") by {
      assert StartsWith(Lower(liver.organs[0]), "liv");
    }
    assert !HasOrganLike(kidney, "liv") by {
      var k := Lower("Kidney");
      assert k == "kidney";
      forall i ensures !OccursAt(k, "liv", i) {
        if 0 <= i <= |k| - 3 {
          assert k[i] != 'l';
          assert k[i..i + 3][0] == k[i];
        }
      }
      ContainsIffOccursAt(k, "liv");
    }
    assert MockDonors[1..][1..] == [];
  }

  // ---------------------------------------------------------------------
  // Unread alerts
  // ---------------------------------------------------------------------

  function NotRead(): MockAlert -> bool { (a: MockAlert) => !a.read }

  function UnreadAlerts(alerts: seq<MockAlert>): (r: seq<MockAlert>)
    ensures forall a :: multiset(r)[a] == if a.read then 0 else multiset(alerts)[a]
  {
    Filter(alerts, NotRead())
  }

  lemma UnreadAlertsKeepOrder(alerts: seq<MockAlert>)
    ensures IsSubsequence(UnreadAlerts(alerts), alerts)
  {
    FilterIsSubsequence(alerts, NotRead());
  }

  /** Of the two mock alerts only the first is unread. */
  lemma UnreadMockAlertsIsFirst()
    ensures UnreadAlerts(MockAlerts) == [MockAlerts[0]]
  {
    assert MockAlerts[1..][1..] == [];
  }
}
