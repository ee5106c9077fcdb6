/**
 * Properties that relate several storage operations: how the bed queries
 * partition the bed table, what a bed or alert update makes the queries
 * return afterwards, how the donor search relates to the dedicated donor
 * queries, and what the day window of `getAppointmentsByDate` admits.
 */
module StorageFacts {
  import opened Outcomes
  import opened Ordering
  import opened Schema
  import opened Storage

  /** The beds of two different statuses are disjoint selections of the bed
      table; together they are every bed exactly when no bed has a third
      status. */
  lemma BedsByStatusPartition(db: Db, s1: string, s2: string)
    requires db.available && s1 != s2
    ensures var r1, r2, all := GetBedsByStatus(db, s1).value, GetBedsByStatus(db, s2).value, GetAllBeds(db).value;
            && (forall b :: b in r1 ==> b !in r2)
            && (forall b :: b in r1 || b in r2 ==> b in all)
            && |r1| + |r2| <= |all|
            && ((forall i :: 0 <= i < |db.beds| ==> db.beds[i].status in {s1, s2}) <==> |r1| + |r2| == |all|)
  {
    BedsByStatusMembers(db, s1, s2);
    BedsByStatusSizes(db, s1, s2);
  }

  lemma BedsByStatusMembers(db: Db, s1: string, s2: string)
    requires db.available && s1 != s2
    ensures var r1, r2, all := GetBedsByStatus(db, s1).value, GetBedsByStatus(db, s2).value, GetAllBeds(db).value;
            && (forall b :: b in r1 ==> b !in r2)
            && (forall b :: b in r1 || b in r2 ==> b in all)
  {
    var r1, r2, all := GetBedsByStatus(db, s1).value, GetBedsByStatus(db, s2).value, GetAllBeds(db).value;
    assert multiset(all) == multiset(db.beds);
    forall b | b in r1 ensures b !in r2 && b in all {
      SelectedRow(r1, db.beds, HasStatus(s1), b);
      assert multiset(all)[b] > 0;
    }
    forall b | b in r2 ensures b in all {
      SelectedRow(r2, db.beds, HasStatus(s2), b);
      assert multiset(all)[b] > 0;
    }
  }

  lemma BedsByStatusSizes(db: Db, s1: string, s2: string)
    requires db.available && s1 != s2
    ensures var r1, r2, all := GetBedsByStatus(db, s1).value, GetBedsByStatus(db, s2).value, GetAllBeds(db).value;
            && |r1| + |r2| <= |all|
            && ((forall i :: 0 <= i < |db.beds| ==> db.beds[i].status in {s1, s2}) <==> |r1| + |r2| == |all|)
  {
    var r1, r2, all := GetBedsByStatus(db, s1).value, GetBedsByStatus(db, s2).value, GetAllBeds(db).value;
    SelectsSize(r1, db.beds, HasStatus(s1));
    SelectsSize(r2, db.beds, HasStatus(s2));
    FilterDisjointSizes(db.beds, HasStatus(s1), HasStatus(s2));
    assert |all| == |multiset(all)| == |multiset(db.beds)| == |db.beds|;
  }

  /** Every bed row carrying the id has the new status, patient and time
      once `updateBedStatus` has run. */
  lemma UpdatedBedRows(db: Db, id: Id, status: string, patientId: string, now: Timestamp)
    requires db.available
    ensures forall x :: x in UpdateBedStatus(db, id, status, patientId, now).db.beds && x.id == id ==>
              x.status == status && x.patientId == PatientRef(patientId) && x.lastUpdated == now
  {
    var after := UpdateBedStatus(db, id, status, patientId, now).db;
    forall x | x in after.beds && x.id == id
      ensures x.status == status && x.patientId == PatientRef(patientId) && x.lastUpdated == now
    {
      var k :| 0 <= k < |after.beds| && after.beds[k] == x;
      assert db.beds[k].id == id;
    }
  }

  /** After `updateBedStatus`, the bed is found by id with the new status,
      patient and timestamp, and it is listed under the new status and
      under no other. */
  lemma UpdatedBedIsListedUnderNewStatus(db: Db, id: Id, status: string, patientId: string, now: Timestamp)
    requires db.available
    requires exists i :: 0 <= i < |db.beds| && db.beds[i].id == id
    ensures var after := UpdateBedStatus(db, id, status, patientId, now).db;
            var found := GetBed(after, id).value;
            && found.Some?
            && found.value.status == status
            && found.value.patientId == PatientRef(patientId)
            && found.value.lastUpdated == now
            && found.value in GetBedsByStatus(after, status).value
            && forall other :: other != status ==>
                 forall b :: b in GetBedsByStatus(after, other).value ==> b.id != id
  {
    var after := UpdateBedStatus(db, id, status, patientId, now).db;
    UpdatedBedRows(db, id, status, patientId, now);
    var k :| 0 <= k < |db.beds| && db.beds[k].id == id;
    assert after.beds[k].id == id;
    var found := GetBed(after, id).value;
    var b := found.value;
    RowSelected(GetBedsByStatus(after, status).value, after.beds, HasStatus(status), b);
    forall other, x | other != status && x in GetBedsByStatus(after, other).value
      ensures x.id != id
    {
      SelectedRow(GetBedsByStatus(after, other).value, after.beds, HasStatus(other), x);
    }
  }

  /** `markAlertAsRead` is idempotent: a second call changes nothing and
      succeeds again. */
  lemma MarkAlertAsReadIdempotent(db: Db, id: Id)
    ensures MarkAlertAsRead(MarkAlertAsRead(db, id).db, id) == MarkAlertAsRead(db, id)
  {
    if db.available {
      UpdateWhereTwice(db.alerts, AlertIdIs(id), (a: Alert) => a.(isRead := true));
    }
  }

  /** Every alert row carrying the id is read once `markAlertAsRead` has run. */
  lemma ReadAlertRows(db: Db, id: Id)
    requires db.available
    ensures forall x :: x in MarkAlertAsRead(db, id).db.alerts && x.id == id ==> x.isRead
  {
    var after := MarkAlertAsRead(db, id).db;
    forall x | x in after.alerts && x.id == id ensures x.isRead {
      var k :| 0 <= k < |after.alerts| && after.alerts[k] == x;
      assert db.alerts[k].id == id;
    }
  }

  /** After `markAlertAsRead(id)` no alert with that id is unread, and the
      unread list is otherwise as before. */
  lemma ReadAlertLeavesUnreadList(db: Db, id: Id)
    requires db.available
    ensures var before, after := GetUnreadAlerts(db).value, GetUnreadAlerts(MarkAlertAsRead(db, id).db).value;
            && (forall a :: a in after ==> a.id != id)
            && (forall a: Alert :: a.id != id ==> multiset(after)[a] == multiset(before)[a])
  {
    var w := MarkAlertAsRead(db, id).db;
    ReadAlertRows(db, id);
    var before, after := GetUnreadAlerts(db).value, GetUnreadAlerts(w).value;
    assert Selects(before, db.alerts, IsUnread());
    assert Selects(after, w.alerts, IsUnread());
    forall a | a in after ensures a.id != id {
      SelectedRow(after, w.alerts, IsUnread(), a);
    }
    forall a: Alert | a.id != id ensures multiset(after)[a] == multiset(before)[a] {
      UpdateWhereKeepsOthers(db.alerts, AlertIdIs(id), (x: Alert) => x.(isRead := true), a);
      assert multiset(w.alerts)[a] == multiset(db.alerts)[a];
    }
  }

  /** The search with one argument is the dedicated query for it; with
      none it is the full donor list; with both, every donor it returns is
      returned by each one-argument query. */
  lemma SearchMatchesDedicatedQueries(db: Db, bloodType: string, organType: string)
    requires db.available
    ensures bloodType != "" && organType == "" ==>
              SearchOrganDonors(db, bloodType, organType) == GetOrganDonorsByBloodType(db, bloodType)
    ensures bloodType == "" && organType != "" ==>
              SearchOrganDonors(db, bloodType, organType) == GetOrganDonorsByType(db, organType)
    ensures bloodType == "" && organType == "" ==>
              SearchOrganDonors(db, bloodType, organType) == GetAllOrganDonors(db)
    ensures bloodType != "" && organType != "" ==>
              forall d :: d in SearchOrganDonors(db, bloodType, organType).value ==>
                d in GetOrganDonorsByBloodType(db, bloodType).value && d in GetOrganDonorsByType(db, organType).value
  {
    if bloodType != "" && organType != "" {
      var both := SearchOrganDonors(db, bloodType, organType).value;
      forall d | d in both
        ensures d in GetOrganDonorsByBloodType(db, bloodType).value && d in GetOrganDonorsByType(db, organType).value
      {
        assert multiset(both)[d] > 0;
        assert multiset(GetOrganDonorsByBloodType(db, bloodType).value)[d] > 0;
        assert multiset(GetOrganDonorsByType(db, organType).value)[d] > 0;
      }
    }
  }

  /** Whatever branch it takes, the search is one query: the donors whose
      columns equal every given argument, latest update first. */
  lemma SearchIsOneCondition(db: Db, bloodType: string, organType: string)
    requires db.available
    ensures Selected(SearchOrganDonors(db, bloodType, organType).value, db.donors,
                     SearchCondition(bloodType, organType), ByDonorRecency)
  {
    var r := SearchOrganDonors(db, bloodType, organType).value;
    if bloodType == "" && organType == "" {
      assert forall x :: multiset(r)[x] == multiset(db.donors)[x];
    }
  }

  /** The day window is closed at both ends: an appointment at the midnight
      that ends one day is listed for that day and for the next. */
  lemma MidnightAppointmentListedTwice(db: Db, today: DayWindow, tomorrow: DayWindow, a: Appointment)
    requires db.available
    requires today.start <= today.nextStart == tomorrow.start <= tomorrow.nextStart
    requires a in db.appointments && a.appointmentDate == today.nextStart
    ensures a in GetAppointmentsByDate(db, today).value
    ensures a in GetAppointmentsByDate(db, tomorrow).value
  {
    assert multiset(db.appointments)[a] > 0;
    assert multiset(GetAppointmentsByDate(db, today).value)[a] > 0;
    assert multiset(GetAppointmentsByDate(db, tomorrow).value)[a] > 0;
  }

  /** The bed list with ward information holds exactly the beds whose ward
      exists, each paired with that ward. */
  lemma BedsWithWardInfoMembers(db: Db)
    requires db.available
    ensures forall p :: p in GetBedsWithWardInfo(db).value <==>
              p.bed in db.beds && p.ward in db.wards && p.bed.wardId == p.ward.id
  {
    var r := GetBedsWithWardInfo(db).value;
    forall p ensures p in r <==> p.bed in db.beds && p.ward in db.wards && p.bed.wardId == p.ward.id {
      var mb, mw := multiset(db.beds)[p.bed], multiset(db.wards)[p.ward];
      assert p in r <==> multiset(r)[p] > 0;
      assert p.bed in db.beds <==> mb > 0;
      assert p.ward in db.wards <==> mw > 0;
      ProductPositive(mb, mw);
    }
  }

  /** A donor whose status is updated at a time no earlier than any other
      update heads the donor list. */
  lemma UpdatedDonorHeadsList(db: Db, id: Id, status: string, now: Timestamp)
    requires db.available
    requires exists i :: 0 <= i < |db.donors| && db.donors[i].id == id
    requires forall i :: 0 <= i < |db.donors| ==> db.donors[i].lastUpdated <= now
    ensures var all := GetAllOrganDonors(UpdateOrganDonorStatus(db, id, status, now).db).value;
            |all| > 0 && all[0].lastUpdated == now
  {
    var after := UpdateOrganDonorStatus(db, id, status, now).db;
    var all := GetAllOrganDonors(after).value;
    var k :| 0 <= k < |db.donors| && db.donors[k].id == id;
    var d := after.donors[k];
    assert d.lastUpdated == now;
    assert d in multiset(after.donors);
    assert d in multiset(all);
    var j :| 0 <= j < |all| && all[j] == d;
    assert all[0] in multiset(all);
    assert all[0] in after.donors;
    var m :| 0 <= m < |after.donors| && after.donors[m] == all[0];
    assert all[0].lastUpdated <= now;
    if j > 0 {
      assert ByDonorRecency(all[0], all[j]);
    }
  }

  /** A created appointment is found by its id. */
  lemma CreatedAppointmentIsFound(db: Db, a: Appointment)
    requires db.available
    requires forall i :: 0 <= i < |db.appointments| ==> db.appointments[i].id != a.id
    ensures CreateAppointment(db, a).result == Success(a)
    ensures GetAppointment(CreateAppointment(db, a).db, a.id) == Success(Some(a))
  {
    FirstOfAppended(db.appointments, a, AppointmentIdIs(a.id));
  }

  /** A created donor is found by its id. */
  lemma CreatedDonorIsFound(db: Db, d: OrganDonor)
    requires db.available
    requires forall i :: 0 <= i < |db.donors| ==> db.donors[i].id != d.id
    ensures CreateOrganDonor(db, d).result == Success(d)
    ensures GetOrganDonor(CreateOrganDonor(db, d).db, d.id) == Success(Some(d))
  {
    FirstOfAppended(db.donors, d, DonorIdIs(d.id));
  }

  /** A saved chat message is listed in its session's history. */
  lemma SavedChatMessageIsListed(db: Db, m: ChatMessage)
    requires db.available
    requires forall i :: 0 <= i < |db.chats| ==> db.chats[i].id != m.id
    ensures m in GetChatMessages(CreateChatMessage(db, m).db, m.sessionId).value
  {
    var after := CreateChatMessage(db, m).db;
    assert after.chats == db.chats + [m];
    assert after.chats[|db.chats|] == m;
    assert multiset(after.chats)[m] > 0;
    assert multiset(GetChatMessages(after, m.sessionId).value)[m] > 0;
  }

  /** A created patient is found by its id. */
  lemma CreatedPatientIsFound(db: Db, p: Patient)
    requires db.available
    requires forall i :: 0 <= i < |db.patients| ==> db.patients[i].id != p.id
    ensures CreatePatient(db, p).result == Success(p)
    ensures GetPatient(CreatePatient(db, p).db, p.id) == Success(Some(p))
  {
    FirstOfAppended(db.patients, p, PatientIdIs(p.id));
  }

  /** A created doctor is found by its id. */
  lemma CreatedDoctorIsFound(db: Db, d: Doctor)
    requires db.available
    requires forall i :: 0 <= i < |db.doctors| ==> db.doctors[i].id != d.id
    ensures CreateDoctor(db, d).result == Success(d)
    ensures GetDoctor(CreateDoctor(db, d).db, d.id) == Success(Some(d))
  {
    FirstOfAppended(db.doctors, d, DoctorIdIs(d.id));
  }

  /** A created ward is found by its id. */
  lemma CreatedWardIsFound(db: Db, w: Ward)
    requires db.available
    requires forall i :: 0 <= i < |db.wards| ==> db.wards[i].id != w.id
    ensures CreateWard(db, w).result == Success(w)
    ensures GetWard(CreateWard(db, w).db, w.id) == Success(Some(w))
  {
    FirstOfAppended(db.wards, w, WardIdIs(w.id));
  }

  /** A created unread alert is found by its id and is listed as unread. */
  lemma CreatedAlertIsUnread(db: Db, a: Alert)
    requires db.available && !a.isRead
    requires forall i :: 0 <= i < |db.alerts| ==> db.alerts[i].id != a.id
    ensures GetAlert(CreateAlert(db, a).db, a.id) == Success(Some(a))
    ensures a in GetUnreadAlerts(CreateAlert(db, a).db).value
  {
    FirstOfAppended(db.alerts, a, AlertIdIs(a.id));
    var after := CreateAlert(db, a).db;
    assert after.alerts[|db.alerts|] == a;
    RowSelected(GetUnreadAlerts(after).value, after.alerts, IsUnread(), a);
  }

  /** Applying the same patch twice stores and returns the same as applying
      it once. */
  lemma UpdatePatientIdempotent(db: Db, id: Id, patch: PatientPatch)
    ensures UpdatePatient(UpdatePatient(db, id, patch).db, id, patch) == UpdatePatient(db, id, patch)
  {
    if db.available {
      UpdateWhereTwice(db.patients, PatientIdIs(id), (p: Patient) => Patched(p, patch));
    }
  }

  /** After `updateDoctorAvailability` the doctor is found with the new
      availability. */
  lemma UpdatedDoctorIsFound(db: Db, id: Id, available: bool)
    requires db.available
    requires exists i :: 0 <= i < |db.doctors| && db.doctors[i].id == id
    ensures var found := GetDoctor(UpdateDoctorAvailability(db, id, available).db, id).value;
            found.Some? && found.value.available == available
  {
    var after := UpdateDoctorAvailability(db, id, available).db;
    var k :| 0 <= k < |db.doctors| && db.doctors[k].id == id;
    assert after.doctors[k].id == id;
    var found := GetDoctor(after, id).value.value;
    var j :| 0 <= j < |after.doctors| && after.doctors[j] == found;
    assert db.doctors[j].id == id;
  }

  /** After `updateAppointmentStatus` the appointment is found with the new
      status. */
  lemma UpdatedAppointmentIsFound(db: Db, id: Id, status: string)
    requires db.available
    requires exists i :: 0 <= i < |db.appointments| && db.appointments[i].id == id
    ensures var found := GetAppointment(UpdateAppointmentStatus(db, id, status).db, id).value;
            found.Some? && found.value.status == status
  {
    var after := UpdateAppointmentStatus(db, id, status).db;
    var k :| 0 <= k < |db.appointments| && db.appointments[k].id == id;
    assert after.appointments[k].id == id;
    var found := GetAppointment(after, id).value.value;
    var j :| 0 <= j < |after.appointments| && after.appointments[j] == found;
    assert db.appointments[j].id == id;
  }

  /** The database search compares the organ type exactly: a donor of a
      "Kidney" is not found by a search for "kidney". */
  lemma SearchIsExactOnOrganType(db: Db, d: OrganDonor)
    requires db.available && db.donors == [d]
    requires d.bloodType == "O+" && d.organType == "Kidney"
    ensures SearchOrganDonors(db, "O+", "kidney").value == []
  {
    var r := SearchOrganDonors(db, "O+", "kidney").value;
    assert "kidney"[0] != "Kidney"[0];
    assert !OfBloodAndOrganType("O+", "kidney")(d);
    assert forall x :: multiset(r)[x] == 0;
    assert multiset(r) == multiset{};
  }
}
