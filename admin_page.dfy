/** The administration screen of app/admin/page.tsx: both rosters filtered
    by one search query, and the edit handlers that send an update for the
    selected record and replace it in the roster with the record returned. */
module AdminPage {
  import opened Common
  import opened Seqs
  import opened Types
  import opened Tables
  import StudentData
  import StaffMemberData

  // ---------------------------------------------------------------------
  // The search filters. Unlike the check-in screen, the query is neither
  // trimmed nor checked for blankness, so the empty query matches everything.

  /** One of name, email and country, lower-cased, contains the lower-cased query. */
  function StudentMatches(query: string): Staff -> bool {
    (s: Staff) =>
      Contains(ToLower(s.name), ToLower(query)) || Contains(ToLower(s.email), ToLower(query))
      || Contains(ToLower(s.country), ToLower(query))
  }

  function StaffMatches(query: string): StaffMember -> bool {
    (m: StaffMember) =>
      Contains(ToLower(m.name), ToLower(query)) || Contains(ToLower(m.email), ToLower(query))
      || Contains(ToLower(m.country), ToLower(query))
  }

  /** `filteredStudents`. */
  function FilterStudents(students: seq<Staff>, query: string): (r: seq<Staff>)
    ensures |r| <= |students|
  {
    Filter(StudentMatches(query), students)
  }

  /** `filteredStaff`. */
  function FilterStaff(staff: seq<StaffMember>, query: string): (r: seq<StaffMember>)
    ensures |r| <= |staff|
  {
    Filter(StaffMatches(query), staff)
  }

  /** The empty query keeps every record of both rosters. */
  lemma EmptyQueryKeepsAll(students: seq<Staff>, staff: seq<StaffMember>)
    ensures FilterStudents(students, "") == students
    ensures FilterStaff(staff, "") == staff
  {
    forall k | 0 <= k < |students|
      ensures StudentMatches("")(students[k])
    {
      ContainsEmpty(ToLower(students[k].name));
    }
    FilterAll(StudentMatches(""), students);
    forall k | 0 <= k < |staff|
      ensures StaffMatches("")(staff[k])
    {
      ContainsEmpty(ToLower(staff[k].name));
    }
    FilterAll(StaffMatches(""), staff);
  }

  /** A record is listed iff it is in the roster and matches the query. */
  lemma FilterMembershipBoth(students: seq<Staff>, staff: seq<StaffMember>, query: string,
                             s: Staff, m: StaffMember)
    ensures s in FilterStudents(students, query) <==> s in students && StudentMatches(query)(s)
    ensures m in FilterStaff(staff, query) <==> m in staff && StaffMatches(query)(m)
  {
    FilterMembership(StudentMatches(query), students, s);
    FilterMembership(StaffMatches(query), staff, m);
  }

  /** The filtered students keep roster order. */
  lemma FilterKeepsOrder(students: seq<Staff>, query: string, k1: nat, k2: nat)
    requires k1 < k2 < |FilterStudents(students, query)|
    ensures exists i1, i2 :: 0 <= i1 < i2 < |students|
              && students[i1] == FilterStudents(students, query)[k1]
              && students[i2] == FilterStudents(students, query)[k2]
  {
    FilterOrder(StudentMatches(query), students, k1, k2);
  }

  /** The filtered staff list keeps roster order too. */
  lemma FilterStaffKeepsOrder(staff: seq<StaffMember>, query: string, k1: nat, k2: nat)
    requires k1 < k2 < |FilterStaff(staff, query)|
    ensures exists i1, i2 :: 0 <= i1 < i2 < |staff|
              && staff[i1] == FilterStaff(staff, query)[k1]
              && staff[i2] == FilterStaff(staff, query)[k2]
  {
    FilterOrder(StaffMatches(query), staff, k1, k2);
  }

  // ---------------------------------------------------------------------
  // Replacing a record by id.

  /** `prev.map(s => s.id === id ? updated : s)`. */
  function ReplaceStudent(students: seq<Staff>, id: string, updated: Staff): (r: seq<Staff>)
    ensures |r| == |students|
  {
    Map((s: Staff) => if s.id == id then updated else s, students)
  }

  function ReplaceStaff(staff: seq<StaffMember>, id: string, updated: StaffMember): (r: seq<StaffMember>)
    ensures |r| == |staff|
  {
    Map((m: StaffMember) => if m.id == id then updated else m, staff)
  }

  /** When ids are distinct, only the one record with the id is replaced. */
  lemma ReplaceStudentOnly(students: seq<Staff>, id: string, updated: Staff, j: nat)
    requires DistinctBy((s: Staff) => s.id, students)
    requires j < |students| && students[j].id == id
    ensures ReplaceStudent(students, id, updated) == students[j := updated]
  {
    var r := ReplaceStudent(students, id, updated);
    forall k | 0 <= k < |students|
      ensures r[k] == students[j := updated][k]
    {
      if k < j {
        assert students[k].id != students[j].id;
      } else if k > j {
        assert students[j].id != students[k].id;
      }
    }
  }

  lemma ReplaceStaffOnly(staff: seq<StaffMember>, id: string, updated: StaffMember, j: nat)
    requires DistinctBy((m: StaffMember) => m.id, staff)
    requires j < |staff| && staff[j].id == id
    ensures ReplaceStaff(staff, id, updated) == staff[j := updated]
  {
    var r := ReplaceStaff(staff, id, updated);
    forall k | 0 <= k < |staff|
      ensures r[k] == staff[j := updated][k]
    {
      if k < j {
        assert staff[k].id != staff[j].id;
      } else if k > j {
        assert staff[j].id != staff[k].id;
      }
    }
  }

  /** A roster without the id is left as it was. */
  lemma ReplaceAbsentStudent(students: seq<Staff>, id: string, updated: Staff)
    requires forall k :: 0 <= k < |students| ==> students[k].id != id
    ensures ReplaceStudent(students, id, updated) == students
  {
    var r := ReplaceStudent(students, id, updated);
    assert forall k :: 0 <= k < |students| ==> r[k] == students[k];
  }

  /** Replacing with a record that keeps the id is idempotent. */
  lemma ReplaceStudentIdempotent(students: seq<Staff>, id: string, updated: Staff)
    requires updated.id == id
    ensures ReplaceStudent(ReplaceStudent(students, id, updated), id, updated)
            == ReplaceStudent(students, id, updated)
  {
    var r := ReplaceStudent(students, id, updated);
    var rr := ReplaceStudent(r, id, updated);
    assert forall k :: 0 <= k < |students| ==> rr[k] == r[k];
  }

  // ---------------------------------------------------------------------
  // The screen's state and its edit handlers.

  class Admin {
    var query: string
    var students: seq<Staff>
    var selectedStudent: Option<Staff>
    var studentModalOpen: bool
    var staffMembers: seq<StaffMember>
    var selectedStaffMember: Option<StaffMember>
    var staffModalOpen: bool

    constructor ()
      ensures query == "" && students == [] && staffMembers == []
      ensures selectedStudent == None && selectedStaffMember == None
      ensures !studentModalOpen && !staffModalOpen
    {
      query := "";
      students := [];
      selectedStudent := None;
      studentModalOpen := false;
      staffMembers := [];
      selectedStaffMember := None;
      staffModalOpen := false;
    }

    /** `loadData`: both rosters as the store returned them. */
    method Load(studentsData: seq<Staff>, staffData: seq<StaffMember>)
      modifies this
      ensures students == studentsData && staffMembers == staffData
      ensures query == old(query)
      ensures selectedStudent == old(selectedStudent) && studentModalOpen == old(studentModalOpen)
      ensures selectedStaffMember == old(selectedStaffMember) && staffModalOpen == old(staffModalOpen)
    {
      students := studentsData;
      staffMembers := staffData;
    }

    /** `handleStudentEdit`. */
    method EditStudent(s: Staff)
      modifies this
      ensures selectedStudent == Some(s) && studentModalOpen
      ensures query == old(query) && students == old(students) && staffMembers == old(staffMembers)
      ensures selectedStaffMember == old(selectedStaffMember) && staffModalOpen == old(staffModalOpen)
    {
      selectedStudent := Some(s);
      studentModalOpen := true;
    }

    /** `handleStaffEdit`. */
    method EditStaff(m: StaffMember)
      modifies this
      ensures selectedStaffMember == Some(m) && staffModalOpen
      ensures query == old(query) && students == old(students) && staffMembers == old(staffMembers)
      ensures selectedStudent == old(selectedStudent) && studentModalOpen == old(studentModalOpen)
    {
      selectedStaffMember := Some(m);
      staffModalOpen := true;
    }

    /** `handleStudentUpdate`: `stored` is the store's reply to the update
        of the selected student's row. */
    method StudentUpdate(updates: StaffUpdates, stored: Result<StudentRow>)
      modifies this
      requires selectedStudent.Some? && stored.Ok? ==> stored.value.id == selectedStudent.value.id
      requires StudentData.DatesFormatted(updates)
      ensures selectedStudent.Some? ==> old(selectedStudent).Some? && stored.Err?
      ensures old(selectedStudent).Some? && stored.Ok? ==>
                var sel := old(selectedStudent).value;
                students == ReplaceStudent(old(students), sel.id,
                                           StudentData.MergeTruthy(StudentData.RowToStaff(stored.value), updates))
                && !studentModalOpen && selectedStudent == None
      ensures old(selectedStudent) == None || stored.Err? ==>
                students == old(students) && studentModalOpen == old(studentModalOpen)
                && selectedStudent == old(selectedStudent)
      ensures query == old(query) && staffMembers == old(staffMembers)
      ensures selectedStaffMember == old(selectedStaffMember) && staffModalOpen == old(staffModalOpen)
    {
      if selectedStudent.Some? {
        var sel := selectedStudent.value;
        var updated := StudentData.UpdateStudent(sel.id, updates, stored);
        if updated.Some? {
          students := ReplaceStudent(students, sel.id, updated.value);
          studentModalOpen := false;
          selectedStudent := None;
        }
      }
    }

    /** `handleStaffUpdate`. */
    method StaffUpdate(updates: StaffMemberUpdates, stored: Result<StaffRow>)
      modifies this
      requires selectedStaffMember.Some? && stored.Ok? ==> stored.value.id == selectedStaffMember.value.id
      requires StaffMemberData.DatesFormatted(updates)
      ensures selectedStaffMember.Some? ==> old(selectedStaffMember).Some? && stored.Err?
      ensures old(selectedStaffMember).Some? && stored.Ok? ==>
                var sel := old(selectedStaffMember).value;
                staffMembers == ReplaceStaff(old(staffMembers), sel.id,
                                             StaffMemberData.MergeTruthy(StaffMemberData.RowToStaffMember(stored.value), updates))
                && !staffModalOpen && selectedStaffMember == None
      ensures old(selectedStaffMember) == None || stored.Err? ==>
                staffMembers == old(staffMembers) && staffModalOpen == old(staffModalOpen)
                && selectedStaffMember == old(selectedStaffMember)
      ensures query == old(query) && students == old(students)
      ensures selectedStudent == old(selectedStudent) && studentModalOpen == old(studentModalOpen)
    {
      if selectedStaffMember.Some? {
        var sel := selectedStaffMember.value;
        var updated := StaffMemberData.UpdateStaffMember(sel.id, updates, stored);
        if updated.Some? {
          staffMembers := ReplaceStaff(staffMembers, sel.id, updated.value);
          staffModalOpen := false;
          selectedStaffMember := None;
        }
      }
    }
  }
}
