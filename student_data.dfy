/** The student service of data/studentData.ts: converting `students` rows to
    records, building the sparse update object, and check-in / check-out on
    top of the update. Each store call is replaced by its reply. */
module StudentData {
  import opened Common
  import opened Types
  import opened Tables

  /** The row-to-record conversion written out in `getAllStudents`,
      `updateStudent` and `getStudentById` alike: every optional column
      becomes `column || ''`, three columns are renamed, and the timestamp
      is defined exactly when the column is truthy. */
  function RowToStaff(row: StudentRow): (r: Staff)
    ensures r.id == row.id && r.name == row.name && r.checkedIn == row.checked_in
    ensures r.checkedInAt.Some? <==> Truthy(row.checked_in_at)
    ensures r.checkedInAt.Some? ==> r.checkedInAt.value.iso == row.checked_in_at.value
    ensures ReadsAs(row.status, r.status) && ReadsAs(row.gender, r.gender)
    ensures ReadsAs(row.email, r.email) && ReadsAs(row.phone, r.phone) && ReadsAs(row.age, r.age)
    ensures ReadsAs(row.country, r.country) && ReadsAs(row.nationality, r.nationality)
    ensures ReadsAs(row.language, r.language) && ReadsAs(row.church, r.church) && ReadsAs(row.room, r.room)
    ensures ReadsAs(row.bed_kit, r.bedKit) && ReadsAs(row.bus, r.bus) && ReadsAs(row.documents, r.documents)
    ensures ReadsAs(row.underage_doc, r.underageDoc) && ReadsAs(row.healthy_form, r.healthyForm)
    ensures ReadsAs(row.obs, r.obs)
  {
    Staff(
      row.id, row.name,
      OrEmpty(row.status), OrEmpty(row.gender), OrEmpty(row.email), OrEmpty(row.phone),
      OrEmpty(row.age), OrEmpty(row.country), OrEmpty(row.nationality), OrEmpty(row.language),
      OrEmpty(row.church), OrEmpty(row.room), OrEmpty(row.bed_kit), OrEmpty(row.bus),
      OrEmpty(row.documents), OrEmpty(row.underage_doc), OrEmpty(row.healthy_form),
      OrEmpty(row.obs),
      row.checked_in,
      if Truthy(row.checked_in_at) then Some(Date(row.checked_in_at.value)) else None)
  }

  /** A column is sent exactly when its value is truthy, and then unchanged. */
  predicate SentIffTruthy(value: Option<string>, sent: Option<string>) {
    (sent.Some? <==> Truthy(value)) && (sent.Some? ==> sent == value)
  }

  /** `if (updates.f) supabaseUpdates.f = updates.f`. */
  function Keep(value: Option<string>): (sent: Option<string>)
    ensures SentIffTruthy(value, sent)
  {
    if Truthy(value) then value else None
  }

  /** The update object `updateStudent` assembles: truthy strings only,
      `checked_in` whenever it is defined (also `false`), and the timestamp
      only when a date is given. */
  function SparsePatch(u: StaffUpdates): (p: StudentPatch)
    ensures SentIffTruthy(u.name, p.name) && SentIffTruthy(u.status, p.status)
    ensures SentIffTruthy(u.gender, p.gender) && SentIffTruthy(u.email, p.email)
    ensures SentIffTruthy(u.phone, p.phone) && SentIffTruthy(u.age, p.age)
    ensures SentIffTruthy(u.country, p.country) && SentIffTruthy(u.nationality, p.nationality)
    ensures SentIffTruthy(u.language, p.language) && SentIffTruthy(u.church, p.church)
    ensures SentIffTruthy(u.room, p.room) && SentIffTruthy(u.bedKit, p.bed_kit)
    ensures SentIffTruthy(u.bus, p.bus) && SentIffTruthy(u.documents, p.documents)
    ensures SentIffTruthy(u.underageDoc, p.underage_doc)
    ensures SentIffTruthy(u.healthyForm, p.healthy_form) && SentIffTruthy(u.obs, p.obs)
    ensures p.checked_in == u.checkedIn
    ensures p.checked_in_at.Given? <==> u.checkedInAt.Some?
    ensures p.checked_in_at.Given? ==> p.checked_in_at.value == u.checkedInAt.value.iso
    ensures !p.checked_in_at.Null?
  {
    StudentPatch(
      Keep(u.name), Keep(u.status), Keep(u.gender), Keep(u.email), Keep(u.phone), Keep(u.age),
      Keep(u.country), Keep(u.nationality), Keep(u.language), Keep(u.church), Keep(u.room),
      Keep(u.bedKit), Keep(u.bus), Keep(u.documents), Keep(u.underageDoc), Keep(u.healthyForm),
      Keep(u.obs),
      u.checkedIn,
      if u.checkedInAt.Some? then Given(u.checkedInAt.value.iso) else Omitted)
  }

  /** `updateStudent`'s construction of `supabaseUpdates`, one conditional
      assignment per key; a key that is never assigned is not sent. */
  method BuildPatch(u: StaffUpdates) returns (p: StudentPatch)
    ensures p == SparsePatch(u)
  {
    // Each `assert` below pins one key before the next branch, so the
    // solver does not carry every combination of branches to the end.
    var name: Option<string> := None;
    var status: Option<string> := None;
    var gender: Option<string> := None;
    var email: Option<string> := None;
    var phone: Option<string> := None;
    var age: Option<string> := None;
    var country: Option<string> := None;
    var nationality: Option<string> := None;
    var language: Option<string> := None;
    var church: Option<string> := None;
    var room: Option<string> := None;
    var bed_kit: Option<string> := None;
    var bus: Option<string> := None;
    var documents: Option<string> := None;
    var underage_doc: Option<string> := None;
    var healthy_form: Option<string> := None;
    var obs: Option<string> := None;
    var checked_in: Option<bool> := None;
    var checked_in_at: Cell<string> := Omitted;
    if Truthy(u.name) { name := u.name; }
    assert name == Keep(u.name);
    if Truthy(u.status) { status := u.status; }
    assert status == Keep(u.status);
    if Truthy(u.gender) { gender := u.gender; }
    assert gender == Keep(u.gender);
    if Truthy(u.email) { email := u.email; }
    assert email == Keep(u.email);
    if Truthy(u.phone) { phone := u.phone; }
    assert phone == Keep(u.phone);
    if Truthy(u.age) { age := u.age; }
    assert age == Keep(u.age);
    if Truthy(u.country) { country := u.country; }
    assert country == Keep(u.country);
    if Truthy(u.nationality) { nationality := u.nationality; }
    assert nationality == Keep(u.nationality);
    if Truthy(u.language) { language := u.language; }
    assert language == Keep(u.language);
    if Truthy(u.church) { church := u.church; }
    assert church == Keep(u.church);
    if Truthy(u.room) { room := u.room; }
    assert room == Keep(u.room);
    if Truthy(u.bedKit) { bed_kit := u.bedKit; }
    assert bed_kit == Keep(u.bedKit);
    if Truthy(u.bus) { bus := u.bus; }
    assert bus == Keep(u.bus);
    if Truthy(u.documents) { documents := u.documents; }
    assert documents == Keep(u.documents);
    if Truthy(u.underageDoc) { underage_doc := u.underageDoc; }
    assert underage_doc == Keep(u.underageDoc);
    if Truthy(u.healthyForm) { healthy_form := u.healthyForm; }
    assert healthy_form == Keep(u.healthyForm);
    if Truthy(u.obs) { obs := u.obs; }
    assert obs == Keep(u.obs);
    if u.checkedIn.Some? { checked_in := u.checkedIn; }
    if u.checkedInAt.Some? { checked_in_at := Given(u.checkedInAt.value.iso); }
    p := StudentPatch(name, status, gender, email, phone, age, country, nationality, language, church, room, bed_kit, bus, documents, underage_doc, healthy_form, obs,
                      checked_in, checked_in_at);
  }

  /** Reference account of a sparse update: the record takes every truthy
      string of the updates, a defined `checkedIn`, a given date, and keeps
      everything else. */
  function MergeTruthy(s: Staff, u: StaffUpdates): Staff {
    Staff(
      s.id,
      if Truthy(u.name) then u.name.value else s.name,
      if Truthy(u.status) then u.status.value else s.status,
      if Truthy(u.gender) then u.gender.value else s.gender,
      if Truthy(u.email) then u.email.value else s.email,
      if Truthy(u.phone) then u.phone.value else s.phone,
      if Truthy(u.age) then u.age.value else s.age,
      if Truthy(u.country) then u.country.value else s.country,
      if Truthy(u.nationality) then u.nationality.value else s.nationality,
      if Truthy(u.language) then u.language.value else s.language,
      if Truthy(u.church) then u.church.value else s.church,
      if Truthy(u.room) then u.room.value else s.room,
      if Truthy(u.bedKit) then u.bedKit.value else s.bedKit,
      if Truthy(u.bus) then u.bus.value else s.bus,
      if Truthy(u.documents) then u.documents.value else s.documents,
      if Truthy(u.underageDoc) then u.underageDoc.value else s.underageDoc,
      if Truthy(u.healthyForm) then u.healthyForm.value else s.healthyForm,
      if Truthy(u.obs) then u.obs.value else s.obs,
      u.checkedIn.GetOr(s.checkedIn),
      if u.checkedInAt.Some? then u.checkedInAt else s.checkedInAt)
  }

  /** `toISOString` never produces the empty string. */
  predicate DatesFormatted(u: StaffUpdates) {
    u.checkedInAt.Some? ==> u.checkedInAt.value.iso != ""
  }

  /** Sending the sparse patch and reading the row back is the same as
      merging the truthy updates into the record read before: fields whose
      new value is '' or absent keep their stored value. */
  lemma UpdateReadsBackMerged(row: StudentRow, u: StaffUpdates)
    requires DatesFormatted(u)
    ensures RowToStaff(ApplyStudentPatch(row, SparsePatch(u))) == MergeTruthy(RowToStaff(row), u)
  {
  }

  /** An empty update object changes neither the row nor the record. */
  lemma EmptyUpdateIsNoop(row: StudentRow)
    ensures SparsePatch(NoStaffUpdates) == EmptyStudentPatch
    ensures ApplyStudentPatch(row, SparsePatch(NoStaffUpdates)) == row
    ensures MergeTruthy(RowToStaff(row), NoStaffUpdates) == RowToStaff(row)
  {
  }

  /** An update cannot clear a field: setting a value to '' sends nothing
      for that column, so it keeps its stored value. */
  lemma ClearingIsNotSent(row: StudentRow, u: StaffUpdates)
    requires u.country == Some("")
    requires DatesFormatted(u)
    ensures SparsePatch(u).country.None?
    ensures RowToStaff(ApplyStudentPatch(row, SparsePatch(u))).country == OrEmpty(row.country)
  {
    UpdateReadsBackMerged(row, u);
  }

  /** `updateStudent`: the update is applied to the row with the given id
      and the row is read back; a store error yields `null`. */
  method UpdateStudent(id: string, updates: StaffUpdates, stored: Result<StudentRow>)
    returns (r: Option<Staff>)
    requires stored.Ok? ==> stored.value.id == id
    requires DatesFormatted(updates)
    ensures stored.Err? ==> r == None
    ensures stored.Ok? ==> r == Some(RowToStaff(ApplyStudentPatch(stored.value, SparsePatch(updates))))
    ensures stored.Ok? ==> r == Some(MergeTruthy(RowToStaff(stored.value), updates)) && r.value.id == id
  {
    var supabaseUpdates := BuildPatch(updates);
    match stored
    case Err(_) =>
      r := None;
    case Ok(row) =>
      UpdateReadsBackMerged(row, updates);
      r := Some(RowToStaff(ApplyStudentPatch(row, supabaseUpdates)));
  }

  /** `getAllStudents`: an error yields the empty roster. */
  function GetAllStudents(reply: Result<seq<StudentRow>>): (r: seq<Staff>)
    ensures reply.Err? ==> r == []
    ensures reply.Ok? ==> |r| == |reply.value|
    ensures reply.Ok? ==> forall k :: 0 <= k < |r| ==> r[k] == RowToStaff(reply.value[k])
  {
    match reply
    case Err(_) => []
    case Ok(rows) => seq(|rows|, k requires 0 <= k < |rows| => RowToStaff(rows[k]))
  }

  /** `getStudentById`: an error yields `null`. */
  function GetStudentById(reply: Result<StudentRow>): (r: Option<Staff>)
    ensures r.Some? <==> reply.Ok?
    ensures r.Some? ==> r.value == RowToStaff(reply.value)
  {
    match reply
    case Err(_) => None
    case Ok(row) => Some(RowToStaff(row))
  }

  /** The updates `checkInStudent` sends. */
  function CheckInUpdates(now: Date): StaffUpdates {
    NoStaffUpdates.(checkedIn := Some(true), checkedInAt := Some(now))
  }

  /** The updates `checkOutStudent` sends: `checkedInAt: undefined` is no key at all. */
  const CheckOutUpdates := NoStaffUpdates.(checkedIn := Some(false))

  /** The check-in patch is `{checked_in: true, checked_in_at: now}`; the
      check-out patch is only `{checked_in: false}`. */
  lemma CheckPatchShapes(now: Date)
    ensures SparsePatch(CheckInUpdates(now))
            == EmptyStudentPatch.(checked_in := Some(true), checked_in_at := Given(now.iso))
    ensures SparsePatch(CheckOutUpdates) == EmptyStudentPatch.(checked_in := Some(false))
  {
  }

  /** `checkInStudent`: success iff the update returned a record. */
  method CheckInStudent(id: string, now: Date, stored: Result<StudentRow>) returns (ok: bool)
    requires stored.Ok? ==> stored.value.id == id
    requires now.iso != ""
    ensures ok <==> stored.Ok?
  {
    var result := UpdateStudent(id, CheckInUpdates(now), stored);
    ok := result.Some?;
  }

  /** `checkOutStudent`: success iff the update returned a record. */
  method CheckOutStudent(id: string, stored: Result<StudentRow>) returns (ok: bool)
    requires stored.Ok? ==> stored.value.id == id
    ensures ok <==> stored.Ok?
  {
    var result := UpdateStudent(id, CheckOutUpdates, stored);
    ok := result.Some?;
  }

  /** A check-in reads back as checked in at the given time. */
  lemma CheckInReadsBack(row: StudentRow, now: Date)
    requires now.iso != ""
    ensures var r := RowToStaff(ApplyStudentPatch(row, SparsePatch(CheckInUpdates(now))));
            r.checkedIn && r.checkedInAt == Some(now)
  {
  }

  /** As written, a check-out leaves `checked_in_at` in place: a student who
      was checked in reads back as NOT checked in but WITH a check-in time. */
  lemma CheckOutLeavesTimestamp(row: StudentRow)
    requires row.checked_in && Truthy(row.checked_in_at)
    ensures var r := RowToStaff(ApplyStudentPatch(row, SparsePatch(CheckOutUpdates)));
            !r.checkedIn && r.checkedInAt == Some(Date(row.checked_in_at.value))
  {
  }

  /** The check-out patch evidently intended (and the one lib/database.ts
      sends): `checked_in_at` is set to null together with `checked_in`. */
  const ClearingCheckOutPatch := EmptyStudentPatch.(checked_in := Some(false), checked_in_at := Null)

  /** With the clearing patch, every row reads back with a check-in time
      exactly when it is checked in (here: neither). */
  lemma ClearingCheckOutRestoresInvariant(row: StudentRow)
    ensures var r := RowToStaff(ApplyStudentPatch(row, ClearingCheckOutPatch));
            !r.checkedIn && r.checkedInAt.None? && (r.checkedInAt.Some? <==> r.checkedIn)
    ensures var r := RowToStaff(ApplyStudentPatch(row, ClearingCheckOutPatch));
            r == RowToStaff(row).(checkedIn := false, checkedInAt := None)
  {
  }
}
