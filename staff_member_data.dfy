/** The staff service of data/staffMemberData.ts: the same structure as the
    student service, over table `staff` and the `StaffMember` record. Each
    store call is replaced by its reply. */
module StaffMemberData {
  import opened Common
  import opened Types
  import opened Tables
  import StudentData

  /** The row-to-record conversion, written out identically in
      `getAllStaff`, `updateStaffMember` and `getStaffMemberById`. */
  function RowToStaffMember(row: StaffRow): (r: StaffMember)
    ensures r.id == row.id && r.name == row.name && r.checkedIn == row.checked_in
    ensures r.checkedInAt.Some? <==> Truthy(row.checked_in_at)
    ensures r.checkedInAt.Some? ==> r.checkedInAt.value.iso == row.checked_in_at.value
    ensures ReadsAs(row.email, r.email) && ReadsAs(row.cellphone, r.cellphone)
    ensures ReadsAs(row.igreja, r.igreja) && ReadsAs(row.country, r.country)
    ensures ReadsAs(row.nationality, r.nationality) && ReadsAs(row.area, r.area)
    ensures ReadsAs(row.kit_cama, r.kitCama) && ReadsAs(row.quarto, r.quarto)
    ensures ReadsAs(row.healthy_form, r.healthyForm)
  {
    StaffMember(
      row.id, row.name,
      OrEmpty(row.email), OrEmpty(row.cellphone), OrEmpty(row.igreja), OrEmpty(row.country), OrEmpty(row.nationality), OrEmpty(row.area), OrEmpty(row.kit_cama), OrEmpty(row.quarto), OrEmpty(row.healthy_form),
      row.checked_in,
      if Truthy(row.checked_in_at) then Some(Date(row.checked_in_at.value)) else None)
  }

  predicate SentIffTruthy(value: Option<string>, sent: Option<string>) {
    StudentData.SentIffTruthy(value, sent)
  }

  function Keep(value: Option<string>): (sent: Option<string>)
    ensures SentIffTruthy(value, sent)
  {
    StudentData.Keep(value)
  }

  /** The update object `updateStaffMember` assembles. */
  function SparsePatch(u: StaffMemberUpdates): (p: StaffPatch)
    ensures SentIffTruthy(u.name, p.name)
    ensures SentIffTruthy(u.email, p.email)
    ensures SentIffTruthy(u.cellphone, p.cellphone)
    ensures SentIffTruthy(u.igreja, p.igreja)
    ensures SentIffTruthy(u.country, p.country)
    ensures SentIffTruthy(u.nationality, p.nationality)
    ensures SentIffTruthy(u.area, p.area)
    ensures SentIffTruthy(u.kitCama, p.kit_cama)
    ensures SentIffTruthy(u.quarto, p.quarto)
    ensures SentIffTruthy(u.healthyForm, p.healthy_form)
    ensures p.checked_in == u.checkedIn
    ensures p.checked_in_at.Given? <==> u.checkedInAt.Some?
    ensures p.checked_in_at.Given? ==> p.checked_in_at.value == u.checkedInAt.value.iso
    ensures !p.checked_in_at.Null?
  {
    StaffPatch(
      Keep(u.name), Keep(u.email), Keep(u.cellphone), Keep(u.igreja), Keep(u.country), Keep(u.nationality), Keep(u.area), Keep(u.kitCama), Keep(u.quarto), Keep(u.healthyForm),
      u.checkedIn,
      if u.checkedInAt.Some? then Given(u.checkedInAt.value.iso) else Omitted)
  }

  /** `updateStaffMember`'s construction of `supabaseUpdates`, one
      conditional assignment per key; a key never assigned is not sent. */
  method BuildPatch(u: StaffMemberUpdates) returns (p: StaffPatch)
    ensures p == SparsePatch(u)
  {
    // Each `assert` below pins one key before the next branch, so the
    // solver does not carry every combination of branches to the end.
    var name: Option<string> := None;
    var email: Option<string> := None;
    var cellphone: Option<string> := None;
    var igreja: Option<string> := None;
    var country: Option<string> := None;
    var nationality: Option<string> := None;
    var area: Option<string> := None;
    var kit_cama: Option<string> := None;
    var quarto: Option<string> := None;
    var healthy_form: Option<string> := None;
    var checked_in: Option<bool> := None;
    var checked_in_at: Cell<string> := Omitted;
    if Truthy(u.name) { name := u.name; }
    assert name == Keep(u.name);
    if Truthy(u.email) { email := u.email; }
    assert email == Keep(u.email);
    if Truthy(u.cellphone) { cellphone := u.cellphone; }
    assert cellphone == Keep(u.cellphone);
    if Truthy(u.igreja) { igreja := u.igreja; }
    assert igreja == Keep(u.igreja);
    if Truthy(u.country) { country := u.country; }
    assert country == Keep(u.country);
    if Truthy(u.nationality) { nationality := u.nationality; }
    assert nationality == Keep(u.nationality);
    if Truthy(u.area) { area := u.area; }
    assert area == Keep(u.area);
    if Truthy(u.kitCama) { kit_cama := u.kitCama; }
    assert kit_cama == Keep(u.kitCama);
    if Truthy(u.quarto) { quarto := u.quarto; }
    assert quarto == Keep(u.quarto);
    if Truthy(u.healthyForm) { healthy_form := u.healthyForm; }
    assert healthy_form == Keep(u.healthyForm);
    if u.checkedIn.Some? { checked_in := u.checkedIn; }
    if u.checkedInAt.Some? { checked_in_at := Given(u.checkedInAt.value.iso); }
    p := StaffPatch(name, email, cellphone, igreja, country, nationality, area, kit_cama, quarto, healthy_form,
                    checked_in, checked_in_at);
  }

  /** Reference account of a sparse update of a staff member record. */
  function MergeTruthy(s: StaffMember, u: StaffMemberUpdates): StaffMember {
    StaffMember(
      s.id,
      if Truthy(u.name) then u.name.value else s.name,
      if Truthy(u.email) then u.email.value else s.email,
      if Truthy(u.cellphone) then u.cellphone.value else s.cellphone,
      if Truthy(u.igreja) then u.igreja.value else s.igreja,
      if Truthy(u.country) then u.country.value else s.country,
      if Truthy(u.nationality) then u.nationality.value else s.nationality,
      if Truthy(u.area) then u.area.value else s.area,
      if Truthy(u.kitCama) then u.kitCama.value else s.kitCama,
      if Truthy(u.quarto) then u.quarto.value else s.quarto,
      if Truthy(u.healthyForm) then u.healthyForm.value else s.healthyForm,
      u.checkedIn.GetOr(s.checkedIn),
      if u.checkedInAt.Some? then u.checkedInAt else s.checkedInAt)
  }

  predicate DatesFormatted(u: StaffMemberUpdates) {
    u.checkedInAt.Some? ==> u.checkedInAt.value.iso != ""
  }

  /** Sending the sparse patch and reading the row back merges exactly the
      truthy updates into the record read before. */
  lemma UpdateReadsBackMerged(row: StaffRow, u: StaffMemberUpdates)
    requires DatesFormatted(u)
    ensures RowToStaffMember(ApplyStaffPatch(row, SparsePatch(u))) == MergeTruthy(RowToStaffMember(row), u)
  {
  }

  /** An empty update object changes neither the row nor the record. */
  lemma EmptyUpdateIsNoop(row: StaffRow)
    ensures SparsePatch(NoStaffMemberUpdates) == EmptyStaffPatch
    ensures ApplyStaffPatch(row, SparsePatch(NoStaffMemberUpdates)) == row
    ensures MergeTruthy(RowToStaffMember(row), NoStaffMemberUpdates) == RowToStaffMember(row)
  {
  }

  /** `updateStaffMember`: a store error yields `null`. */
  method UpdateStaffMember(id: string, updates: StaffMemberUpdates, stored: Result<StaffRow>)
    returns (r: Option<StaffMember>)
    requires stored.Ok? ==> stored.value.id == id
    requires DatesFormatted(updates)
    ensures stored.Err? ==> r == None
    ensures stored.Ok? ==> r == Some(RowToStaffMember(ApplyStaffPatch(stored.value, SparsePatch(updates))))
    ensures stored.Ok? ==> r == Some(MergeTruthy(RowToStaffMember(stored.value), updates)) && r.value.id == id
  {
    var supabaseUpdates := BuildPatch(updates);
    match stored
    case Err(_) =>
      r := None;
    case Ok(row) =>
      UpdateReadsBackMerged(row, updates);
      r := Some(RowToStaffMember(ApplyStaffPatch(row, supabaseUpdates)));
  }

  /** `getAllStaff`: an error yields the empty roster. */
  function GetAllStaff(reply: Result<seq<StaffRow>>): (r: seq<StaffMember>)
    ensures reply.Err? ==> r == []
    ensures reply.Ok? ==> |r| == |reply.value|
    ensures reply.Ok? ==> forall k :: 0 <= k < |r| ==> r[k] == RowToStaffMember(reply.value[k])
  {
    match reply
    case Err(_) => []
    case Ok(rows) => seq(|rows|, k requires 0 <= k < |rows| => RowToStaffMember(rows[k]))
  }

  /** `getStaffMemberById`: an error yields `null`. */
  function GetStaffMemberById(reply: Result<StaffRow>): (r: Option<StaffMember>)
    ensures r.Some? <==> reply.Ok?
    ensures r.Some? ==> r.value == RowToStaffMember(reply.value)
  {
    match reply
    case Err(_) => None
    case Ok(row) => Some(RowToStaffMember(row))
  }

  function CheckInUpdates(now: Date): StaffMemberUpdates {
    NoStaffMemberUpdates.(checkedIn := Some(true), checkedInAt := Some(now))
  }

  const CheckOutUpdates := NoStaffMemberUpdates.(checkedIn := Some(false))

  /** The check-in patch carries the timestamp; the check-out patch is only
      `{checked_in: false}`. */
  lemma CheckPatchShapes(now: Date)
    ensures SparsePatch(CheckInUpdates(now))
            == EmptyStaffPatch.(checked_in := Some(true), checked_in_at := Given(now.iso))
    ensures SparsePatch(CheckOutUpdates) == EmptyStaffPatch.(checked_in := Some(false))
  {
  }

  /** `checkInStaffMember`: success iff the update returned a record. */
  method CheckInStaffMember(id: string, now: Date, stored: Result<StaffRow>) returns (ok: bool)
    requires stored.Ok? ==> stored.value.id == id
    requires now.iso != ""
    ensures ok <==> stored.Ok?
  {
    var result := UpdateStaffMember(id, CheckInUpdates(now), stored);
    ok := result.Some?;
  }

  /** `checkOutStaffMember`: success iff the update returned a record. */
  method CheckOutStaffMember(id: string, stored: Result<StaffRow>) returns (ok: bool)
    requires stored.Ok? ==> stored.value.id == id
    ensures ok <==> stored.Ok?
  {
    var result := UpdateStaffMember(id, CheckOutUpdates, stored);
    ok := result.Some?;
  }

  /** As written, a check-out leaves `checked_in_at` in place. */
  lemma CheckOutLeavesTimestamp(row: StaffRow)
    requires row.checked_in && Truthy(row.checked_in_at)
    ensures var r := RowToStaffMember(ApplyStaffPatch(row, SparsePatch(CheckOutUpdates)));
            !r.checkedIn && r.checkedInAt == Some(Date(row.checked_in_at.value))
  {
  }
}
