/** The rows of the two remote tables (the interfaces of lib/supabase.ts),
    the sparse patches the application sends, and an abstract account of
    how the store applies a patch to a row. */
module Tables {
  import opened Common

  /** A row of table `students`; absent or NULL columns are `None`. */
  datatype StudentRow = StudentRow(
    id: string,
    name: string,
    status: Option<string>,
    gender: Option<string>,
    email: Option<string>,
    phone: Option<string>,
    age: Option<string>,
    country: Option<string>,
    nationality: Option<string>,
    language: Option<string>,
    church: Option<string>,
    room: Option<string>,
    bed_kit: Option<string>,
    bus: Option<string>,
    documents: Option<string>,
    underage_doc: Option<string>,
    healthy_form: Option<string>,
    obs: Option<string>,
    checked_in: bool,
    checked_in_at: Option<string>)

  /** A row of table `staff`. */
  datatype StaffRow = StaffRow(
    id: string,
    name: string,
    email: Option<string>,
    cellphone: Option<string>,
    igreja: Option<string>,
    country: Option<string>,
    nationality: Option<string>,
    area: Option<string>,
    kit_cama: Option<string>,
    quarto: Option<string>,
    healthy_form: Option<string>,
    checked_in: bool,
    checked_in_at: Option<string>)

  /** A row of either table, as `lib/database.ts` hands it around. */
  datatype Person = StaffPerson(staff: StaffRow) | StudentPerson(student: StudentRow)

  /** One key of an update object for a nullable column: not sent, sent as
      `null`, or sent with a value. */
  datatype Cell<T> = Omitted | Null | Given(value: T)

  /** An update object for table `students`; `None` means the key is not sent. */
  datatype StudentPatch = StudentPatch(
    name: Option<string>,
    status: Option<string>,
    gender: Option<string>,
    email: Option<string>,
    phone: Option<string>,
    age: Option<string>,
    country: Option<string>,
    nationality: Option<string>,
    language: Option<string>,
    church: Option<string>,
    room: Option<string>,
    bed_kit: Option<string>,
    bus: Option<string>,
    documents: Option<string>,
    underage_doc: Option<string>,
    healthy_form: Option<string>,
    obs: Option<string>,
    checked_in: Option<bool>,
    checked_in_at: Cell<string>)

  const EmptyStudentPatch := StudentPatch(None, None, None, None, None, None, None, None, None,
                                          None, None, None, None, None, None, None, None, None, Omitted)

  /** An update object for table `staff`. */
  datatype StaffPatch = StaffPatch(
    name: Option<string>,
    email: Option<string>,
    cellphone: Option<string>,
    igreja: Option<string>,
    country: Option<string>,
    nationality: Option<string>,
    area: Option<string>,
    kit_cama: Option<string>,
    quarto: Option<string>,
    healthy_form: Option<string>,
    checked_in: Option<bool>,
    checked_in_at: Cell<string>)

  const EmptyStaffPatch := StaffPatch(None, None, None, None, None, None, None, None, None, None,
                                      None, Omitted)

  // The store overwrites exactly the columns named in the update object.

  function Overwrite<T>(column: T, sent: Option<T>): T {
    if sent.Some? then sent.value else column
  }

  function OverwriteText(column: Option<string>, sent: Option<string>): Option<string> {
    if sent.Some? then sent else column
  }

  function OverwriteCell(column: Option<string>, sent: Cell<string>): Option<string> {
    match sent
    case Omitted => column
    case Null => None
    case Given(v) => Some(v)
  }

  function ApplyStudentPatch(row: StudentRow, p: StudentPatch): (r: StudentRow)
    ensures r.id == row.id
  {
    StudentRow(
      row.id,
      Overwrite(row.name, p.name),
      OverwriteText(row.status, p.status),
      OverwriteText(row.gender, p.gender),
      OverwriteText(row.email, p.email),
      OverwriteText(row.phone, p.phone),
      OverwriteText(row.age, p.age),
      OverwriteText(row.country, p.country),
      OverwriteText(row.nationality, p.nationality),
      OverwriteText(row.language, p.language),
      OverwriteText(row.church, p.church),
      OverwriteText(row.room, p.room),
      OverwriteText(row.bed_kit, p.bed_kit),
      OverwriteText(row.bus, p.bus),
      OverwriteText(row.documents, p.documents),
      OverwriteText(row.underage_doc, p.underage_doc),
      OverwriteText(row.healthy_form, p.healthy_form),
      OverwriteText(row.obs, p.obs),
      Overwrite(row.checked_in, p.checked_in),
      OverwriteCell(row.checked_in_at, p.checked_in_at))
  }

  function ApplyStaffPatch(row: StaffRow, p: StaffPatch): (r: StaffRow)
    ensures r.id == row.id
  {
    StaffRow(
      row.id,
      Overwrite(row.name, p.name),
      OverwriteText(row.email, p.email),
      OverwriteText(row.cellphone, p.cellphone),
      OverwriteText(row.igreja, p.igreja),
      OverwriteText(row.country, p.country),
      OverwriteText(row.nationality, p.nationality),
      OverwriteText(row.area, p.area),
      OverwriteText(row.kit_cama, p.kit_cama),
      OverwriteText(row.quarto, p.quarto),
      OverwriteText(row.healthy_form, p.healthy_form),
      Overwrite(row.checked_in, p.checked_in),
      OverwriteCell(row.checked_in_at, p.checked_in_at))
  }

  /** An empty update object leaves a row as it was. */
  lemma EmptyStudentPatchNoop(row: StudentRow)
    ensures ApplyStudentPatch(row, EmptyStudentPatch) == row
  {
  }

  lemma EmptyStaffPatchNoop(row: StaffRow)
    ensures ApplyStaffPatch(row, EmptyStaffPatch) == row
  {
  }
}
