/** The in-memory record shapes of types/staff.ts. */
module Types {
  import opened Common

  /** A JavaScript `Date`. Dates are opaque here: one is identified with the
      ISO-8601 text it was parsed from and is formatted back to. */
  datatype Date = Date(iso: string)

  /** A student record (the interface is named `Staff` in the application). */
  datatype Staff = Staff(
    id: string,
    name: string,
    status: string,
    gender: string,
    email: string,
    phone: string,
    age: string,
    country: string,
    nationality: string,
    language: string,
    church: string,
    room: string,
    bedKit: string,
    bus: string,
    documents: string,
    underageDoc: string,
    healthyForm: string,
    obs: string,
    checkedIn: bool,
    checkedInAt: Option<Date>)

  /** A staff member record. */
  datatype StaffMember = StaffMember(
    id: string,
    name: string,
    email: string,
    cellphone: string,
    igreja: string,
    country: string,
    nationality: string,
    area: string,
    kitCama: string,
    quarto: string,
    healthyForm: string,
    checkedIn: bool,
    checkedInAt: Option<Date>)

  /** `Partial<Staff>`: every key may be absent (`None`). */
  datatype StaffUpdates = StaffUpdates(
    id: Option<string>,
    name: Option<string>,
    status: Option<string>,
    gender: Option<string>,
    email: Option<string>,
    phone: Option<string>,
    age: Option<string>,
    country: Option<string>,
    nationality: Option<string>,
    language: Option<string>,
    church: Option<string>,
    room: Option<string>,
    bedKit: Option<string>,
    bus: Option<string>,
    documents: Option<string>,
    underageDoc: Option<string>,
    healthyForm: Option<string>,
    obs: Option<string>,
    checkedIn: Option<bool>,
    checkedInAt: Option<Date>)

  /** `{}` as a `Partial<Staff>`. */
  const NoStaffUpdates := StaffUpdates(None, None, None, None, None, None, None, None, None, None,
                                       None, None, None, None, None, None, None, None, None, None)

  /** `Partial<StaffMember>`. */
  datatype StaffMemberUpdates = StaffMemberUpdates(
    id: Option<string>,
    name: Option<string>,
    email: Option<string>,
    cellphone: Option<string>,
    igreja: Option<string>,
    country: Option<string>,
    nationality: Option<string>,
    area: Option<string>,
    kitCama: Option<string>,
    quarto: Option<string>,
    healthyForm: Option<string>,
    checkedIn: Option<bool>,
    checkedInAt: Option<Date>)

  /** `{}` as a `Partial<StaffMember>`. */
  const NoStaffMemberUpdates := StaffMemberUpdates(None, None, None, None, None, None, None,
                                                   None, None, None, None, None, None)
}
