/** The staff member detail card of components/StaffMemberDetail.tsx: a local
    copy of the record, toggled between checked in and pending and merged
    with edits optimistically, while the caller is told what to send. */
module StaffMemberDetail {
  import opened Common
  import opened Types
  import StaffMemberData

  /** The callback a toggle fires. */
  datatype Callback = CheckInCallback(id: string) | CheckOutCallback(id: string)

  /** The callback an edit fires: `onUpdate(id, updates)`. */
  datatype UpdateCallback = UpdateCallback(id: string, updates: StaffMemberUpdates)

  /** The local record after `handleCheckInOut`; `now` is `new Date()`. */
  function Toggled(m: StaffMember, now: Date): StaffMember {
    if m.checkedIn then m.(checkedIn := false, checkedInAt := None)
    else m.(checkedIn := true, checkedInAt := Some(now))
  }

  /** `{ ...current, ...updates }`: every key present in the updates wins. */
  function Merge(m: StaffMember, u: StaffMemberUpdates): StaffMember {
    StaffMember(
      u.id.GetOr(m.id), u.name.GetOr(m.name), u.email.GetOr(m.email), u.cellphone.GetOr(m.cellphone),
      u.igreja.GetOr(m.igreja), u.country.GetOr(m.country), u.nationality.GetOr(m.nationality),
      u.area.GetOr(m.area), u.kitCama.GetOr(m.kitCama), u.quarto.GetOr(m.quarto),
      u.healthyForm.GetOr(m.healthyForm), u.checkedIn.GetOr(m.checkedIn),
      if u.checkedInAt.Some? then u.checkedInAt else m.checkedInAt)
  }

  /** A toggle flips the flag, sets the timestamp exactly when it checks in,
      and changes no other field. */
  lemma ToggleFlips(m: StaffMember, now: Date)
    ensures Toggled(m, now).checkedIn == !m.checkedIn
    ensures Toggled(m, now).checkedInAt.Some? <==> Toggled(m, now).checkedIn
    ensures Toggled(m, now).(checkedIn := m.checkedIn, checkedInAt := m.checkedInAt) == m
  {
  }

  /** Two toggles restore the flag; from a pending record without a
      timestamp they restore the whole record. */
  lemma ToggleTwice(m: StaffMember, now1: Date, now2: Date)
    ensures Toggled(Toggled(m, now1), now2).checkedIn == m.checkedIn
    ensures m.checkedIn ==> Toggled(Toggled(m, now1), now2) == m.(checkedInAt := Some(now2))
    ensures !m.checkedIn && m.checkedInAt == None ==> Toggled(Toggled(m, now1), now2) == m
  {
  }

  /** Merging no updates keeps the record, and merging the same updates twice
      is the same as merging them once. */
  lemma MergeLaws(m: StaffMember, u: StaffMemberUpdates)
    ensures Merge(m, NoStaffMemberUpdates) == m
    ensures Merge(Merge(m, u), u) == Merge(m, u)
  {
  }

  /** When every given text is non-empty and the id is not among the
      updates, the local merge agrees with the record the store reads back. */
  lemma MergeAgreesWithStore(m: StaffMember, u: StaffMemberUpdates)
    requires u.id.None?
    requires u.name.Some? ==> u.name.value != ""
    requires u.email.Some? ==> u.email.value != ""
    requires u.cellphone.Some? ==> u.cellphone.value != ""
    requires u.igreja.Some? ==> u.igreja.value != ""
    requires u.country.Some? ==> u.country.value != ""
    requires u.nationality.Some? ==> u.nationality.value != ""
    requires u.area.Some? ==> u.area.value != ""
    requires u.kitCama.Some? ==> u.kitCama.value != ""
    requires u.quarto.Some? ==> u.quarto.value != ""
    requires u.healthyForm.Some? ==> u.healthyForm.value != ""
    ensures Merge(m, u) == StaffMemberData.MergeTruthy(m, u)
  {
  }

  /** Clearing a field shows it cleared on the card while the store keeps
      the old value, since the sparse patch drops empty strings. */
  lemma ClearedFieldDiverges(m: StaffMember)
    requires m.email != ""
    ensures Merge(m, NoStaffMemberUpdates.(email := Some(""))).email == ""
    ensures StaffMemberData.MergeTruthy(m, NoStaffMemberUpdates.(email := Some(""))).email == m.email
  {
  }

  class Detail {
    var current: StaffMember
    var editOpen: bool

    constructor (m: StaffMember)
      ensures current == m && !editOpen
    {
      current := m;
      editOpen := false;
    }

    /** The edit button. */
    method OpenEdit()
      modifies this
      ensures editOpen && current == old(current)
    {
      editOpen := true;
    }

    /** `handleCheckInOut`: the callback carries the record's id. */
    method HandleCheckInOut(now: Date) returns (callback: Callback)
      modifies this
      ensures old(current).checkedIn ==> callback == CheckOutCallback(old(current).id)
      ensures !old(current).checkedIn ==> callback == CheckInCallback(old(current).id)
      ensures current == Toggled(old(current), now)
      ensures editOpen == old(editOpen)
    {
      if current.checkedIn {
        callback := CheckOutCallback(current.id);
        current := current.(checkedIn := false, checkedInAt := None);
      } else {
        callback := CheckInCallback(current.id);
        current := current.(checkedIn := true, checkedInAt := Some(now));
      }
    }

    /** `handleUpdate`: the caller receives the id from before the merge and
        the raw updates, not the merged record, and the editor closes. */
    method HandleUpdate(u: StaffMemberUpdates) returns (callback: UpdateCallback)
      modifies this
      ensures current == Merge(old(current), u)
      ensures callback == UpdateCallback(old(current).id, u)
      ensures !editOpen
    {
      var updated := Merge(current, u);
      callback := UpdateCallback(current.id, u);
      current := updated;
      editOpen := false;
    }
  }
}
