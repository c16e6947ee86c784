/** The edit dialog of components/EditPersonModal.tsx: a form holding a copy
    of one row, the validation of its name and email, and the save sequence
    (update the row, read it back, hand it to the caller). */
module EditPersonModal {
  import opened Common
  import opened Tables
  import Database

  /** A value of the form: a text column, the `checked_in` flag, or null. */
  datatype FormValue = Text(text: string) | Flag(flag: bool) | NullValue

  /** The columns of the two tables, by which the form is keyed. */
  datatype Column =
    | Id | Name | Status | Gender | Email | Phone | Cellphone | Age | Igreja | Country
    | Nationality | Language | Church | Area | Room | KitCama | Quarto | BedKit | Bus | Documents
    | UnderageDoc | HealthyForm | Obs | CheckedIn | CheckedInAt

  /** The key under which a column appears in a row object. */
  function ColumnName(c: Column): string {
    match c
    case Id => "id" case Name => "name" case Status => "status" case Gender => "gender"
    case Email => "email" case Phone => "phone" case Cellphone => "cellphone" case Age => "age"
    case Igreja => "igreja" case Country => "country" case Nationality => "nationality"
    case Language => "language" case Church => "church" case Area => "area" case Room => "room"
    case KitCama => "kit_cama" case Quarto => "quarto" case BedKit => "bed_kit" case Bus => "bus"
    case Documents => "documents" case UnderageDoc => "underage_doc"
    case HealthyForm => "healthy_form" case Obs => "obs" case CheckedIn => "checked_in"
    case CheckedInAt => "checked_in_at"
  }

  type Form = map<Column, FormValue>

  function OptText(o: Option<string>): FormValue {
    if o.Some? then Text(o.value) else NullValue
  }

  const StaffColumns: set<Column> :=
    {Id, Name, Email, Cellphone, Igreja, Country, Nationality, Area, KitCama, Quarto, HealthyForm,
     CheckedIn, CheckedInAt}

  const StudentColumns: set<Column> :=
    {Id, Name, Status, Gender, Email, Phone, Age, Country, Nationality, Language, Church, Room,
     BedKit, Bus, Documents, UnderageDoc, HealthyForm, Obs, CheckedIn, CheckedInAt}

  /** The value of column `c` of a staff row. */
  function StaffCell(s: StaffRow, c: Column): FormValue {
    match c
    case Id => Text(s.id) case Name => Text(s.name) case Email => OptText(s.email)
    case Cellphone => OptText(s.cellphone) case Igreja => OptText(s.igreja)
    case Country => OptText(s.country) case Nationality => OptText(s.nationality)
    case Area => OptText(s.area) case KitCama => OptText(s.kit_cama) case Quarto => OptText(s.quarto)
    case HealthyForm => OptText(s.healthy_form) case CheckedIn => Flag(s.checked_in)
    case CheckedInAt => OptText(s.checked_in_at)
    case _ => NullValue
  }

  function StudentCell(s: StudentRow, c: Column): FormValue {
    match c
    case Id => Text(s.id) case Name => Text(s.name) case Status => OptText(s.status)
    case Gender => OptText(s.gender) case Email => OptText(s.email) case Phone => OptText(s.phone)
    case Age => OptText(s.age) case Country => OptText(s.country)
    case Nationality => OptText(s.nationality) case Language => OptText(s.language)
    case Church => OptText(s.church) case Room => OptText(s.room) case BedKit => OptText(s.bed_kit)
    case Bus => OptText(s.bus) case Documents => OptText(s.documents)
    case UnderageDoc => OptText(s.underage_doc) case HealthyForm => OptText(s.healthy_form)
    case Obs => OptText(s.obs) case CheckedIn => Flag(s.checked_in)
    case CheckedInAt => OptText(s.checked_in_at)
    case _ => NullValue
  }

  /** `{ ...person }`: every column of the row under its own name. */
  function FormOf(p: Person): Form {
    match p
    case StaffPerson(s) => map c | c in StaffColumns :: StaffCell(s, c)
    case StudentPerson(s) => map c | c in StudentColumns :: StudentCell(s, c)
  }

  /** `formData[key]` as an optional string; a missing key, null or a flag give `None`. */
  function TextOf(f: Form, key: Column): (r: Option<string>)
    ensures r.Some? <==> key in f && f[key].Text?
  {
    if key in f && f[key].Text? then Some(f[key].text) else None
  }

  function FlagOf(f: Form, key: Column): bool {
    key in f && f[key].Flag? && f[key].flag
  }

  function PersonId(p: Person): string {
    match p
    case StaffPerson(s) => s.id
    case StudentPerson(s) => s.id
  }

  /** The columns of the row's table. */
  function ColumnsOf(p: Person): set<Column> {
    if p.StaffPerson? then StaffColumns else StudentColumns
  }

  /** The value of column `c` of the row. */
  function CellOf(p: Person, c: Column): FormValue {
    match p
    case StaffPerson(s) => StaffCell(s, c)
    case StudentPerson(s) => StudentCell(s, c)
  }

  /** Loading a person copies every column of its table, and nothing else,
      under the column's name and with the row's value. */
  lemma FormCopiesEveryColumn(p: Person, c: Column)
    ensures c in FormOf(p) <==> c in ColumnsOf(p)
    ensures c in FormOf(p) ==> FormOf(p)[c] == CellOf(p, c)
  {
  }

  /** The columns the dialog reads back: id and name are always text. */
  lemma FormReadsNameAndEmail(p: Person)
    ensures TextOf(FormOf(p), Id) == Some(PersonId(p))
    ensures TextOf(FormOf(p), Name) == Some(Database.PersonName(p))
    ensures p.StaffPerson? ==> TextOf(FormOf(p), Email) == p.staff.email
    ensures p.StudentPerson? ==> TextOf(FormOf(p), Email) == p.student.email
  {
    assert Id in ColumnsOf(p) && Name in ColumnsOf(p) && Email in ColumnsOf(p);
  }

  // ---------------------------------------------------------------------
  // Validation.

  const NameRequired := "Name is required"
  const InvalidEmail := "Please enter a valid email address"
  const UpdateFailed := "Failed to update. Please try again."
  const UpdateThrew := "An error occurred. Please try again."

  /** `!formData.name?.trim()`. */
  predicate NameMissing(f: Form) {
    TextOf(f, Name).None? || IsBlank(TextOf(f, Name).value)
  }

  /** `formData.email && formData.email.trim() && !formData.email.includes('@')`. */
  predicate EmailInvalid(f: Form) {
    TextOf(f, Email).Some? && TextOf(f, Email).value != "" && !IsBlank(TextOf(f, Email).value)
    && !Contains(TextOf(f, Email).value, "@")
  }

  /** The errors `validateForm` records, keyed by field. */
  function FormErrors(f: Form): (e: map<string, string>)
    ensures "name" in e <==> NameMissing(f)
    ensures "email" in e <==> EmailInvalid(f)
    ensures "name" in e ==> e["name"] == NameRequired
    ensures "email" in e ==> e["email"] == InvalidEmail
  {
    (if NameMissing(f) then map["name" := NameRequired] else map[])
    + (if EmailInvalid(f) then map["email" := InvalidEmail] else map[])
  }

  /** The error map, case by case: the keys are exactly the failed checks. */
  lemma FormErrorsCases(f: Form)
    ensures NameMissing(f) && EmailInvalid(f) ==>
              FormErrors(f) == map["name" := NameRequired, "email" := InvalidEmail]
    ensures NameMissing(f) && !EmailInvalid(f) ==> FormErrors(f) == map["name" := NameRequired]
    ensures !NameMissing(f) && EmailInvalid(f) ==> FormErrors(f) == map["email" := InvalidEmail]
    ensures !NameMissing(f) && !EmailInvalid(f) ==> FormErrors(f) == map[]
  {
  }

  /** The form is valid iff it has a visible name and its email, when
      visible, holds an '@'. */
  lemma FormValidIff(f: Form)
    ensures FormErrors(f) == map[] <==>
              (TextOf(f, Name).Some? && !IsBlank(TextOf(f, Name).value))
              && (TextOf(f, Email).None? || IsBlank(TextOf(f, Email).value)
                  || Contains(TextOf(f, Email).value, "@"))
  {
    if NameMissing(f) {
      assert "name" in FormErrors(f);
    }
    if EmailInvalid(f) {
      assert "email" in FormErrors(f);
    }
    if TextOf(f, Email).Some? && TextOf(f, Email).value == "" {
      assert IsBlank(TextOf(f, Email).value);
    }
  }

  /** A visible name typed into the field removes the name error. */
  lemma TypingNameClearsNameError(f: Form, v: string)
    requires !IsBlank(v)
    ensures "name" !in FormErrors(f[Name := Text(v)])
    ensures ("email" in FormErrors(f[Name := Text(v)])) == ("email" in FormErrors(f))
  {
    assert TextOf(f[Name := Text(v)], Name) == Some(v);
    assert TextOf(f[Name := Text(v)], Email) == TextOf(f, Email);
  }

  /** An empty email is never an error. */
  lemma EmptyEmailAccepted(f: Form)
    ensures "email" !in FormErrors(f[Email := Text("")])
    ensures "email" !in FormErrors(f[Email := NullValue])
  {
  }

  // ---------------------------------------------------------------------
  // The dialog.

  /** The outcome of an awaited call: a value, or an exception. */
  datatype Call<T> = Threw | Returned(value: T)

  /** The `updatePerson` call of `handleSave`. */
  datatype UpdateCall = UpdateCall(table: string, id: string, data: Form)

  class Modal {
    const personType: Database.PersonType
    var person: Option<Person>
    var form: Form
    var errors: map<string, string>
    var loading: bool

    constructor (t: Database.PersonType)
      ensures personType == t && person == None
      ensures form == map[] && errors == map[] && !loading
    {
      personType := t;
      person := None;
      form := map[];
      errors := map[];
      loading := false;
    }

    /** The effect on a new `person` prop: the form is reloaded and the
        errors cleared, unless the prop is null. */
    method SetPerson(p: Option<Person>)
      modifies this
      ensures person == p && loading == old(loading)
      ensures p.Some? ==> form == FormOf(p.value) && errors == map[]
      ensures p.None? ==> form == old(form) && errors == old(errors)
    {
      person := p;
      if p.Some? {
        form := FormOf(p.value);
        errors := map[];
      }
    }

    /** `handleInputChange`: the field takes the typed text, and an error
        shown for it is blanked. */
    method HandleInputChange(field: Column, value: string)
      modifies this
      ensures form == old(form)[field := Text(value)]
      ensures var key := ColumnName(field);
              key in old(errors) && old(errors)[key] != "" ==> errors == old(errors)[key := ""]
      ensures var key := ColumnName(field);
              !(key in old(errors) && old(errors)[key] != "") ==> errors == old(errors)
      ensures person == old(person) && loading == old(loading)
    {
      form := form[field := Text(value)];
      var key := ColumnName(field);
      if key in errors && errors[key] != "" {
        errors := errors[key := ""];
      }
    }

    /** `validateForm`: the error map is rebuilt from nothing. */
    method ValidateForm() returns (valid: bool)
      modifies this
      ensures errors == FormErrors(form)
      ensures valid <==> errors == map[]
      ensures form == old(form) && person == old(person) && loading == old(loading)
    {
      FormErrorsCases(form);
      var newErrors: map<string, string> := map[];
      var name := TextOf(form, Name);
      if name.None? || IsBlank(name.value) {
        newErrors := newErrors["name" := NameRequired];
      }
      var email := TextOf(form, Email);
      if email.Some? && email.value != "" && !IsBlank(email.value) && !Contains(email.value, "@") {
        newErrors := newErrors["email" := InvalidEmail];
      }
      errors := newErrors;
      valid := |errors.Keys| == 0;
      if !valid {
        assert errors.Keys != {};
      }
    }

    /** `handleSave`. `update` is the outcome of `updatePerson` (the store's
        reply, or an exception) and `fetched` that of `getPersonById`;
        `saved` is the argument passed to `onSave` and `closed` whether
        `onClose` was called. */
    method HandleSave(update: Call<Result<()>>, fetched: Call<Result<Person>>)
      returns (call: Option<UpdateCall>, saved: Option<Person>, closed: bool)
      modifies this
      ensures person == old(person) && form == old(form) && !closed == saved.None?
      ensures old(person).None? ==> call.None? && saved.None? && errors == old(errors) && loading == old(loading)
      ensures old(person).Some? && FormErrors(form) != map[] ==>
                call.None? && saved.None? && errors == FormErrors(form) && loading == old(loading)
      ensures old(person).Some? && FormErrors(form) == map[] ==>
                call == Some(UpdateCall(Database.TableName(personType), PersonId(person.value), form))
                && !loading
      ensures call.Some? && update.Threw? ==> saved.None? && errors == map["general" := UpdateThrew]
      ensures call.Some? && update.Returned? && update.value.Err? ==>
                saved.None? && errors == map["general" := UpdateFailed]
      ensures call.Some? && update.Returned? && update.value.Ok? ==>
                (fetched.Threw? ==> saved.None? && errors == map["general" := UpdateThrew])
                && (fetched.Returned? ==> saved == Database.GetPersonById(fetched.value) && errors == map[])
      ensures saved.Some? ==> call.Some? && errors == map[]
    {
      call, saved, closed := None, None, false;
      if person.None? {
        return;
      }
      var valid := ValidateForm();
      if !valid {
        return;
      }
      loading := true;
      call := Some(UpdateCall(Database.TableName(personType), PersonId(person.value), form));
      match update {
        case Threw =>
          errors := map["general" := UpdateThrew];
        case Returned(reply) =>
          var success := Database.UpdatePerson(reply);
          if success {
            match fetched {
              case Threw =>
                errors := map["general" := UpdateThrew];
              case Returned(row) =>
                var updatedPerson := Database.GetPersonById(row);
                if updatedPerson.Some? {
                  saved := updatedPerson;
                  closed := true;
                }
            }
          } else {
            errors := map["general" := UpdateFailed];
          }
      }
      loading := false;
    }
  }
}
