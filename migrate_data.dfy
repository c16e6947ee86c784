/** The migration helpers of scripts/migrate-data.ts: one semicolon-separated
    line to an insert object, positionally, every value trimmed, a missing
    or blank value sent as NULL (`None`) and a missing name as ''. */
module MigrateData {
  import opened Common
  import opened Seqs

  datatype StaffMigration = StaffMigration(
    name: string,
    email: Option<string>,
    cellphone: Option<string>,
    igreja: Option<string>,
    country: Option<string>,
    nationality: Option<string>,
    area: Option<string>,
    kit_cama: Option<string>,
    quarto: Option<string>,
    healthy_form: Option<string>)

  datatype StudentMigration = StudentMigration(
    name: string,
    status: Option<string>,
    gender: Option<string>,
    email: Option<string>,
    phone: Option<string>,
    age: Option<string>,
    country: Option<string>,
    nationality: Option<string>,
    language: Option<string>,
    church: Option<string>,
    room: Option<string>,
    bed_kit: Option<string>,
    bus: Option<string>,
    documents: Option<string>,
    underage_doc: Option<string>,
    healthy_form: Option<string>,
    obs: Option<string>)

  /** `name?.trim() || ''`. */
  function TrimmedName(values: seq<string>): (r: string)
    ensures IsTrimmed(r)
    ensures |values| == 0 ==> r == ""
  {
    TrimIsTrimmed(Field(values, 0));
    Trim(Field(values, 0))
  }

  /** `value?.trim() || null` for the k-th column. */
  function NullIfBlank(values: seq<string>, k: nat): Option<string> {
    if k < |values| && Trim(values[k]) != "" then Some(Trim(values[k])) else None
  }

  /** A value as the migration sends it: absent, or trimmed and non-empty. */
  predicate Clean(o: Option<string>) {
    o.Some? ==> o.value != "" && IsTrimmed(o.value)
  }

  /** A column is sent as NULL iff it is missing or blank, and otherwise as
      its trimmed, non-empty text. */
  lemma NullIfBlankMeaning(values: seq<string>, k: nat)
    ensures NullIfBlank(values, k).None? <==> k >= |values| || IsBlank(values[k])
    ensures NullIfBlank(values, k).Some? ==> NullIfBlank(values, k).value == Trim(values[k])
    ensures Clean(NullIfBlank(values, k))
  {
    if k < |values| {
      TrimIsTrimmed(values[k]);
    }
  }

  /** Columns 1 to n of a line, each through `trim() || null`. */
  function Optionals(values: seq<string>, n: nat): (r: seq<Option<string>>)
    ensures |r| == n
    ensures forall k :: 0 <= k < n ==> r[k] == NullIfBlank(values, k + 1)
  {
    if n == 0 then [] else Optionals(values, n - 1) + [NullIfBlank(values, n)]
  }

  lemma OptionalsClean(values: seq<string>, n: nat)
    ensures forall k :: 0 <= k < n ==> Clean(Optionals(values, n)[k])
  {
    forall k | 0 <= k < n
      ensures Clean(Optionals(values, n)[k])
    {
      NullIfBlankMeaning(values, k + 1);
    }
  }

  /** The object literal, from its name and its other 9 values in column order. */
  function StaffOf(name: string, o: seq<Option<string>>): (r: StaffMigration)
    requires |o| == 9
    ensures StaffValues(r) == o
  {
    StaffMigration(name, o[0], o[1], o[2], o[3], o[4], o[5], o[6], o[7], o[8])
  }

  /** The values after the name, in column order. */
  function StaffValues(m: StaffMigration): seq<Option<string>> {
    [m.email, m.cellphone, m.igreja, m.country, m.nationality, m.area, m.kit_cama, m.quarto, m.healthy_form]
  }

  /** The object literal, from its name and its other 16 values in column order. */
  function StudentOf(name: string, o: seq<Option<string>>): (r: StudentMigration)
    requires |o| == 16
    ensures StudentValues(r) == o
  {
    StudentMigration(name, o[0], o[1], o[2], o[3], o[4], o[5], o[6], o[7], o[8], o[9], o[10], o[11], o[12], o[13], o[14], o[15])
  }

  /** The values after the name, in column order. */
  function StudentValues(m: StudentMigration): seq<Option<string>> {
    [m.status, m.gender, m.email, m.phone, m.age, m.country, m.nationality, m.language, m.church, m.room, m.bed_kit, m.bus, m.documents, m.underage_doc, m.healthy_form, m.obs]
  }

  /** `csvRowToStaff`: name, then the next 9 columns email … healthy_form;
      the name and every value come out trimmed, a value never as ''. */
  function CsvRowToStaff(row: string): (r: StaffMigration)
    ensures IsTrimmed(r.name)
    ensures forall k :: 0 <= k < |StaffValues(r)| ==> Clean(StaffValues(r)[k])
  {
    var values := Split(row, ';');
    OptionalsClean(values, 9);
    StaffOf(TrimmedName(values), Optionals(values, 9))
  }

  /** `csvRowToStudent`: name, then the next 16 columns status … obs. */
  function CsvRowToStudent(row: string): (r: StudentMigration)
    ensures IsTrimmed(r.name)
    ensures forall k :: 0 <= k < |StudentValues(r)| ==> Clean(StudentValues(r)[k])
  {
    var values := Split(row, ';');
    OptionalsClean(values, 16);
    StudentOf(TrimmedName(values), Optionals(values, 16))
  }

  /** Columns past the first n + 1 do not change what the mapping reads. */
  lemma OptionalsIgnoreExtra(values: seq<string>, more: seq<string>, n: nat)
    requires n < |values|
    ensures TrimmedName(values + more) == TrimmedName(values)
    ensures Optionals(values + more, n) == Optionals(values, n)
  {
    assert forall k :: 0 <= k < |values| ==> (values + more)[k] == values[k];
  }

  /** Columns after the tenth are ignored. */
  lemma StaffExtraColumnsIgnored(row: string, extra: string)
    requires |Split(row, ';')| >= 10
    ensures CsvRowToStaff(row + ";" + extra) == CsvRowToStaff(row)
  {
    SplitAppend(row, extra, ';');
    OptionalsIgnoreExtra(Split(row, ';'), Split(extra, ';'), 9);
  }

  /** Columns after the seventeenth are ignored. */
  lemma StudentExtraColumnsIgnored(row: string, extra: string)
    requires |Split(row, ';')| >= 17
    ensures CsvRowToStudent(row + ";" + extra) == CsvRowToStudent(row)
  {
    SplitAppend(row, extra, ';');
    OptionalsIgnoreExtra(Split(row, ';'), Split(extra, ';'), 16);
  }

  /** A clean value written as its column reads back as itself. */
  lemma ColumnReadBack(cols: seq<string>, k: nat, o: Option<string>)
    requires k < |cols| && cols[k] == OrEmpty(o) && Clean(o)
    ensures NullIfBlank(cols, k) == o
  {
    TrimFixpoint(cols[k]);
  }

  /** Clean values, written as the columns after a name (NULL as ''), read
      back as themselves. */
  lemma OptionalsReadBack(name: string, o: seq<Option<string>>)
    requires forall k :: 0 <= k < |o| ==> Clean(o[k])
    ensures Optionals([name] + Map(OrEmpty, o), |o|) == o
  {
    forall k | 0 <= k < |o|
      ensures Optionals([name] + Map(OrEmpty, o), |o|)[k] == o[k]
    {
      OptionalReadBack(name, o, k);
    }
  }

  lemma OptionalReadBack(name: string, o: seq<Option<string>>, k: nat)
    requires k < |o| && Clean(o[k])
    ensures Optionals([name] + Map(OrEmpty, o), |o|)[k] == o[k]
  {
    var cols := [name] + Map(OrEmpty, o);
    assert cols[k + 1] == OrEmpty(o[k]);
    ColumnReadBack(cols, k + 1, o[k]);
  }

  /** A trimmed name and clean values, written as a line's columns, read
      back as themselves. */
  lemma ColumnsReadBack(name: string, o: seq<Option<string>>)
    requires IsTrimmed(name)
    requires forall k :: 0 <= k < |o| ==> Clean(o[k])
    ensures TrimmedName([name] + Map(OrEmpty, o)) == name
    ensures Optionals([name] + Map(OrEmpty, o), |o|) == o
  {
    TrimFixpoint(name);
    OptionalsReadBack(name, o);
  }

  /** The line a staff object is written as, NULL as ''. */
  function StaffLine(m: StaffMigration): string {
    Join([m.name] + Map(OrEmpty, StaffValues(m)), ";")
  }

  function StudentLine(m: StudentMigration): string {
    Join([m.name] + Map(OrEmpty, StudentValues(m)), ";")
  }

  predicate NoSeparator(name: string, o: seq<Option<string>>) {
    ';' !in name && forall k :: 0 <= k < |o| ==> ';' !in OrEmpty(o[k])
  }

  lemma SplitColumns(name: string, o: seq<Option<string>>)
    requires NoSeparator(name, o)
    ensures Split(Join([name] + Map(OrEmpty, o), ";"), ';') == [name] + Map(OrEmpty, o)
  {
    var cols := [name] + Map(OrEmpty, o);
    forall k | 0 <= k < |cols|
      ensures ';' !in cols[k]
    {
      if k > 0 {
        assert cols[k] == OrEmpty(o[k - 1]);
      }
    }
    SplitJoin(cols, ';');
  }

  /** Writing a clean staff object as a line and migrating the line gives
      the object back. */
  lemma StaffRoundTrip(m: StaffMigration)
    requires IsTrimmed(m.name) && forall k :: 0 <= k < |StaffValues(m)| ==> Clean(StaffValues(m)[k])
    requires NoSeparator(m.name, StaffValues(m))
    ensures CsvRowToStaff(StaffLine(m)) == m
  {
    SplitColumns(m.name, StaffValues(m));
    ColumnsReadBack(m.name, StaffValues(m));
  }

  /** Writing a clean student object as a line and migrating the line gives
      the object back. */
  lemma StudentRoundTrip(m: StudentMigration)
    requires IsTrimmed(m.name) && forall k :: 0 <= k < |StudentValues(m)| ==> Clean(StudentValues(m)[k])
    requires NoSeparator(m.name, StudentValues(m))
    ensures CsvRowToStudent(StudentLine(m)) == m
  {
    SplitColumns(m.name, StudentValues(m));
    ColumnsReadBack(m.name, StudentValues(m));
  }
}
