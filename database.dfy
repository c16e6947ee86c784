/** The generic person service of lib/database.ts: which table a person
    type lives in, the check-in and uncheck update objects with the log
    record that follows them, the statistics count, and the search filter.
    Each store call is replaced by its reply. */
module Database {
  import opened Common
  import opened Seqs
  import opened Types
  import opened Tables

  datatype PersonType = StaffType | StudentType

  /** `type === 'staff' ? 'staff' : 'students'`. */
  function TableName(t: PersonType): string {
    if t == StaffType then "staff" else "students"
  }

  /** The `person_type` written to the log: the type's own name. */
  function PersonTypeName(t: PersonType): string {
    if t == StaffType then "staff" else "student"
  }

  /** Each person type has its own table, and the table names it. */
  lemma TableNameSelects(t: PersonType)
    ensures TableName(t) == "staff" <==> t == StaffType
    ensures TableName(t) == "students" <==> t == StudentType
    ensures TableName(t) != PersonTypeName(t) <==> t == StudentType
  {
  }

  function PersonName(p: Person): string {
    match p
    case StaffPerson(s) => s.name
    case StudentPerson(s) => s.name
  }

  // ---------------------------------------------------------------------
  // Check-in and uncheck.

  /** The two-key update object of `checkIn` and `uncheck`. */
  datatype CheckPatch = CheckPatch(checked_in: bool, checked_in_at: Cell<string>)

  /** `{ checked_in: true, checked_in_at: new Date().toISOString() }`. */
  function CheckInPatch(now: Date): CheckPatch {
    CheckPatch(true, Given(now.iso))
  }

  /** `{ checked_in: false, checked_in_at: null }`. */
  function UncheckPatch(): CheckPatch {
    CheckPatch(false, Null)
  }

  /** The store's effect of the two-key update object on a row. */
  function ApplyCheck(p: Person, c: CheckPatch): (r: Person)
    ensures r.StaffPerson? <==> p.StaffPerson?
  {
    match p
    case StaffPerson(s) =>
      StaffPerson(ApplyStaffPatch(s, EmptyStaffPatch.(checked_in := Some(c.checked_in), checked_in_at := c.checked_in_at)))
    case StudentPerson(s) =>
      StudentPerson(ApplyStudentPatch(s, EmptyStudentPatch.(checked_in := Some(c.checked_in), checked_in_at := c.checked_in_at)))
  }

  /** The row with its two check-in columns set and every other column kept. */
  function WithCheck(p: Person, checkedIn: bool, at: Option<string>): Person {
    match p
    case StaffPerson(s) => StaffPerson(s.(checked_in := checkedIn, checked_in_at := at))
    case StudentPerson(s) => StudentPerson(s.(checked_in := checkedIn, checked_in_at := at))
  }

  /** Checking in marks the row checked in at the given time and changes nothing else. */
  lemma CheckInSetsTimestamp(p: Person, now: Date)
    ensures ApplyCheck(p, CheckInPatch(now)) == WithCheck(p, true, Some(now.iso))
  {
  }

  /** Unchecking marks the row pending and clears its timestamp, unlike the
      check-out of the two data services. */
  lemma UncheckClearsTimestamp(p: Person)
    ensures ApplyCheck(p, UncheckPatch()) == WithCheck(p, false, None)
  {
  }

  /** Unchecking undoes a check-in of a pending row completely. */
  lemma UncheckUndoesCheckIn(p: Person, now: Date)
    requires p.StaffPerson? ==> !p.staff.checked_in && p.staff.checked_in_at == None
    requires p.StudentPerson? ==> !p.student.checked_in && p.student.checked_in_at == None
    ensures ApplyCheck(ApplyCheck(p, CheckInPatch(now)), UncheckPatch()) == p
  {
    CheckInSetsTimestamp(p, now);
    UncheckClearsTimestamp(WithCheck(p, true, Some(now.iso)));
  }

  /** A row of table `checkin_log`. */
  datatype LogEntry = LogEntry(person_id: string, person_type: string, person_name: string,
                               action: string, performed_by: string)

  /** The object `logAction` inserts; `performed_by` falls back to 'unknown'. */
  function LogRecord(personId: string, t: PersonType, name: string, action: string,
                     performedBy: Option<string>): (r: LogEntry)
    ensures r.person_id == personId && r.person_type == PersonTypeName(t)
    ensures r.person_name == name && r.action == action
    ensures r.performed_by != ""
    ensures Truthy(performedBy) ==> r.performed_by == performedBy.value
    ensures !Truthy(performedBy) ==> r.performed_by == "unknown"
  {
    LogEntry(personId, PersonTypeName(t), name, action, if Truthy(performedBy) then performedBy.value else "unknown")
  }

  /** The update that `checkIn` and `uncheck` send. */
  datatype CheckRequest = CheckRequest(table: string, id: string, patch: CheckPatch)

  /** `checkIn`: `reply` is the store's answer to the update (the updated row
      or nothing, or an error). The log is written only when a row came back. */
  method CheckIn(t: PersonType, personId: string, performedBy: Option<string>, now: Date,
                 reply: Result<Option<Person>>)
    returns (ok: bool, request: CheckRequest, log: Option<LogEntry>)
    ensures request == CheckRequest(TableName(t), personId, CheckInPatch(now))
    ensures ok <==> reply.Ok?
    ensures log.Some? <==> reply.Ok? && reply.value.Some?
    ensures log.Some? ==> log.value == LogRecord(personId, t, PersonName(reply.value.value), "checked_in", performedBy)
  {
    request := CheckRequest(TableName(t), personId, CheckInPatch(now));
    if reply.Err? {
      return false, request, None;
    }
    log := None;
    if reply.value.Some? {
      log := Some(LogRecord(personId, t, PersonName(reply.value.value), "checked_in", performedBy));
    }
    ok := true;
  }

  /** `uncheck`. */
  method Uncheck(t: PersonType, personId: string, performedBy: Option<string>,
                 reply: Result<Option<Person>>)
    returns (ok: bool, request: CheckRequest, log: Option<LogEntry>)
    ensures request == CheckRequest(TableName(t), personId, UncheckPatch())
    ensures ok <==> reply.Ok?
    ensures log.Some? <==> reply.Ok? && reply.value.Some?
    ensures log.Some? ==> log.value == LogRecord(personId, t, PersonName(reply.value.value), "unchecked", performedBy)
  {
    request := CheckRequest(TableName(t), personId, UncheckPatch());
    if reply.Err? {
      return false, request, None;
    }
    log := None;
    if reply.value.Some? {
      log := Some(LogRecord(personId, t, PersonName(reply.value.value), "unchecked", performedBy));
    }
    ok := true;
  }

  // ---------------------------------------------------------------------
  // Reads.

  /** `getAllPeople`, `getPendingPeople`, `getCheckedInPeople`, `searchPeople`:
      an error, and a reply without data, give the empty list. */
  function FetchPeople(reply: Result<Option<seq<Person>>>): (r: seq<Person>)
    ensures reply.Err? ==> r == []
    ensures reply.Ok? && reply.value.Some? ==> r == reply.value.value
    ensures reply == Ok(None) ==> r == []
  {
    if reply.Err? then [] else reply.value.GetOr([])
  }

  /** `getPersonById`: an error gives null. */
  function GetPersonById(reply: Result<Person>): (r: Option<Person>)
    ensures r.Some? <==> reply.Ok?
    ensures r.Some? ==> r.value == reply.value
  {
    if reply.Ok? then Some(reply.value) else None
  }

  /** `updatePerson`: success iff the store reported no error. */
  function UpdatePerson(reply: Result<()>): (ok: bool)
    ensures ok <==> reply.Ok?
  {
    reply.Ok?
  }

  // ---------------------------------------------------------------------
  // Statistics.

  datatype Stats = Stats(total: int, checkedIn: int, pending: int)

  function IsTrue(b: bool): bool { b }

  /** The number of rows with `checked_in` set. */
  function CountChecked(flags: seq<bool>): nat {
    |Filter(IsTrue, flags)|
  }

  /** `getStats`: `reply` holds the `checked_in` column of every row. */
  function GetStats(reply: Result<Option<seq<bool>>>): (r: Stats)
    ensures reply.Err? ==> r == Stats(0, 0, 0)
    ensures r.pending + r.checkedIn == r.total
    ensures 0 <= r.checkedIn <= r.total
    ensures reply.Ok? ==> r.total == |reply.value.GetOr([])|
    ensures reply.Ok? ==> r.checkedIn == multiset(reply.value.GetOr([]))[true]
    ensures reply.Ok? ==> r.pending == multiset(reply.value.GetOr([]))[false]
  {
    if reply.Err? then Stats(0, 0, 0)
    else
      var rows := reply.value.GetOr([]);
      var total := |rows|;
      var checkedIn := CountChecked(rows);
      CountCheckedOccurrences(rows);
      FlagsSplit(rows);
      Stats(total, checkedIn, total - checkedIn)
  }

  /** The count agrees with the number of occurrences of `true`. */
  lemma {:induction false} CountCheckedOccurrences(flags: seq<bool>)
    ensures CountChecked(flags) == multiset(flags)[true]
  {
    if flags != [] {
      var pre := flags[..|flags| - 1];
      CountCheckedOccurrences(pre);
      assert flags == pre + [flags[|flags| - 1]];
    }
  }

  /** Every flag is `true` or `false`, so the two counts add up to the length. */
  lemma {:induction false} FlagsSplit(flags: seq<bool>)
    ensures multiset(flags)[true] + multiset(flags)[false] == |flags|
  {
    if flags != [] {
      var pre := flags[..|flags| - 1];
      FlagsSplit(pre);
      assert flags == pre + [flags[|flags| - 1]];
      assert multiset(flags) == multiset(pre) + multiset{flags[|flags| - 1]};
      if flags[|flags| - 1] {
        assert multiset(flags)[true] == multiset(pre)[true] + 1 && multiset(flags)[false] == multiset(pre)[false];
      } else {
        assert multiset(flags)[false] == multiset(pre)[false] + 1 && multiset(flags)[true] == multiset(pre)[true];
      }
    }
  }

  /** Checking in one pending row moves exactly one from pending to checked in. */
  lemma StatsAfterCheckIn(flags: seq<bool>, k: nat)
    requires k < |flags| && !flags[k]
    ensures GetStats(Ok(Some(flags[k := true]))).checkedIn == GetStats(Ok(Some(flags))).checkedIn + 1
    ensures GetStats(Ok(Some(flags[k := true]))).pending == GetStats(Ok(Some(flags))).pending - 1
    ensures GetStats(Ok(Some(flags[k := true]))).total == GetStats(Ok(Some(flags))).total
  {
    CountCheckedOccurrences(flags);
    CountCheckedOccurrences(flags[k := true]);
    assert flags[k := true] == flags[..k] + [true] + flags[k + 1..];
    assert flags == flags[..k] + [false] + flags[k + 1..];
  }

  // ---------------------------------------------------------------------
  // The search filter.

  /** The column holding the church: `igreja` for staff, `church` for students. */
  function ChurchColumn(t: PersonType): string {
    if t == StaffType then "igreja" else "church"
  }

  function IlikeClause(column: string, query: string): string {
    column + ".ilike.%" + query + "%"
  }

  /** The `or` filter of `searchPeople`. */
  function SearchFilter(t: PersonType, query: string): string {
    IlikeClause("name", query) + "," + IlikeClause("email", query) + ","
    + IlikeClause("country", query) + "," + IlikeClause(ChurchColumn(t), query)
  }

  /** Splitting four comma-separated pieces. */
  lemma SplitFour(a: string, b: string, c: string, d: string)
    ensures Split(a + "," + b + "," + c + "," + d, ',')
            == Split(a, ',') + Split(b, ',') + Split(c, ',') + Split(d, ',')
  {
    SplitAppend(a + "," + b + "," + c, d, ',');
    SplitAppend(a + "," + b, c, ',');
    SplitAppend(a, b, ',');
  }

  /** A query without commas yields exactly four conditions, a
      case-insensitive substring match on name, email, country and church. */
  lemma SearchFilterClauses(t: PersonType, query: string)
    requires ',' !in query
    ensures Split(SearchFilter(t, query), ',')
            == [IlikeClause("name", query), IlikeClause("email", query),
                IlikeClause("country", query), IlikeClause(ChurchColumn(t), query)]
  {
    SplitFour(IlikeClause("name", query), IlikeClause("email", query),
              IlikeClause("country", query), IlikeClause(ChurchColumn(t), query));
    SplitNoSep(IlikeClause("name", query), ',');
    SplitNoSep(IlikeClause("email", query), ',');
    SplitNoSep(IlikeClause("country", query), ',');
    SplitNoSep(IlikeClause(ChurchColumn(t), query), ',');
  }

  /** A clause whose query holds one comma falls apart in two. */
  lemma ClauseWithComma(column: string, a: string, b: string)
    requires ',' !in column && ',' !in a && ',' !in b
    ensures |Split(IlikeClause(column, a + "," + b), ',')| == 2
  {
    assert IlikeClause(column, a + "," + b) == (column + ".ilike.%" + a) + [','] + (b + "%");
    SplitPrefix(column + ".ilike.%" + a, b + "%", ',');
    SplitNoSep(b + "%", ',');
  }

  /** A comma in the query is read as a separator of the filter, so each of
      the four conditions is cut in two and the filter holds eight pieces. */
  lemma SearchFilterCommaSplits(t: PersonType, a: string, b: string)
    requires ',' !in a && ',' !in b
    ensures |Split(SearchFilter(t, a + "," + b), ',')| == 8
  {
    var q := a + "," + b;
    SplitFour(IlikeClause("name", q), IlikeClause("email", q),
              IlikeClause("country", q), IlikeClause(ChurchColumn(t), q));
    ClauseWithComma("name", a, b);
    ClauseWithComma("email", a, b);
    ClauseWithComma("country", a, b);
    ClauseWithComma(ChurchColumn(t), a, b);
  }
}
