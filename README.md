# Event check-in: a Dafny model of its core logic

The repository is a React and Supabase application for checking in students
and staff members at an event. This project models the logic beneath its
screens and store calls:

- the check-in page's split of the roster into pending and checked-in lists,
  its search filter and its four-view navigator (`app/page.tsx`);
- the store services: row-to-record mapping, the sparse update object that
  keeps only truthy fields, and check-in and check-out
  (`data/studentData.ts`, `data/staffMemberData.ts`);
- the generic person service: table selection, the check-in and uncheck
  update objects, the log record, the statistics and the search filter
  (`lib/database.ts`);
- the three semicolon-separated file readers: the bundled roster parser
  (`utils/csvParser.ts`), the import script with its batched inserts
  (`scripts/import-all-data.ts`) and the migration row converters
  (`scripts/migrate-data.ts`);
- the administration screen's filters and replace-by-id updates
  (`app/admin/page.tsx`);
- the edit form: loading a person, typing, validation and save
  (`components/EditPersonModal.tsx`);
- the staff member card's optimistic toggle and merge
  (`components/StaffMemberDetail.tsx`);
- the staff detail screen's labels, badge colours and shown sections
  (`components/StaffDetail.tsx`).

There is one Dafny module per source file, plus four shared ones:

- `Common`: options, results, JavaScript white space and `trim`, ASCII
  lower-casing, substring search, `split` and `join`, and decimal numerals.
- `Seqs`: filter, map and concatenation over sequences.
- `Types`: the records of `types/staff.ts`, with their optional update
  records.
- `Tables`: the remote rows of `lib/supabase.ts`, the update objects sent to
  the store, and what the store does with them.

A store call is modelled by its reply. The reply is a parameter: the row or
rows the store returns, or an error. The store overwrites exactly the
columns named in an update object (`Tables.ApplyStudentPatch`). On that
assumption, each service's update is proved to read back as the local merge
of the updates into the record. State that a component changes in place is
a class with those fields: `CheckInPage.Page`, `AdminPage.Admin`,
`EditPersonModal.Modal` and `StaffMemberDetail.Detail`. Each loop in the
source is a method with loop invariants, proved against a function that
specifies it:

- the roster split (`CheckInPage.Partition`);
- the staff file reader (`ImportAllData.ParseStaffLines`);
- the batch inserts (`ImportAllData.InsertBatches`).

Code that fills an object one conditional assignment at a time is a
straight-line method, proved equal to the function that specifies it:

- the sparse update builders (`StudentData.BuildPatch` and
  `StaffMemberData.BuildPatch`, both equal to their `SparsePatch`);
- the form validation (`EditPersonModal.Modal.ValidateForm`, equal to
  `EditPersonModal.FormErrors`).

## Model

| member | source | states |
|---|---|---|
| CheckInPage.Partition | app/page.tsx:31-44 | the loop builds exactly the pending list and the checked-in list that the specification functions define |
| CheckInPage.PartitionStep | app/page.tsx:35-41 | one loop step appends the record, re-flagged, to exactly one of the two lists: checked in iff its id is in the checked-in ids |
| CheckInPage.PartitionSnoc | app/page.tsx:35-41 | appending a record to the roster appends it to the checked-in list iff its id is listed, and to the pending list otherwise |
| CheckInPage.PartitionFlags | app/page.tsx:37-39 | every pending record has `checkedIn` false and no listed id; every checked-in record has `checkedIn` true and a listed id |
| CheckInPage.PartitionComplete | app/page.tsx:31-44 | the two lists together are a permutation of the roster (multisets add up), so no record is lost or duplicated |
| CheckInPage.PartitionPlacesRecord | app/page.tsx:35-40 | each roster record, re-flagged, is in the checked-in list if its id is listed and in the pending list otherwise |
| CheckInPage.PartitionKeepsOrder | app/page.tsx:31-44 | both lists keep roster order: two positions of a list come from two roster positions in the same order |
| CheckInPage.MarkedOrder | app/page.tsx:35-41 | a filtered and re-flagged list keeps the order of its source |
| CheckInPage.FilterByQuery | app/page.tsx:47-73 | the filtered list is never longer than the list |
| CheckInPage.BlankQueryKeepsList | app/page.tsx:48 | an empty or white-space query returns the list unchanged |
| CheckInPage.MatchesQuery | app/page.tsx:51-58 | the search test on name, email, country, church, language and room; `CheckInPage.QueryMembership` proves the filter keeps exactly the records it accepts |
| CheckInPage.QueryMembership | app/page.tsx:50-58 | for a non-blank query, a record is listed iff it is in the list and its lower-cased name, email, country, church, language or room contains the lower-cased query, which is not trimmed |
| CheckInPage.QueryKeepsOrder | app/page.tsx:51-58 | the filtered list keeps list order |
| CheckInPage.LowerIdempotent | app/page.tsx:50 | lower-casing twice is lower-casing once |
| CheckInPage.ToLowerAppend | app/page.tsx:50 | lower-casing distributes over concatenation |
| CheckInPage.LowerKeepsBlank | app/page.tsx:48-50 | a query is blank iff its lower-cased form is blank |
| CheckInPage.QueryCaseInsensitive | app/page.tsx:47-73 | filtering by the lower-cased query gives the same list as filtering by the query |
| CheckInPage.QueryNarrows | app/page.tsx:47-73 | a record shown for a longer query is also shown for any non-blank prefix of it |
| CheckInPage.RemoveId | app/page.tsx:91 | removing an id never lengthens the id list |
| CheckInPage.RemoveIdMembership | app/page.tsx:91 | an id stays listed iff it was listed and differs from the removed id, so every occurrence goes |
| CheckInPage.CheckInThenUncheck | app/page.tsx:84-94 | checking in and then unchecking leaves the id absent and the other ids as unchecking alone would leave them |
| CheckInPage.Page.constructor | app/page.tsx:16-22 | starts in the pending view with no selection, an empty query, no roster and no checked-in ids |
| CheckInPage.Page.LoadStaff | app/page.tsx:25-28 | replaces the roster and keeps the view, the selection, the query and the ids |
| CheckInPage.Page.SetQuery | app/page.tsx:16 | sets the query and keeps everything else |
| CheckInPage.Page.SelectStaff | app/page.tsx:75-82 | selects the record and opens the checked-in detail view if it is flagged checked in, the detail view otherwise |
| CheckInPage.Page.CheckIn | app/page.tsx:84-88 | appends the id, duplicates allowed, returns to the pending view and clears the selection |
| CheckInPage.Page.Uncheck | app/page.tsx:90-94 | removes every occurrence of the id, so it is absent, opens the completed view and clears the selection |
| CheckInPage.Page.Back | app/page.tsx:96-104 | goes to the completed view from the checked-in detail view and to the pending view otherwise, clears the selection, keeps the query |
| CheckInPage.Page.ChangeView | app/page.tsx:106-111 | the two list views are set and clear the selection; the two detail views change nothing |
| StudentData.RowToStaff | data/studentData.ts:19-40 | the record keeps the row's id, name and flag, and has a check-in time iff the row's `checked_in_at` is truthy, holding that text; every other field is `''` iff its column is missing or empty and the column's text otherwise, with `bed_kit`, `underage_doc` and `healthy_form` read into `bedKit`, `underageDoc` and `healthyForm` |
| StudentData.Keep | data/studentData.ts:52-68 | a text is sent iff it is truthy, and then unchanged |
| StudentData.SparsePatch | data/studentData.ts:50-70 | each text field is sent iff truthy; `checked_in` is sent whenever given, false included; `checked_in_at` is sent iff a time is given, as its ISO text, and is never null |
| StudentData.BuildPatch | data/studentData.ts:50-70 | the field-by-field construction builds exactly that sparse update object |
| StudentData.UpdateReadsBackMerged | data/studentData.ts:47-106 | applying the sparse update and mapping the row back gives the record merged with the truthy updates |
| StudentData.EmptyUpdateIsNoop | data/studentData.ts:50-70 | no updates give the empty update object, which changes neither the row nor the record |
| StudentData.ClearingIsNotSent | data/studentData.ts:58 | an emptied field is not sent, and the stored value is what reads back |
| StudentData.UpdateStudent | data/studentData.ts:47-111 | an error gives null; otherwise the row the store returns, mapped, equals the merge of the updates into the stored record, with the same id |
| StudentData.GetAllStudents | data/studentData.ts:6-45 | an error gives the empty list; otherwise one record per row, in row order, each the row's mapping |
| StudentData.GetStudentById | data/studentData.ts:113-152 | a record iff no error, and then the row's mapping |
| StudentData.CheckPatchShapes | data/studentData.ts:154-170 | the check-in update object sends flag and time; the check-out one sends only `checked_in: false` |
| StudentData.CheckInStudent | data/studentData.ts:154-161 | success iff the store returned no error |
| StudentData.CheckOutStudent | data/studentData.ts:163-170 | success iff the store returned no error |
| StudentData.CheckInReadsBack | data/studentData.ts:154-161 | a checked-in row reads back checked in at the given time |
| StudentData.CheckOutLeavesTimestamp | data/studentData.ts:163-170 | as written, a checked-out row reads back not checked in but still with its old check-in time |
| StudentData.ClearingCheckOutRestoresInvariant | lib/database.ts:85-88 | the update that also nulls `checked_in_at` reads back not checked in, with no time, and otherwise unchanged |
| StaffMemberData.RowToStaffMember | data/staffMemberData.ts:19-33 | the record keeps the row's id, name and flag, and has a check-in time iff the row's `checked_in_at` is truthy; every other field is `''` iff its column is missing or empty and the column's text otherwise, with `kit_cama` and `healthy_form` read into `kitCama` and `healthyForm` |
| StaffMemberData.Keep | data/staffMemberData.ts:45-54 | a text is sent iff it is truthy, and then unchanged |
| StaffMemberData.SparsePatch | data/staffMemberData.ts:43-56 | each of the ten text fields is sent iff truthy; `checked_in` whenever given; `checked_in_at` iff given, never null |
| StaffMemberData.BuildPatch | data/staffMemberData.ts:43-56 | the field-by-field construction builds exactly that sparse update object |
| StaffMemberData.UpdateReadsBackMerged | data/staffMemberData.ts:40-85 | applying the sparse update and mapping back gives the record merged with the truthy updates |
| StaffMemberData.EmptyUpdateIsNoop | data/staffMemberData.ts:43-56 | no updates change neither the row nor the record |
| StaffMemberData.UpdateStaffMember | data/staffMemberData.ts:40-90 | an error gives null; otherwise the returned row, mapped, equals the merge of the updates into the stored record |
| StaffMemberData.GetAllStaff | data/staffMemberData.ts:6-38 | an error gives the empty list; otherwise one record per row, in row order |
| StaffMemberData.GetStaffMemberById | data/staffMemberData.ts:92-124 | a record iff no error, and then the row's mapping |
| StaffMemberData.CheckPatchShapes | data/staffMemberData.ts:126-142 | check-in sends flag and time; check-out sends only `checked_in: false` |
| StaffMemberData.CheckInStaffMember | data/staffMemberData.ts:126-133 | success iff the store returned no error |
| StaffMemberData.CheckOutStaffMember | data/staffMemberData.ts:135-142 | success iff the store returned no error |
| StaffMemberData.CheckOutLeavesTimestamp | data/staffMemberData.ts:135-142 | as written, a checked-out row keeps its old check-in time |
| Tables.ApplyStudentPatch | data/studentData.ts:72-77 | the store's update keeps the row's id |
| Tables.ApplyStaffPatch | data/staffMemberData.ts:58-63 | the store's update keeps the row's id |
| Tables.EmptyStudentPatchNoop | data/studentData.ts:72-77 | an empty update object leaves a student row as it was |
| Tables.EmptyStaffPatchNoop | data/staffMemberData.ts:58-63 | an empty update object leaves a staff row as it was |
| Database.TableName | lib/database.ts:12 | the table chosen by `type === 'staff' ? 'staff' : 'students'`; `Database.TableNameSelects` proves which type selects which table |
| Database.CheckInPatch | lib/database.ts:60-63 | the check-in update object, flag true with the current time; `Database.CheckInSetsTimestamp` proves it sets those two columns and no other |
| Database.UncheckPatch | lib/database.ts:85-88 | the uncheck update object, flag false with a null time; `Database.UncheckClearsTimestamp` and `Database.UncheckUndoesCheckIn` prove its effect and that it undoes check-in |
| Database.TableNameSelects | lib/database.ts:12 | `'staff'` selects table `staff` and `'student'` selects `students`, the one type whose table is not its own name |
| Database.ApplyCheck | lib/database.ts:58-66 | the check update keeps the person's kind |
| Database.CheckInSetsTimestamp | lib/database.ts:60-63 | checking in sets the flag and the time and changes no other column |
| Database.UncheckClearsTimestamp | lib/database.ts:85-88 | unchecking clears the flag and nulls the time, changing nothing else |
| Database.UncheckUndoesCheckIn | lib/database.ts:57-104 | on a pending row without a time, check-in then uncheck restores the row |
| Database.LogRecord | lib/database.ts:123-138 | the log entry carries the person, the type's name, the action and `performed_by`, which falls back to `'unknown'` when not truthy and is never empty |
| Database.CheckIn | lib/database.ts:57-79 | sends the check-in update to the type's table; success iff no error; a `checked_in` log entry iff a row came back |
| Database.Uncheck | lib/database.ts:82-104 | sends the uncheck update; success iff no error; an `unchecked` log entry iff a row came back |
| Database.FetchPeople | lib/database.ts:10-54 | an error or no data gives the empty list; otherwise the rows returned |
| Database.GetPersonById | lib/database.ts:222-235 | a person iff no error |
| Database.UpdatePerson | lib/database.ts:207-219 | success iff no error |
| Database.GetStats | lib/database.ts:146-161 | an error gives all zeros; otherwise the total is the row count, `checkedIn` is the number of rows with `checked_in` set, `pending` the number without it, and the two add up to the total |
| Database.CountCheckedOccurrences | lib/database.ts:157 | the checked-in count is the number of `true` flags |
| Database.CountChecked | lib/database.ts:157 | the number of rows the `checked_in` filter keeps; `Database.CountCheckedOccurrences` proves it the number of `true` flags |
| Database.FlagsSplit | lib/database.ts:156-158 | the `true` and `false` flags add up to the row count, so `total - checkedIn` is the number of pending rows |
| Database.StatsAfterCheckIn | lib/database.ts:156-160 | checking in one pending row moves one from pending to checked in and keeps the total |
| Database.SearchFilter | lib/database.ts:111 | the `or` filter text of `searchPeople`; `Database.SearchFilterClauses` and `Database.SearchFilterCommaSplits` prove what it selects with and without a comma in the query |
| Database.SplitFour | lib/database.ts:111 | four comma-joined pieces without commas split back into those four |
| Database.SearchFilterClauses | lib/database.ts:111 | for a query without commas, the filter is four `ilike %query%` conditions on name, email, country and `igreja` or `church` by type |
| Database.ClauseWithComma | lib/database.ts:111 | a condition whose query holds one comma splits into two pieces |
| Database.SearchFilterCommaSplits | lib/database.ts:111 | a query with one comma turns the filter into eight pieces, not four |
| CsvParser.ParseLine | utils/csvParser.ts:8-23 | a record has id `staff-N` and is not checked in |
| CsvParser.Numbered | utils/csvParser.ts:7-23 | one record per data line, numbered from 1 in line order |
| CsvParser.Lines | utils/csvParser.ts:4 | the trimmed content has at least one line, the header |
| CsvParser.HasName | utils/csvParser.ts:24 | the filter keeping records whose trimmed name is not empty; `CsvParser.ParseCsvToStaff` and `CsvParser.ParsedCompleteness` prove the parsed records are exactly those it keeps |
| CsvParser.ParseCsvToStaff | utils/csvParser.ts:3-25 | at most one record per data line, each with a non-blank name, not checked in and without a time |
| CsvParser.ParsedProvenance | utils/csvParser.ts:7-24 | every record comes from a data line after the header, numbered by that line |
| CsvParser.ParsedCompleteness | utils/csvParser.ts:7-24 | every data line whose first field is not blank yields its record |
| CsvParser.PrefixedNumbersDistinct | utils/csvParser.ts:11 | distinct numbers give distinct `staff-N` ids |
| CsvParser.ParsedIdsDistinct | utils/csvParser.ts:7-24 | the records' ids are distinct |
| CsvParser.NumberedIdsDistinct | utils/csvParser.ts:7-11 | before filtering, the numbered records' ids are distinct |
| CsvParser.NumberedId | utils/csvParser.ts:11 | the record at data index i has id `staff-(i+1)` |
| CsvParser.NumberedLine | utils/csvParser.ts:7-23 | the record at data index i parses line i+1 |
| CsvParser.ParsedInLineOrder | utils/csvParser.ts:7-24 | the records keep line order |
| CsvParser.ParseLineRoundTrip | utils/csvParser.ts:8-21 | a line joined from a record's ten columns, none holding `;`, parses back to that record under the line's id |
| CsvParser.GetStaffDisplayName | utils/csvParser.ts:27-29 | the name when not empty, `'Unknown Staff'` otherwise, never empty |
| CsvParser.GetStaffLocation | utils/csvParser.ts:31-35 | the non-empty country and church joined by `' • '`, or `'Location not specified'` when both are empty |
| ImportAllData.Column | scripts/import-all-data.ts:35-44 | a column is trimmed, and empty when missing |
| ImportAllData.IsDataRow | scripts/import-all-data.ts:33 | the row test `values[0] && values[0].trim()`; `ImportAllData.StaffRowsSnoc` and `ImportAllData.StaffLineTrimsRecord` prove a line is read iff it holds, the same test as the roster parser's |
| ImportAllData.StaffRows | scripts/import-all-data.ts:26-51 | the rows the reader collects; `ImportAllData.ParseStaffLines`, `ImportAllData.StaffRowsWellFormed` and `ImportAllData.StaffRowsAgreeWithRoster` prove the loop builds them, their shape and their agreement with the roster parser |
| ImportAllData.StaffLine | scripts/import-all-data.ts:34-46 | a staff row is never checked in |
| ImportAllData.ParseStaffCsv | scripts/import-all-data.ts:26-51 | the rows read are those the row function gives for the lines after the header |
| ImportAllData.ParseStaffLines | scripts/import-all-data.ts:30-48 | the loop pushes exactly the rows of the data lines whose first field is not blank, in order |
| ImportAllData.StaffRowsSnoc | scripts/import-all-data.ts:31-47 | one more line adds its row iff its first field is not blank |
| ImportAllData.StaffRowsWellFormed | scripts/import-all-data.ts:33-46 | every row has a non-empty name and only trimmed fields |
| ImportAllData.StaffLineTrimsRecord | scripts/import-all-data.ts:33-46 | a line is kept iff the roster parser would keep it, and its row is that record with trimmed fields |
| ImportAllData.StaffRowsAgreeWithRoster | scripts/import-all-data.ts:26-51 | the import reader gives the roster parser's records, trimmed, in the same order |
| ImportAllData.ToStudentInsert | scripts/import-all-data.ts:62-81 | an inserted student is never checked in |
| ImportAllData.InsertedRow | scripts/import-all-data.ts:90-92 | a freshly inserted row has its id and no check-in time |
| ImportAllData.StudentInsertReadsBack | scripts/import-all-data.ts:62-81 | an inserted student reads back as the record, renamed columns included, pending and without a time |
| ImportAllData.Batches | scripts/import-all-data.ts:87-88 | the slices `slice(i, i + batchSize)` for i stepping by the batch size; `ImportAllData.BatchesConcat`, `ImportAllData.BatchesSizes`, `ImportAllData.BatchesCount` and `ImportAllData.BatchAt` prove they concatenate to the input, their sizes, their number and each one's bounds |
| ImportAllData.InsertedStaffRow | scripts/import-all-data.ts:136-138 | a freshly inserted staff row has its id and no check-in time |
| ImportAllData.StaffInsertReadsBack | scripts/import-all-data.ts:26-51 | a staff row the reader builds from a roster record, once inserted, reads back through the staff service as that record with every field trimmed, pending and without a time |
| ImportAllData.BatchesConcat | scripts/import-all-data.ts:87-88 | the batches concatenate to the input |
| ImportAllData.BatchesSizes | scripts/import-all-data.ts:87-88 | every batch holds 1 to size rows, and all but the last exactly size |
| ImportAllData.BatchesCount | scripts/import-all-data.ts:87 | there are ceil(length / size) batches |
| ImportAllData.BatchAt | scripts/import-all-data.ts:87-88 | batch k is the slice from k·size to min(k·size + size, length) |
| ImportAllData.BatchesEnd | scripts/import-all-data.ts:87 | when (k−1)·size < length ≤ k·size there are exactly k batches |
| ImportAllData.InsertBatches | scripts/import-all-data.ts:85-101 | the batches sent are a prefix of the batches; the import succeeds iff no batch is refused, and then every batch was sent and the count equals the rows; otherwise it stops at the first refused batch, numbered from 1 |
| ImportAllData.ImportStudents | scripts/import-all-data.ts:62-101 | students go in batches of 100; on success the batches concatenate to the mapped students and the count is their number |
| ImportAllData.ImportStaff | scripts/import-all-data.ts:121-147 | no parsed staff gives 0 with nothing sent; otherwise batches of 50, concatenating on success to the parsed rows and counting them |
| MigrateData.TrimmedName | scripts/migrate-data.ts:84 | the name is trimmed, and empty when missing |
| MigrateData.NullIfBlank | scripts/migrate-data.ts:85-93 | one column read as its trimmed text, or null; `MigrateData.NullIfBlankMeaning` proves when it is null and what it holds otherwise |
| MigrateData.NullIfBlankMeaning | scripts/migrate-data.ts:85-93 | a field is null iff missing or blank, otherwise its trimmed text |
| MigrateData.Optionals | scripts/migrate-data.ts:82-93 | the optional fields are the positional columns after the name |
| MigrateData.OptionalsClean | scripts/migrate-data.ts:85-93 | every optional field is null or trimmed and non-empty |
| MigrateData.StaffOf | scripts/migrate-data.ts:83-94 | the staff object lists the nine optional columns in order |
| MigrateData.StudentOf | scripts/migrate-data.ts:100-118 | the student object lists the sixteen optional columns in order |
| MigrateData.CsvRowToStaff | scripts/migrate-data.ts:81-95 | the name is trimmed and every other field is null or trimmed and non-empty |
| MigrateData.CsvRowToStudent | scripts/migrate-data.ts:98-119 | the same for the seventeen student columns |
| MigrateData.OptionalsIgnoreExtra | scripts/migrate-data.ts:82 | columns past the last one used change nothing |
| MigrateData.StaffExtraColumnsIgnored | scripts/migrate-data.ts:82 | an extra column after the ten staff columns is ignored |
| MigrateData.StudentExtraColumnsIgnored | scripts/migrate-data.ts:99 | an extra column after the seventeen student columns is ignored |
| MigrateData.ColumnReadBack | scripts/migrate-data.ts:85 | a clean value written in its column reads back unchanged |
| MigrateData.OptionalsReadBack | scripts/migrate-data.ts:85-93 | clean optional values written as columns read back unchanged |
| MigrateData.OptionalReadBack | scripts/migrate-data.ts:85-93 | the same for one column |
| MigrateData.ColumnsReadBack | scripts/migrate-data.ts:82-93 | a clean name and clean values written as columns read back unchanged |
| MigrateData.SplitColumns | scripts/migrate-data.ts:82 | columns without `;` joined by `;` split back into those columns |
| MigrateData.StaffRoundTrip | scripts/migrate-data.ts:81-95 | a clean staff object written as a line converts back to itself |
| MigrateData.StudentRoundTrip | scripts/migrate-data.ts:98-119 | a clean student object written as a line converts back to itself |
| AdminPage.FilterStudents | app/admin/page.tsx:51-55 | the filtered students are never more than the roster |
| AdminPage.FilterStaff | app/admin/page.tsx:58-62 | the filtered staff are never more than the roster; `AdminPage.FilterMembershipBoth` proves which members it keeps and `AdminPage.FilterStaffKeepsOrder` that it keeps roster order |
| AdminPage.EmptyQueryKeepsAll | app/admin/page.tsx:51-62 | the empty query keeps both rosters whole |
| AdminPage.FilterMembershipBoth | app/admin/page.tsx:51-62 | a record is listed iff it is in the roster and its lower-cased name, email or country contains the lower-cased, untrimmed query |
| AdminPage.FilterKeepsOrder | app/admin/page.tsx:51-55 | the filtered students keep roster order |
| AdminPage.FilterStaffKeepsOrder | app/admin/page.tsx:58-62 | the filtered staff keep roster order |
| AdminPage.ReplaceStudent | app/admin/page.tsx:79 | replacing keeps the roster's length |
| AdminPage.ReplaceStaff | app/admin/page.tsx:94 | replacing keeps the roster's length |
| AdminPage.ReplaceStudentOnly | app/admin/page.tsx:79 | with distinct ids, only the element with the id is replaced |
| AdminPage.ReplaceStaffOnly | app/admin/page.tsx:94 | with distinct ids, only the element with the id is replaced |
| AdminPage.ReplaceAbsentStudent | app/admin/page.tsx:79 | a roster without the id is unchanged |
| AdminPage.ReplaceStudentIdempotent | app/admin/page.tsx:79 | replacing twice with a record keeping the id is replacing once |
| AdminPage.Admin.constructor | app/admin/page.tsx:15-26 | empty rosters and query, nothing selected, both editors closed |
| AdminPage.Admin.Load | app/admin/page.tsx:33-48 | both rosters are the replies and nothing else changes |
| AdminPage.Admin.EditStudent | app/admin/page.tsx:64-67 | selects the student and opens its editor, nothing else changes |
| AdminPage.Admin.EditStaff | app/admin/page.tsx:69-72 | selects the staff member and opens its editor, nothing else changes |
| AdminPage.Admin.StudentUpdate | app/admin/page.tsx:74-87 | with a selection and a stored row, the selected id is replaced by the merged record, the editor closes and the selection clears; with no selection or an error nothing changes |
| AdminPage.Admin.StaffUpdate | app/admin/page.tsx:89-102 | the same for the staff roster |
| EditPersonModal.TextOf | components/EditPersonModal.tsx:51-55 | a form text is read iff the key holds text |
| EditPersonModal.FormOf | components/EditPersonModal.tsx:26-31 | the form `{ ...person }` loads; `EditPersonModal.FormCopiesEveryColumn` proves it has exactly the person's columns and values |
| EditPersonModal.FormCopiesEveryColumn | components/EditPersonModal.tsx:26-31 | the loaded form has exactly the person's columns, each holding the person's value |
| EditPersonModal.FormReadsNameAndEmail | components/EditPersonModal.tsx:26-31 | the loaded form reads back the person's id, name and email |
| EditPersonModal.NameMissing | components/EditPersonModal.tsx:51-53 | the name test `!formData.name?.trim()`; `EditPersonModal.FormErrors` proves it raises the name error exactly when it holds |
| EditPersonModal.EmailInvalid | components/EditPersonModal.tsx:55-57 | the email test; `EditPersonModal.FormErrors` and `EditPersonModal.EmptyEmailAccepted` prove it raises the email error exactly when it holds, never for an empty email |
| EditPersonModal.FormErrors | components/EditPersonModal.tsx:48-58 | a name error iff the name is missing or blank; an email error iff the email is non-blank and lacks `@`; each with its message |
| EditPersonModal.FormErrorsCases | components/EditPersonModal.tsx:48-58 | the error map in each of the four cases, written out |
| EditPersonModal.FormValidIff | components/EditPersonModal.tsx:59-60 | the form is valid iff the name is not blank and the email is blank or holds `@` |
| EditPersonModal.TypingNameClearsNameError | components/EditPersonModal.tsx:33-57 | a non-blank name clears the name error and leaves the email error as it was |
| EditPersonModal.EmptyEmailAccepted | components/EditPersonModal.tsx:55-57 | an empty or null email raises no email error |
| EditPersonModal.Modal.constructor | components/EditPersonModal.tsx:22-24 | an empty form, no errors, not loading |
| EditPersonModal.Modal.SetPerson | components/EditPersonModal.tsx:26-31 | a person loads every column into the form and clears the errors; no person changes nothing |
| EditPersonModal.Modal.HandleInputChange | components/EditPersonModal.tsx:33-46 | sets exactly the field; blanks its error if one is shown and leaves the errors otherwise |
| EditPersonModal.Modal.ValidateForm | components/EditPersonModal.tsx:48-61 | the errors become the form's errors, and the form is valid iff there are none |
| EditPersonModal.Modal.HandleSave | components/EditPersonModal.tsx:63-87 | no person or an invalid form returns before any update; otherwise the form is sent to the type's table; a refusal or an exception sets only the general error; success passes the fetched person on and closes |
| StaffMemberDetail.Toggled | components/StaffMemberDetail.tsx:25-33 | the card's optimistic record after a toggle; `StaffMemberDetail.ToggleFlips` and `StaffMemberDetail.ToggleTwice` prove what it changes and that it is its own inverse on the flag |
| StaffMemberDetail.Merge | components/StaffMemberDetail.tsx:36 | the spread of the updates over the record; `StaffMemberDetail.MergeLaws` and `StaffMemberDetail.MergeAgreesWithStore` prove its laws and its agreement with the store |
| StaffMemberDetail.ToggleFlips | components/StaffMemberDetail.tsx:25-33 | a toggle flips the flag, has a time iff it checks in, and changes no other field |
| StaffMemberDetail.ToggleTwice | components/StaffMemberDetail.tsx:25-33 | two toggles restore the flag, and restore a pending record without a time completely |
| StaffMemberDetail.MergeLaws | components/StaffMemberDetail.tsx:36 | merging no updates keeps the record; merging twice is merging once |
| StaffMemberDetail.MergeAgreesWithStore | components/StaffMemberDetail.tsx:35-38 | with non-empty texts and no id among the updates, the local merge equals what the store reads back |
| StaffMemberDetail.ClearedFieldDiverges | components/StaffMemberDetail.tsx:36 | an emptied email shows empty on the card while the store keeps the old one |
| StaffMemberDetail.Detail.constructor | components/StaffMemberDetail.tsx:22-23 | the card holds the given record with the editor closed |
| StaffMemberDetail.Detail.OpenEdit | components/StaffMemberDetail.tsx:57 | opens the editor and keeps the record |
| StaffMemberDetail.Detail.HandleCheckInOut | components/StaffMemberDetail.tsx:25-33 | a checked-in card calls check-out with its id, a pending one check-in; the record is toggled |
| StaffMemberDetail.Detail.HandleUpdate | components/StaffMemberDetail.tsx:35-40 | the record is merged; the callback gets the id from before the merge and the raw updates; the editor closes |
| StaffDetail.FormatFieldValue | components/StaffDetail.tsx:37-39 | the value when given and not blank, `'Not provided'` otherwise |
| StaffDetail.FormatNeverBlank | components/StaffDetail.tsx:37-39 | the shown text is never blank, and formatting it again changes nothing |
| StaffDetail.StatusBadge | components/StaffDetail.tsx:41-45 | green iff the status contains `FULLY PAID`; yellow iff it does not but contains `ONGOING`; gray iff neither |
| StaffDetail.FullyPaidAnywhereIsGreen | components/StaffDetail.tsx:42 | any status with `FULLY PAID` inside is green, whatever surrounds it |
| StaffDetail.MissingFirstChar | components/StaffDetail.tsx:42-43 | a text without the first character of a pattern does not contain it |
| StaffDetail.LowerCaseStatusIsGray | components/StaffDetail.tsx:41-45 | the search is case-sensitive: a lower-cased status is always gray |
| StaffDetail.BooleanBadge | components/StaffDetail.tsx:47-51 | green iff exactly `TRUE`, red iff exactly `FALSE`, gray otherwise |
| StaffDetail.BusLabel | components/StaffDetail.tsx:216 | `Required` iff exactly `TRUE`, `Not Required` otherwise |
| StaffDetail.DocumentLabel | components/StaffDetail.tsx:234 | complete iff exactly `TRUE`, pending otherwise |
| StaffDetail.LabelAgreesWithBadge | components/StaffDetail.tsx:232-240 | a label reads complete or required iff its badge is green, pending iff red or gray; lower-case `true` reads pending on gray |
| StaffDetail.BedKitLabel | components/StaffDetail.tsx:206-209 | `0`, `1`, `2` read `None`, `1 Kit`, `2 Kits`; any other value is followed by ` Kit(s)` |
| StaffDetail.BedKitBadge | components/StaffDetail.tsx:200-205 | red iff `0`, green iff `1`, blue iff `2`, gray otherwise |
| StaffDetail.BedKitLabelInjective | components/StaffDetail.tsx:206-209 | distinct quantities get distinct labels |
| StaffDetail.BedKitBadgeMatchesLabel | components/StaffDetail.tsx:200-209 | the badge is gray iff the label is the generic one |
| StaffDetail.ShowUnderage | components/StaffDetail.tsx:243 | the underage row's guard; `StaffDetail.DocumentRows` proves the third row shows exactly when it holds |
| StaffDetail.ShowNotes | components/StaffDetail.tsx:255 | the notes section's guard; `StaffDetail.ShowNotesIff` proves what it accepts |
| StaffDetail.ShowNotesIff | components/StaffDetail.tsx:243-255 | notes show iff `obs` is not `N/A` and has a non-space character; shown notes would also pass the underage rule; a lone space passes that rule but not the notes rule |
| StaffDetail.DocumentRows | components/StaffDetail.tsx:228-250 | documents and health form rows always; a third, underage row iff the value is non-empty and not `N/A` |
| StaffDetail.DocumentRowsConsistent | components/StaffDetail.tsx:228-250 | every row reads complete iff its badge is green |
| Common.TrimIsTrimmed | scripts/migrate-data.ts:84 | `trim` leaves no white space at either end and is idempotent |
| Common.BlankIffAllSpace | components/StaffDetail.tsx:38 | a text trims to empty iff it is all white space |
| Common.JoinSplit | utils/csvParser.ts:8 | joining the pieces of a split restores the text |
| Common.SplitJoin | utils/csvParser.ts:8 | splitting a join of separator-free pieces gives the pieces back |
| Common.ContainsExtension | app/page.tsx:52 | a text that contains a longer query contains its prefix |
| Common.NatToStringInjective | utils/csvParser.ts:11 | distinct numbers print differently |

## Left out

- Store and network calls, environment loading and `process.exit` are not modelled. A store call is a reply parameter, and the store's update is modelled by its column-overwrite effect.
- The order of query results (`order('name')`, `order('checked_in_at')`) and the `eq('checked_in', …)` selection are not modelled. `Database.FetchPeople` returns the rows as given.
- `setTimeout` delays, async interleavings and realtime subscriptions (`subscribeToChanges`) are timing and concurrency. They are not modelled.
- `new Date()`, `toISOString` and date parsing are not modelled. A timestamp is an opaque ISO text, and the current time is a parameter.
- Lower-casing is not modelled beyond ASCII, since full Unicode case mapping would need a table.
- `localStorage` persistence of the checked-in ids is not modelled. The ids are plain state of `CheckInPage.Page`.
- The `Staff`/`StaffMember` shape mismatch is not modelled. `parseCSVToStaff` builds staff-member-shaped records typed as `Staff`, and the page filter reads `Staff` columns, so the filter is modelled over the declared `Staff` fields. The runtime error that follows is not modelled. The import script's student mapping (scripts/import-all-data.ts:58-81) also reads `status`, `gender`, `phone`, `age`, `language`, `church`, `room`, `bedKit`, `bus`, `documents`, `underageDoc` and `obs` of those records; at run time these are undefined and drop out of the insert. `ImportAllData.ToStudentInsert` and `ImportAllData.ImportStudents` read the declared `Staff` fields instead.
- `created_at` and `updated_at` are not modelled. The store sets them and nothing in the core reads them.
- `insertStaffData` and `insertStudentData` of `lib/database.ts` are single store calls with no logic. They are left out.
- `scripts/import-data.ts` is left out. Its only pure code, the student mapping, is the one modelled in `ImportAllData.ToStudentInsert`.
- `clearExistingData`, `verifyImport` and `main` of the import script are only store calls and logging. They are left out.
- The import script reads `csvData` with the roster parser. The model starts at the parsed records (`ImportAllData.ImportStudents`). `ImportAllData.StaffRowsAgreeWithRoster` relates the two readers.
- The batch insert's exception is modelled as a `Failed` outcome naming the first refused batch. The set of refused batch numbers stands in for the store.
- EditPersonModal.FormCopiesEveryColumn: the form round trip is stated column by column, not as one equation over the whole record, to keep the proof small.
- The `ilike` filter of `searchPeople` is not quoted. A comma or an `ilike` wildcard in the query is not escaped. The model keeps the comma effect (`Database.SearchFilterCommaSplits`) but does not interpret `%` or `_`.
- Console messages are not modelled. The edit form's error messages are.
- StaffMemberDetail.Merge: a key present in the updates with the value `undefined` overwrites the field in `{ ...current, ...updates }`. In the model an absent update is `None`, meaning no key, so `Merge` keeps the old value there. No caller in the source passes such a key.
- JSX, CSS classes and icons are not modelled. Only the decisions behind the labels and colours are, with the colour as a datatype and its class text in `StaffDetail.ClassName`.
- `components/CheckedInDetail.tsx` and `components/StaffMemberCard.tsx` are left out. The first repeats `formatFieldValue`; the second repeats the toggle dispatch of `StaffMemberDetail.Detail.HandleCheckInOut`.
- `handleBackdropClick`, the modal's open flag and the admin screen's loading and tab state are presentation. They are left out.

## Findings

| source | as written | input that shows it | evidently intended | confidence | as-written member | corrected member |
|---|---|---|---|---|---|---|
| data/studentData.ts:163-169 (and data/staffMemberData.ts:135-141) | check-out passes `checkedInAt: undefined`; the sparse update drops it (line 70), so only `checked_in: false` is sent and `checked_in_at` keeps its old value | a row with `checked_in = true`, `checked_in_at = "2025-07-01T10:00:00Z"`, then `checkOutStudent` | check-out also nulls `checked_in_at`, as `uncheck` in lib/database.ts:85-88 does, so a record has a check-in time exactly when it is checked in | not executed | StudentData.CheckOutLeavesTimestamp | StudentData.ClearingCheckOutRestoresInvariant |

The corrected update object is `StudentData.ClearingCheckOutPatch`. It is the
same object that `Database.Uncheck` sends (`Database.UncheckClearsTimestamp`).
The services' own check-out methods model the code as written.
