/** The one-off import of scripts/import-all-data.ts: the staff file
    reader, the student insert mapping, and the batched inserts. Each
    insert call is replaced by whether the store rejects that batch. */
module ImportAllData {
  import opened Common
  import opened Seqs
  import opened Types
  import opened Tables
  import CsvParser
  import StudentData
  import StaffMemberData

  /** An object inserted into table `staff`. */
  datatype StaffInsert = StaffInsert(
    name: string,
    email: string,
    cellphone: string,
    igreja: string,
    country: string,
    nationality: string,
    area: string,
    kit_cama: string,
    quarto: string,
    healthy_form: string,
    checked_in: bool)

  /** `values[k]?.trim() || ''`. */
  function Column(values: seq<string>, k: nat): (r: string)
    ensures IsTrimmed(r)
    ensures k >= |values| ==> r == ""
  {
    TrimIsTrimmed(Field(values, k));
    Trim(Field(values, k))
  }

  /** `values[0] && values[0].trim()`: the line's first column is not blank. */
  predicate IsDataRow(line: string) {
    var values := Split(line, ';');
    values[0] != "" && Trim(values[0]) != ""
  }

  /** The object literal pushed for one kept line. */
  function StaffLine(line: string): (r: StaffInsert)
    ensures !r.checked_in
  {
    var values := Split(line, ';');
    StaffInsert(Column(values, 0), Column(values, 1), Column(values, 2), Column(values, 3),
                Column(values, 4), Column(values, 5), Column(values, 6), Column(values, 7),
                Column(values, 8), Column(values, 9), false)
  }

  /** What `parseStaffCSV` returns for the data lines `data`. */
  function StaffRows(data: seq<string>): seq<StaffInsert> {
    Map(StaffLine, Filter(IsDataRow, data))
  }

  /** `parseStaffCSV`: trim and split the content, then read its lines. */
  method ParseStaffCsv(content: string) returns (staff: seq<StaffInsert>)
    ensures staff == StaffRows(CsvParser.Lines(content)[1..])
  {
    var lines := CsvParser.Lines(content);
    staff := ParseStaffLines(lines);
  }

  /** The loop of `parseStaffCSV`: from line 1 on, push one object per line
      whose first column is not blank. */
  method ParseStaffLines(lines: seq<string>) returns (staff: seq<StaffInsert>)
    requires |lines| >= 1
    ensures staff == StaffRows(lines[1..])
  {
    staff := [];
    var i := 1;
    while i < |lines|
      invariant 1 <= i <= |lines|
      invariant staff == StaffRows(lines[1..i])
    {
      assert lines[1..i + 1] == lines[1..i] + [lines[i]];
      StaffRowsSnoc(lines[1..i], lines[i]);
      var values := Split(lines[i], ';');
      if values[0] != "" && Trim(values[0]) != "" {
        staff := staff + [StaffLine(lines[i])];
      }
      i := i + 1;
    }
    assert lines[1..i] == lines[1..];
  }

  /** One more line adds its object exactly when its first column is not blank. */
  lemma StaffRowsSnoc(data: seq<string>, line: string)
    ensures StaffRows(data + [line]) == StaffRows(data) + (if IsDataRow(line) then [StaffLine(line)] else [])
  {
    FilterSnoc(IsDataRow, data, line);
    if IsDataRow(line) {
      MapSnoc(StaffLine, Filter(IsDataRow, data), line);
    }
  }

  predicate AllTrimmed(s: StaffInsert) {
    IsTrimmed(s.name) && IsTrimmed(s.email) && IsTrimmed(s.cellphone) && IsTrimmed(s.igreja)
    && IsTrimmed(s.country) && IsTrimmed(s.nationality) && IsTrimmed(s.area)
    && IsTrimmed(s.kit_cama) && IsTrimmed(s.quarto) && IsTrimmed(s.healthy_form)
  }

  /** Every parsed staff object has a non-empty name, trimmed fields, and is
      not checked in. */
  lemma StaffRowsWellFormed(data: seq<string>)
    ensures forall k :: 0 <= k < |StaffRows(data)| ==>
              StaffRows(data)[k].name != "" && AllTrimmed(StaffRows(data)[k]) && !StaffRows(data)[k].checked_in
  {
    var kept := Filter(IsDataRow, data);
    forall k | 0 <= k < |StaffRows(data)|
      ensures StaffRows(data)[k].name != "" && AllTrimmed(StaffRows(data)[k])
    {
      assert IsDataRow(kept[k]);
    }
  }

  /** `parseCSVToStaff`'s record with its columns trimmed, as an insert. */
  function TrimmedInsert(m: StaffMember): StaffInsert {
    StaffInsert(Trim(m.name), Trim(m.email), Trim(m.cellphone), Trim(m.igreja), Trim(m.country),
                Trim(m.nationality), Trim(m.area), Trim(m.kitCama), Trim(m.quarto),
                Trim(m.healthyForm), false)
  }

  lemma StaffLineTrimsRecord(line: string, n: nat)
    ensures IsDataRow(line) <==> CsvParser.HasName(CsvParser.ParseLine(line, n))
    ensures StaffLine(line) == TrimmedInsert(CsvParser.ParseLine(line, n))
  {
  }

  /** The row the store holds after inserting `ins` into table `staff` and
      assigning it `id`. */
  function InsertedStaffRow(id: string, ins: StaffInsert): (r: StaffRow)
    ensures r.id == id && r.checked_in_at == None
  {
    StaffRow(id, ins.name, Some(ins.email), Some(ins.cellphone), Some(ins.igreja),
             Some(ins.country), Some(ins.nationality), Some(ins.area), Some(ins.kit_cama),
             Some(ins.quarto), Some(ins.healthy_form), ins.checked_in, None)
  }

  /** The staff insert and the staff service's row reader are inverse: an
      imported record reads back with every column trimmed, `kit_cama` and
      `healthy_form` under their record names, pending and without a time. */
  lemma StaffInsertReadsBack(id: string, m: StaffMember)
    ensures StaffMemberData.RowToStaffMember(InsertedStaffRow(id, TrimmedInsert(m)))
            == StaffMember(id, Trim(m.name), Trim(m.email), Trim(m.cellphone), Trim(m.igreja),
                           Trim(m.country), Trim(m.nationality), Trim(m.area), Trim(m.kitCama),
                           Trim(m.quarto), Trim(m.healthyForm), false, None)
  {
  }

  /** The two readers of the staff file keep the same lines, in the same
      order: this one yields the other's records with every column trimmed. */
  lemma {:induction false} StaffRowsAgreeWithRoster(data: seq<string>)
    ensures StaffRows(data) == Map(TrimmedInsert, Filter(CsvParser.HasName, CsvParser.Numbered(data)))
  {
    if data != [] {
      var d', x := data[..|data| - 1], data[|data| - 1];
      assert data == d' + [x];
      StaffRowsAgreeWithRoster(d');
      var m := CsvParser.ParseLine(x, |data|);
      assert CsvParser.Numbered(data) == CsvParser.Numbered(d') + [m];
      StaffLineTrimsRecord(x, |data|);
      FilterSnoc(IsDataRow, d', x);
      FilterSnoc(CsvParser.HasName, CsvParser.Numbered(d'), m);
      if IsDataRow(x) {
        MapSnoc(StaffLine, Filter(IsDataRow, d'), x);
        MapSnoc(TrimmedInsert, Filter(CsvParser.HasName, CsvParser.Numbered(d')), m);
      }
    }
  }

  /** An object inserted into table `students`. */
  datatype StudentInsert = StudentInsert(
    name: string,
    status: string,
    gender: string,
    email: string,
    phone: string,
    age: string,
    country: string,
    nationality: string,
    language: string,
    church: string,
    room: string,
    bed_kit: string,
    bus: string,
    documents: string,
    underage_doc: string,
    healthy_form: string,
    obs: string,
    checked_in: bool)

  /** The `supabaseStudents` mapping: columns renamed to the table's names,
      the record marked as not checked in. */
  function ToStudentInsert(s: Staff): (r: StudentInsert)
    ensures !r.checked_in
  {
    StudentInsert(s.name, s.status, s.gender, s.email, s.phone, s.age, s.country, s.nationality,
                  s.language, s.church, s.room, s.bedKit, s.bus, s.documents, s.underageDoc,
                  s.healthyForm, s.obs, false)
  }

  /** The row the store holds after inserting `ins` and assigning it `id`. */
  function InsertedRow(id: string, ins: StudentInsert): (r: StudentRow)
    ensures r.id == id && r.checked_in_at == None
  {
    StudentRow(id, ins.name, Some(ins.status), Some(ins.gender), Some(ins.email), Some(ins.phone),
               Some(ins.age), Some(ins.country), Some(ins.nationality), Some(ins.language),
               Some(ins.church), Some(ins.room), Some(ins.bed_kit), Some(ins.bus),
               Some(ins.documents), Some(ins.underage_doc), Some(ins.healthy_form), Some(ins.obs),
               ins.checked_in, None)
  }

  /** The insert mapping and the application's row reader are inverse: an
      imported student reads back as the same record, not checked in. */
  lemma StudentInsertReadsBack(id: string, s: Staff)
    ensures StudentData.RowToStaff(InsertedRow(id, ToStudentInsert(s)))
            == s.(id := id, checkedIn := false, checkedInAt := None)
  {
  }

  function Min(a: int, b: int): int {
    if a <= b then a else b
  }

  /** `rows` cut into consecutive slices of `size` elements, the last one
      possibly shorter: what the batch loop's `slice(i, i + batchSize)` cuts. */
  function Batches<T>(rows: seq<T>, size: nat): seq<seq<T>>
    requires size > 0
    decreases |rows|
  {
    if rows == [] then [] else [rows[..Min(size, |rows|)]] + Batches(rows[Min(size, |rows|)..], size)
  }

  lemma ConcatCons<T>(s: seq<T>, ss: seq<seq<T>>)
    ensures Concat([s] + ss) == s + Concat(ss)
    decreases |ss|
  {
    if ss != [] {
      var ss' := ss[..|ss| - 1];
      assert [s] + ss == ([s] + ss') + [ss[|ss| - 1]];
      ConcatCons(s, ss');
    }
  }

  /** The batches hold every row once, in order. */
  lemma {:induction false} BatchesConcat<T>(rows: seq<T>, size: nat)
    requires size > 0
    ensures Concat(Batches(rows, size)) == rows
    decreases |rows|
  {
    if rows != [] {
      var m := Min(size, |rows|);
      BatchesConcat(rows[m..], size);
      ConcatCons(rows[..m], Batches(rows[m..], size));
      assert rows[..m] + rows[m..] == rows;
    }
  }

  /** Every batch is non-empty and holds at most `size` rows; all but the
      last hold exactly `size`. */
  lemma {:induction false} BatchesSizes<T>(rows: seq<T>, size: nat)
    requires size > 0
    ensures forall k :: 0 <= k < |Batches(rows, size)| ==> 1 <= |Batches(rows, size)[k]| <= size
    ensures forall k :: 0 <= k < |Batches(rows, size)| - 1 ==> |Batches(rows, size)[k]| == size
    decreases |rows|
  {
    if rows != [] {
      var m := Min(size, |rows|);
      BatchesSizes(rows[m..], size);
      var bs := Batches(rows, size);
      assert bs == [rows[..m]] + Batches(rows[m..], size);
      forall k | 0 <= k < |bs|
        ensures 1 <= |bs[k]| <= size
        ensures k < |bs| - 1 ==> |bs[k]| == size
      {
        if k > 0 {
          assert bs[k] == Batches(rows[m..], size)[k - 1];
        } else if |bs| > 1 {
          assert rows[m..] != [];
        }
      }
    }
  }

  /** The number of batches of size `size` that `len` rows make. */
  function NumBatches(len: nat, size: nat): nat
    requires size > 0
  {
    (len + size - 1) / size
  }

  lemma MulMono(a: int, b: int, c: nat)
    requires a <= b
    ensures a * c <= b * c
    decreases b - a
  {
    if a < b {
      MulMono(a + 1, b, c);
      assert (a + 1) * c == a * c + c;
    }
  }

  /** Euclidean division has one quotient. */
  lemma DivUnique(x: int, q: int, r: int, size: int)
    requires size > 0 && 0 <= r < size && x == q * size + r
    ensures x / size == q
  {
    var q', r' := x / size, x % size;
    assert x == q' * size + r';
    if q' < q {
      MulMono(q', q - 1, size);
    }
    if q' > q {
      MulMono(q + 1, q', size);
    }
  }

  lemma DivShift(x: nat, size: nat)
    requires size > 0 && x >= size
    ensures (x - size) / size == x / size - 1
  {
    assert x == (x / size) * size + x % size;
    DivUnique(x - size, x / size - 1, x % size, size);
  }

  /** There are `ceil(len / size)` batches. */
  lemma {:induction false} BatchesCount<T>(rows: seq<T>, size: nat)
    requires size > 0
    ensures |Batches(rows, size)| == NumBatches(|rows|, size)
    decreases |rows|
  {
    if rows != [] {
      var m := Min(size, |rows|);
      BatchesCount(rows[m..], size);
      assert |Batches(rows, size)| == 1 + NumBatches(|rows| - m, size);
      if |rows| > size {
        DivShift(|rows| + size - 1, size);
      } else {
        DivUnique(|rows| + size - 1, 1, |rows| - 1, size);
        DivUnique(size - 1, 0, size - 1, size);
      }
    }
  }

  lemma MulSucc(n: nat, size: nat)
    ensures (n + 1) * size == n * size + size
  {
  }

  lemma DivExact(n: nat, size: nat)
    requires size > 0
    ensures (n * size) / size == n
  {
    DivUnique(n * size, n, 0, size);
  }

  /** The store accepts batches 1 to `k`. */
  predicate Accepted(failing: set<nat>, k: nat) {
    forall n :: 1 <= n <= k ==> n !in failing
  }

  /** How an import ends: every row inserted, or the batch whose insert failed. */
  datatype Outcome = Imported(count: nat) | Failed(batch: nat)

  /** The batch loop: `i` advances by `size` from 0 and each turn inserts
      `rows.slice(i, i + size)` as batch number `i / size + 1`. `failing`
      holds the numbers of the batches the store rejects; the first
      rejected batch ends the import. */
  method InsertBatches<T>(rows: seq<T>, size: nat, failing: set<nat>)
    returns (sent: seq<seq<T>>, outcome: Outcome)
    requires size > 0
    ensures |sent| <= |Batches(rows, size)| && sent == Batches(rows, size)[..|sent|]
    ensures Accepted(failing, |sent|)
    ensures outcome.Imported? <==> Accepted(failing, |Batches(rows, size)|)
    ensures outcome.Imported? ==> sent == Batches(rows, size) && outcome.count == |rows|
    ensures outcome.Failed? ==> outcome.batch == |sent| + 1 && outcome.batch in failing
  {
    var all := Batches(rows, size);
    sent := [];
    var inserted := 0;
    var i := 0;
    while i < |rows|
      invariant i == |sent| * size
      invariant |sent| <= |all| && sent == all[..|sent|]
      invariant i >= |rows| ==> |sent| == |all|
      invariant inserted == |Concat(sent)|
      invariant Accepted(failing, |sent|)
    {
      var batch := rows[i..Min(i + size, |rows|)];
      BatchAt(rows, size, |sent|);
      DivExact(|sent|, size);
      var number := i / size + 1;
      if number in failing {
        assert 1 <= number <= |all| && number in failing;
        assert !Accepted(failing, |all|);
        outcome := Failed(number);
        return;
      }
      PrefixSnoc(all, |sent|);
      ConcatSnoc(sent, batch);
      MulSucc(|sent|, size);
      if i + size >= |rows| {
        BatchesEnd(rows, size, |sent| + 1);
      }
      inserted := inserted + |batch|;
      sent := sent + [batch];
      i := i + size;
    }
    assert all[..|sent|] == all;
    BatchesConcat(rows, size);
    outcome := Imported(inserted);
  }

  lemma PrefixSnoc<T>(s: seq<T>, k: nat)
    requires k < |s|
    ensures s[..k + 1] == s[..k] + [s[k]]
  {
  }

  /** Batch number `k + 1` is the slice starting at `k * size`. */
  lemma {:induction false} BatchAt<T>(rows: seq<T>, size: nat, k: nat)
    requires size > 0 && k * size < |rows|
    ensures k < |Batches(rows, size)|
    ensures Batches(rows, size)[k] == rows[k * size..Min(k * size + size, |rows|)]
  {
    if k > 0 {
      var a := (k - 1) * size;
      MulSucc(k - 1, size);
      assert a + size == k * size;
      var r := rows[size..];
      BatchAt(r, size, k - 1);
      var b := Min(a + size, |r|);
      assert Batches(rows, size) == [rows[..size]] + Batches(r, size);
      assert Batches(rows, size)[k] == Batches(r, size)[k - 1];
      assert size + b == Min(k * size + size, |rows|);
      SliceOfSuffix(rows, size, a, b);
    } else {
      assert k * size == 0;
    }
  }

  lemma SliceOfSuffix<T>(s: seq<T>, d: nat, a: nat, b: nat)
    requires d <= |s| && a <= b <= |s| - d
    ensures s[d..][a..b] == s[d + a..d + b]
  {
  }

  /** A cut that reaches the end after `k` batches makes `k` batches. */
  lemma {:induction false} BatchesEnd<T>(rows: seq<T>, size: nat, k: nat)
    requires size > 0 && k > 0 && (k - 1) * size < |rows| <= k * size
    ensures |Batches(rows, size)| == k
  {
    MulSucc(k - 1, size);
    if k > 1 {
      MulMono(1, k - 1, size);
      BatchesEnd(rows[size..], size, k - 1);
      MulSucc(k - 2, size);
    } else {
      assert rows[Min(size, |rows|)..] == [];
    }
  }

  const StudentBatchSize := 100
  const StaffBatchSize := 50

  /** `importStudentData`, from the parsed student records on: map, then
      insert in batches of 100. */
  method ImportStudents(students: seq<Staff>, failing: set<nat>)
    returns (sent: seq<seq<StudentInsert>>, outcome: Outcome)
    ensures |sent| <= |Batches(Map(ToStudentInsert, students), StudentBatchSize)|
            && sent == Batches(Map(ToStudentInsert, students), StudentBatchSize)[..|sent|]
    ensures outcome.Imported? <==>
              Accepted(failing, NumBatches(|students|, StudentBatchSize))
    ensures outcome.Imported? ==> Concat(sent) == Map(ToStudentInsert, students) && outcome.count == |students|
    ensures outcome.Failed? ==> outcome.batch == |sent| + 1 && outcome.batch in failing
  {
    var supabaseStudents := Map(ToStudentInsert, students);
    sent, outcome := InsertBatches(supabaseStudents, StudentBatchSize, failing);
    BatchesCount(supabaseStudents, StudentBatchSize);
    BatchesConcat(supabaseStudents, StudentBatchSize);
  }

  /** `importStaffData`, from the file content on: parse, stop with 0 when
      nothing was parsed, otherwise insert in batches of 50. */
  method ImportStaff(content: string, failing: set<nat>)
    returns (sent: seq<seq<StaffInsert>>, outcome: Outcome)
    ensures var rows := StaffRows(CsvParser.Lines(content)[1..]);
            && (rows == [] ==> sent == [] && outcome == Imported(0))
            && |sent| <= |Batches(rows, StaffBatchSize)| && sent == Batches(rows, StaffBatchSize)[..|sent|]
            && (outcome.Imported? <==> Accepted(failing, NumBatches(|rows|, StaffBatchSize)))
            && (outcome.Imported? ==> Concat(sent) == rows && outcome.count == |rows|)
            && (outcome.Failed? ==> outcome.batch == |sent| + 1 && outcome.batch in failing)
  {
    var staff := ParseStaffCsv(content);
    if |staff| == 0 {
      sent, outcome := [], Imported(0);
      return;
    }
    sent, outcome := InsertBatches(staff, StaffBatchSize, failing);
    BatchesCount(staff, StaffBatchSize);
    BatchesConcat(staff, StaffBatchSize);
  }
}
