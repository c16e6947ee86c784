/** The roster reader of utils/csvParser.ts: a semicolon-separated text
    with one header line, one record per following line, and no quoting. */
module CsvParser {
  import opened Common
  import opened Seqs
  import opened Types

  /** The record built from the data line numbered `n` (1-based, counted
      after the header). Missing columns become '', values are not trimmed. */
  function ParseLine(line: string, n: nat): (r: StaffMember)
    ensures r.id == "staff-" + NatToString(n)
    ensures !r.checkedIn && r.checkedInAt == None
  {
    var values := Split(line, ';');
    StaffMember("staff-" + NatToString(n),
                Field(values, 0), Field(values, 1), Field(values, 2), Field(values, 3),
                Field(values, 4), Field(values, 5), Field(values, 6), Field(values, 7),
                Field(values, 8), Field(values, 9),
                false, None)
  }

  /** `lines.slice(1).map((line, index) => ...)`: the data lines, each
      numbered by its position plus one. */
  function Numbered(data: seq<string>): (r: seq<StaffMember>)
    ensures |r| == |data|
    ensures forall k :: 0 <= k < |data| ==> r[k] == ParseLine(data[k], k + 1)
  {
    if data == [] then [] else Numbered(data[..|data| - 1]) + [ParseLine(data[|data| - 1], |data|)]
  }

  /** The lines of the trimmed content; line 0 is the header. */
  function Lines(content: string): (lines: seq<string>)
    ensures |lines| >= 1
  {
    Split(Trim(content), '\n')
  }

  predicate HasName(m: StaffMember) {
    !IsBlank(m.name)
  }

  /** `parseCSVToStaff`. */
  function ParseCsvToStaff(content: string): (r: seq<StaffMember>)
    ensures |r| <= |Lines(content)| - 1
    ensures forall k :: 0 <= k < |r| ==> HasName(r[k]) && !r[k].checkedIn && r[k].checkedInAt == None
  {
    var data := Lines(content)[1..];
    var all := Numbered(data);
    assert |all| == |Lines(content)| - 1;
    Filter(HasName, all)
  }

  /** Every record comes from a data line (never the header) whose first
      column is not blank, and carries that line's number in its id. */
  lemma ParsedProvenance(content: string, k: nat)
    requires k < |ParseCsvToStaff(content)|
    ensures exists j :: 1 <= j < |Lines(content)| && ParseCsvToStaff(content)[k] == ParseLine(Lines(content)[j], j)
  {
    var data := Lines(content)[1..];
    var m := ParseCsvToStaff(content)[k];
    assert m in Numbered(data);
    var i :| 0 <= i < |data| && Numbered(data)[i] == m;
    assert Lines(content)[i + 1] == data[i];
  }

  /** Every data line whose first column is not blank yields a record. */
  lemma ParsedCompleteness(content: string, j: nat)
    requires 1 <= j < |Lines(content)|
    requires !IsBlank(Field(Split(Lines(content)[j], ';'), 0))
    ensures ParseLine(Lines(content)[j], j) in ParseCsvToStaff(content)
  {
    var data := Lines(content)[1..];
    assert Numbered(data)[j - 1] == ParseLine(Lines(content)[j], j);
    FilterMembership(HasName, Numbered(data), ParseLine(Lines(content)[j], j));
  }

  lemma PrefixedNumbersDistinct(a: nat, b: nat)
    requires a != b
    ensures "staff-" + NatToString(a) != "staff-" + NatToString(b)
  {
    if "staff-" + NatToString(a) == "staff-" + NatToString(b) {
      assert ("staff-" + NatToString(a))[6..] == NatToString(a);
      assert ("staff-" + NatToString(b))[6..] == NatToString(b);
      NatToStringInjective(a, b);
    }
  }

  /** No two records share an id. */
  lemma ParsedIdsDistinct(content: string)
    ensures forall k1, k2 :: 0 <= k1 < k2 < |ParseCsvToStaff(content)| ==>
              ParseCsvToStaff(content)[k1].id != ParseCsvToStaff(content)[k2].id
  {
    var all := Numbered(Lines(content)[1..]);
    NumberedIdsDistinct(Lines(content)[1..]);
    FilterDistinctBy(HasName, MemberId, all);
    assert ParseCsvToStaff(content) == Filter(HasName, all);
  }

  function MemberId(m: StaffMember): string {
    m.id
  }

  /** Numbering the data lines gives every record its own id. */
  lemma NumberedIdsDistinct(data: seq<string>)
    ensures DistinctBy(MemberId, Numbered(data))
  {
    var all := Numbered(data);
    forall i, j | 0 <= i < j < |all|
      ensures MemberId(all[i]) != MemberId(all[j])
    {
      NumberedId(data, i);
      NumberedId(data, j);
      PrefixedNumbersDistinct(i + 1, j + 1);
    }
  }

  lemma NumberedId(data: seq<string>, i: nat)
    requires i < |data|
    ensures MemberId(Numbered(data)[i]) == "staff-" + NatToString(i + 1)
  {
    assert Numbered(data)[i] == ParseLine(data[i], i + 1);
  }

  /** The i-th numbered record is built from line i + 1 of the content. */
  lemma NumberedLine(content: string, i: nat)
    requires i < |Lines(content)| - 1
    ensures Numbered(Lines(content)[1..])[i] == ParseLine(Lines(content)[i + 1], i + 1)
  {
    assert Lines(content)[1..][i] == Lines(content)[i + 1];
  }

  /** Records come out in the order of their lines. */
  lemma ParsedInLineOrder(content: string, k1: nat, k2: nat)
    requires k1 < k2 < |ParseCsvToStaff(content)|
    ensures exists j1, j2 :: 1 <= j1 < j2 < |Lines(content)|
              && ParseCsvToStaff(content)[k1] == ParseLine(Lines(content)[j1], j1)
              && ParseCsvToStaff(content)[k2] == ParseLine(Lines(content)[j2], j2)
  {
    var all := Numbered(Lines(content)[1..]);
    var r := ParseCsvToStaff(content);
    assert r == Filter(HasName, all);
    FilterOrder(HasName, all, k1, k2);
    var i1, i2 :| 0 <= i1 < i2 < |all| && all[i1] == r[k1] && all[i2] == r[k2];
    NumberedLine(content, i1);
    NumberedLine(content, i2);
  }

  /** The ten columns of a record, in file order. */
  function Columns(m: StaffMember): seq<string> {
    [m.name, m.email, m.cellphone, m.igreja, m.country, m.nationality, m.area, m.kitCama,
     m.quarto, m.healthyForm]
  }

  predicate FreeOfSeparator(m: StaffMember) {
    forall k :: 0 <= k < |Columns(m)| ==> ';' !in Columns(m)[k]
  }

  /** Writing a record's columns joined by ';' and reading the line back
      restores every column; the id is the line number and the record is
      not checked in. */
  lemma ParseLineRoundTrip(m: StaffMember, n: nat)
    requires FreeOfSeparator(m)
    ensures ParseLine(Join(Columns(m), ";"), n)
            == m.(id := "staff-" + NatToString(n), checkedIn := false, checkedInAt := None)
  {
    SplitJoin(Columns(m), ';');
  }

  /** `getStaffDisplayName`: the name, or a placeholder when it is empty. */
  function GetStaffDisplayName(m: StaffMember): (r: string)
    ensures r != ""
    ensures m.name != "" ==> r == m.name
    ensures m.name == "" ==> r == "Unknown Staff"
  {
    if m.name != "" then m.name else "Unknown Staff"
  }

  /** `getStaffLocation`: the non-empty parts of country and church joined
      by " • ", or a placeholder when both are empty. */
  method GetStaffLocation(m: StaffMember) returns (r: string)
    ensures m.country != "" && m.igreja != "" ==> r == m.country + " • " + m.igreja
    ensures m.country != "" && m.igreja == "" ==> r == m.country
    ensures m.country == "" && m.igreja != "" ==> r == m.igreja
    ensures m.country == "" && m.igreja == "" ==> r == "Location not specified"
  {
    var parts: seq<string> := [];
    if m.country != "" {
      parts := parts + [m.country];
    }
    if m.igreja != "" {
      parts := parts + [m.igreja];
    }
    assert |parts| == 2 ==> Join(parts, " • ") == parts[0] + " • " + Join(parts[1..], " • ");
    var joined := Join(parts, " • ");
    r := if joined != "" then joined else "Location not specified";
  }
}
