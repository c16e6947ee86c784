/** The display decisions of the staff detail screen in
    components/StaffDetail.tsx: placeholder text for missing fields, the
    badge colour of the payment status and of the yes/no columns, the bed-kit
    label, and whether the underage and notes sections are shown. */
module StaffDetail {
  import opened Common
  import opened Types

  /** The colours the badges use; `ClassName` gives the Tailwind classes. */
  datatype Color = Green | Yellow | Red | Blue | Gray

  function ClassName(c: Color): string {
    match c
    case Green => "bg-green-100 text-green-800"
    case Yellow => "bg-yellow-100 text-yellow-800"
    case Red => "bg-red-100 text-red-800"
    case Blue => "bg-blue-100 text-blue-800"
    case Gray => "bg-gray-100 text-gray-800"
  }

  const NotProvided := "Not provided"

  // ---------------------------------------------------------------------
  // formatFieldValue

  /** `formatFieldValue`: the value when it is defined and not blank,
      the placeholder otherwise. */
  function FormatFieldValue(value: Option<string>): (r: string)
    ensures value.Some? && !IsBlank(value.value) ==> r == value.value
    ensures value.None? || IsBlank(value.value) ==> r == NotProvided
  {
    if value.Some? && value.value != "" && Trim(value.value) != "" then value.value else NotProvided
  }

  /** The shown text is never blank, and formatting what is shown changes
      nothing. */
  lemma FormatNeverBlank(value: Option<string>)
    ensures !IsBlank(FormatFieldValue(value))
    ensures FormatFieldValue(Some(FormatFieldValue(value))) == FormatFieldValue(value)
  {
    BlankIffAllSpace(NotProvided);
    assert !IsSpace(NotProvided[0]);
  }

  // ---------------------------------------------------------------------
  // getStatusBadgeColor

  const FullyPaid := "FULLY PAID"
  const Ongoing := "ONGOING"

  /** `getStatusBadgeColor`: green when the status mentions full payment,
      which is tested first, yellow when it mentions an ongoing payment,
      gray otherwise. */
  function StatusBadge(status: string): (r: Color)
    ensures r == Green <==> Contains(status, FullyPaid)
    ensures r == Yellow <==> !Contains(status, FullyPaid) && Contains(status, Ongoing)
    ensures r == Gray <==> !Contains(status, FullyPaid) && !Contains(status, Ongoing)
  {
    if Contains(status, FullyPaid) then Green
    else if Contains(status, Ongoing) then Yellow
    else Gray
  }

  /** A status that mentions full payment anywhere is green, whatever else
      it says, an ongoing payment included. */
  lemma FullyPaidAnywhereIsGreen(before: string, after: string)
    ensures StatusBadge(before + FullyPaid + after) == Green
  {
    var s := before + FullyPaid + after;
    assert s[|before|..|before| + |FullyPaid|] == FullyPaid;
    assert OccursAt(s, FullyPaid, |before|);
    ContainsAt(s, FullyPaid);
  }

  /** A text none of whose characters starts `sub` does not contain it. */
  lemma {:induction false} MissingFirstChar(s: string, sub: string)
    requires sub != []
    requires forall i :: 0 <= i < |s| ==> s[i] != sub[0]
    ensures !Contains(s, sub)
  {
    if s != [] {
      MissingFirstChar(s[1..], sub);
    }
  }

  /** The match is case-sensitive: a lower-cased status is always gray. */
  lemma LowerCaseStatusIsGray(status: string)
    ensures StatusBadge(ToLower(status)) == Gray
  {
    MissingFirstChar(ToLower(status), FullyPaid);
    MissingFirstChar(ToLower(status), Ongoing);
  }

  // ---------------------------------------------------------------------
  // getBooleanBadge and the yes/no labels

  const True := "TRUE"
  const False := "FALSE"

  /** `getBooleanBadge`: exactly `'TRUE'` is green, exactly `'FALSE'` red,
      any other text gray. */
  function BooleanBadge(value: string): (r: Color)
    ensures r == Green <==> value == True
    ensures r == Red <==> value == False
    ensures r == Gray <==> value != True && value != False
  {
    if value == True then Green else if value == False then Red else Gray
  }

  const Required := "Required"
  const NotRequired := "Not Required"
  const Complete := "\U{2713} Complete"
  const Pending := "\U{2717} Pending"

  /** The bus label. */
  function BusLabel(bus: string): (r: string)
    ensures r == Required <==> bus == True
    ensures r == NotRequired <==> bus != True
  {
    if bus == True then Required else NotRequired
  }

  /** The documents, health form and underage labels. */
  function DocumentLabel(value: string): (r: string)
    ensures r == Complete <==> value == True
    ensures r == Pending <==> value != True
  {
    if value == True then Complete else Pending
  }

  /** A yes/no label and its badge agree on `'TRUE'` and on `'FALSE'`; any
      other text reads as pending (or not required) on a gray badge, and a
      lower-case `'true'` is one of those. */
  lemma LabelAgreesWithBadge(value: string)
    ensures DocumentLabel(value) == Complete <==> BooleanBadge(value) == Green
    ensures BusLabel(value) == Required <==> BooleanBadge(value) == Green
    ensures DocumentLabel(value) == Pending <==> BooleanBadge(value) in {Red, Gray}
    ensures value == "true" ==> DocumentLabel(value) == Pending && BooleanBadge(value) == Gray
  {
    assert Complete != Pending by { assert Complete[0] != Pending[0]; }
    assert Required != NotRequired by { assert Required[0] != NotRequired[0]; }
    if value == "true" {
      assert value[0] != True[0];
    }
  }

  // ---------------------------------------------------------------------
  // The bed-kit badge

  const KitSuffix := " Kit(s)"

  /** The bed-kit label: the three known quantities by name, any other
      value followed by `' Kit(s)'`. */
  function BedKitLabel(bedKit: string): (r: string)
    ensures bedKit == "0" ==> r == "None"
    ensures bedKit == "1" ==> r == "1 Kit"
    ensures bedKit == "2" ==> r == "2 Kits"
    ensures bedKit !in {"0", "1", "2"} ==> r == bedKit + KitSuffix
  {
    if bedKit == "0" then "None"
    else if bedKit == "1" then "1 Kit"
    else if bedKit == "2" then "2 Kits"
    else bedKit + KitSuffix
  }

  /** The bed-kit badge colour: red for none, green for one, blue for two. */
  function BedKitBadge(bedKit: string): (r: Color)
    ensures r == Red <==> bedKit == "0"
    ensures r == Green <==> bedKit == "1"
    ensures r == Blue <==> bedKit == "2"
    ensures r == Gray <==> bedKit !in {"0", "1", "2"}
  {
    if bedKit == "0" then Red
    else if bedKit == "1" then Green
    else if bedKit == "2" then Blue
    else Gray
  }

  /** Distinct quantities get distinct labels, so the label always tells
      the stored quantity. */
  lemma BedKitLabelInjective(a: string, b: string)
    requires BedKitLabel(a) == BedKitLabel(b)
    ensures a == b
  {
    var la := BedKitLabel(a);
    if a !in {"0", "1", "2"} && b !in {"0", "1", "2"} {
      assert a == la[..|a|] && b == la[..|b|];
    }
  }

  /** The badge is gray exactly when the label is the generic one. */
  lemma BedKitBadgeMatchesLabel(bedKit: string)
    ensures BedKitBadge(bedKit) == Gray <==> BedKitLabel(bedKit) == bedKit + KitSuffix
  {
    if bedKit in {"0", "1", "2"} {
      assert |BedKitLabel(bedKit)| < |bedKit + KitSuffix| || BedKitLabel(bedKit) != bedKit + KitSuffix;
    }
  }

  // ---------------------------------------------------------------------
  // The optional sections

  const NotApplicable := "N/A"

  /** The underage documentation row: any non-empty value but `'N/A'`. */
  predicate ShowUnderage(underageDoc: string) {
    underageDoc != "" && underageDoc != NotApplicable
  }

  /** The notes panel: a non-empty, non-blank value other than `'N/A'`. */
  predicate ShowNotes(obs: string) {
    obs != "" && obs != NotApplicable && Trim(obs) != ""
  }

  /** Notes are shown iff the text is not `'N/A'` and has a character that
      is not white space; white space alone passes the underage rule but not
      the notes rule. */
  lemma ShowNotesIff(obs: string)
    ensures ShowNotes(obs) <==> obs != NotApplicable && exists i :: 0 <= i < |obs| && !IsSpace(obs[i])
    ensures ShowNotes(obs) ==> ShowUnderage(obs)
    ensures ShowUnderage(" ") && !ShowNotes(" ")
  {
    BlankIffAllSpace(obs);
    BlankIffAllSpace(" ");
    assert IsSpace(" "[0]);
  }

  // ---------------------------------------------------------------------
  // The document status panel

  /** One row of the document status panel: its label and badge. */
  datatype StatusRow = StatusRow(text: string, badge: Color)

  function Row(value: string): StatusRow {
    StatusRow(DocumentLabel(value), BooleanBadge(value))
  }

  /** The document status panel: documents, health form, and the underage
      row when it is shown. */
  function DocumentRows(s: Staff): (r: seq<StatusRow>)
    ensures |r| == 2 || |r| == 3
    ensures r[0] == Row(s.documents) && r[1] == Row(s.healthyForm)
    ensures |r| == 3 <==> ShowUnderage(s.underageDoc)
    ensures |r| == 3 ==> r[2] == Row(s.underageDoc)
  {
    [Row(s.documents), Row(s.healthyForm)]
      + (if ShowUnderage(s.underageDoc) then [Row(s.underageDoc)] else [])
  }

  /** Every row of the panel reads complete exactly when its badge is green. */
  lemma DocumentRowsConsistent(s: Staff)
    ensures forall k :: 0 <= k < |DocumentRows(s)| ==>
              (DocumentRows(s)[k].text == Complete <==> DocumentRows(s)[k].badge == Green)
  {
    var r := DocumentRows(s);
    LabelAgreesWithBadge(s.documents);
    LabelAgreesWithBadge(s.healthyForm);
    LabelAgreesWithBadge(s.underageDoc);
    assert r[0] == Row(s.documents) && r[1] == Row(s.healthyForm);
  }
}
