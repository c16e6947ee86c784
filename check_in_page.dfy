/** The check-in screen of app/page.tsx: the roster split into pending and
    checked-in records by a list of checked-in ids, the search filter over
    both lists, and the navigator between the list and detail views. */
module CheckInPage {
  import opened Common
  import opened Seqs
  import opened Types

  // ---------------------------------------------------------------------
  // The partition of the roster.

  /** The record's id is in the list of checked-in ids. */
  function IsCheckedInBy(ids: seq<string>): Staff -> bool {
    (s: Staff) => s.id in ids
  }

  function IsPendingBy(ids: seq<string>): Staff -> bool {
    (s: Staff) => s.id !in ids
  }

  /** `{ ...staff, checkedIn: true }`. */
  function MarkCheckedIn(s: Staff): Staff {
    s.(checkedIn := true)
  }

  /** `{ ...staff, checkedIn: false }`. */
  function MarkPending(s: Staff): Staff {
    s.(checkedIn := false)
  }

  /** The pending list: the records whose id is not checked in, in roster order. */
  function PendingStaff(all: seq<Staff>, ids: seq<string>): seq<Staff> {
    Map(MarkPending, Filter(IsPendingBy(ids), all))
  }

  /** The checked-in list: the records whose id is checked in, in roster order. */
  function CheckedInStaff(all: seq<Staff>, ids: seq<string>): seq<Staff> {
    Map(MarkCheckedIn, Filter(IsCheckedInBy(ids), all))
  }

  /** The `forEach` over the roster that pushes every record onto one of two lists. */
  method Partition(all: seq<Staff>, ids: seq<string>) returns (pending: seq<Staff>, checkedIn: seq<Staff>)
    ensures pending == PendingStaff(all, ids)
    ensures checkedIn == CheckedInStaff(all, ids)
  {
    pending, checkedIn := [], [];
    var i := 0;
    while i < |all|
      invariant 0 <= i <= |all|
      invariant pending == PendingStaff(all[..i], ids)
      invariant checkedIn == CheckedInStaff(all[..i], ids)
    {
      var staff := all[i];
      PartitionStep(all, ids, i);
      if staff.id in ids {
        checkedIn := checkedIn + [MarkCheckedIn(staff)];
      } else {
        pending := pending + [MarkPending(staff)];
      }
      i := i + 1;
    }
    assert all[..i] == all;
  }

  /** The loop's turn at position `i`: one more record, one of the lists extended. */
  lemma PartitionStep(all: seq<Staff>, ids: seq<string>, i: nat)
    requires i < |all|
    ensures all[i].id in ids ==> PendingStaff(all[..i + 1], ids) == PendingStaff(all[..i], ids)
                                 && CheckedInStaff(all[..i + 1], ids) == CheckedInStaff(all[..i], ids) + [MarkCheckedIn(all[i])]
    ensures all[i].id !in ids ==> PendingStaff(all[..i + 1], ids) == PendingStaff(all[..i], ids) + [MarkPending(all[i])]
                                  && CheckedInStaff(all[..i + 1], ids) == CheckedInStaff(all[..i], ids)
  {
    assert all[..i + 1] == all[..i] + [all[i]];
    PartitionSnoc(all[..i], ids, all[i]);
  }

  /** Pushing one more roster record extends exactly one of the two lists. */
  lemma PartitionSnoc(pre: seq<Staff>, ids: seq<string>, s: Staff)
    ensures s.id in ids ==> PendingStaff(pre + [s], ids) == PendingStaff(pre, ids)
                            && CheckedInStaff(pre + [s], ids) == CheckedInStaff(pre, ids) + [MarkCheckedIn(s)]
    ensures s.id !in ids ==> PendingStaff(pre + [s], ids) == PendingStaff(pre, ids) + [MarkPending(s)]
                             && CheckedInStaff(pre + [s], ids) == CheckedInStaff(pre, ids)
  {
    FilterSnoc(IsPendingBy(ids), pre, s);
    FilterSnoc(IsCheckedInBy(ids), pre, s);
    if s.id in ids {
      MapSnoc(MarkCheckedIn, Filter(IsCheckedInBy(ids), pre), s);
    } else {
      MapSnoc(MarkPending, Filter(IsPendingBy(ids), pre), s);
    }
  }

  /** Every listed record carries the flag of its list, and its id decides the list. */
  lemma PartitionFlags(all: seq<Staff>, ids: seq<string>)
    ensures forall k :: 0 <= k < |PendingStaff(all, ids)| ==>
              !PendingStaff(all, ids)[k].checkedIn && PendingStaff(all, ids)[k].id !in ids
    ensures forall k :: 0 <= k < |CheckedInStaff(all, ids)| ==>
              CheckedInStaff(all, ids)[k].checkedIn && CheckedInStaff(all, ids)[k].id in ids
  {
    var p := Filter(IsPendingBy(ids), all);
    var c := Filter(IsCheckedInBy(ids), all);
    assert forall k :: 0 <= k < |p| ==> p[k].id !in ids;
    assert forall k :: 0 <= k < |c| ==> c[k].id in ids;
  }

  /** The two lists together hold every record of the roster exactly once. */
  lemma PartitionComplete(all: seq<Staff>, ids: seq<string>)
    ensures multiset(Filter(IsPendingBy(ids), all)) + multiset(Filter(IsCheckedInBy(ids), all)) == multiset(all)
    ensures |PendingStaff(all, ids)| + |CheckedInStaff(all, ids)| == |all|
  {
    FilterSplit(IsPendingBy(ids), IsCheckedInBy(ids), all);
  }

  /** The record at position `k` of the roster is listed, with its flag set,
      in the list its id selects, and no record with its id is in the other. */
  lemma PartitionPlacesRecord(all: seq<Staff>, ids: seq<string>, k: nat)
    requires k < |all|
    ensures all[k].id in ids ==>
              MarkCheckedIn(all[k]) in CheckedInStaff(all, ids)
              && forall j :: 0 <= j < |PendingStaff(all, ids)| ==> PendingStaff(all, ids)[j].id != all[k].id
    ensures all[k].id !in ids ==>
              MarkPending(all[k]) in PendingStaff(all, ids)
              && forall j :: 0 <= j < |CheckedInStaff(all, ids)| ==> CheckedInStaff(all, ids)[j].id != all[k].id
  {
    PartitionFlags(all, ids);
    var s := all[k];
    if s.id in ids {
      var c := Filter(IsCheckedInBy(ids), all);
      FilterMembership(IsCheckedInBy(ids), all, s);
      var j :| 0 <= j < |c| && c[j] == s;
      assert CheckedInStaff(all, ids)[j] == MarkCheckedIn(s);
    } else {
      var p := Filter(IsPendingBy(ids), all);
      FilterMembership(IsPendingBy(ids), all, s);
      var j :| 0 <= j < |p| && p[j] == s;
      assert PendingStaff(all, ids)[j] == MarkPending(s);
    }
  }

  /** Both lists keep the roster order. */
  lemma PartitionKeepsOrder(all: seq<Staff>, ids: seq<string>, k1: nat, k2: nat)
    ensures k1 < k2 < |PendingStaff(all, ids)| ==>
              exists i1, i2 :: 0 <= i1 < i2 < |all|
                && PendingStaff(all, ids)[k1] == MarkPending(all[i1])
                && PendingStaff(all, ids)[k2] == MarkPending(all[i2])
    ensures k1 < k2 < |CheckedInStaff(all, ids)| ==>
              exists i1, i2 :: 0 <= i1 < i2 < |all|
                && CheckedInStaff(all, ids)[k1] == MarkCheckedIn(all[i1])
                && CheckedInStaff(all, ids)[k2] == MarkCheckedIn(all[i2])
  {
    if k1 < k2 < |PendingStaff(all, ids)| {
      MarkedOrder(IsPendingBy(ids), MarkPending, all, k1, k2);
    }
    if k1 < k2 < |CheckedInStaff(all, ids)| {
      MarkedOrder(IsCheckedInBy(ids), MarkCheckedIn, all, k1, k2);
    }
  }

  /** Order of a marked, filtered list, for either tab. */
  lemma MarkedOrder(f: Staff -> bool, mark: Staff -> Staff, all: seq<Staff>, k1: nat, k2: nat)
    requires k1 < k2 < |Map(mark, Filter(f, all))|
    ensures exists i1, i2 :: 0 <= i1 < i2 < |all|
              && Map(mark, Filter(f, all))[k1] == mark(all[i1])
              && Map(mark, Filter(f, all))[k2] == mark(all[i2])
  {
    var p := Filter(f, all);
    FilterOrder(f, all, k1, k2);
    var i1, i2 :| 0 <= i1 < i2 < |all| && all[i1] == p[k1] && all[i2] == p[k2];
    assert Map(mark, p)[k1] == mark(all[i1]) && Map(mark, p)[k2] == mark(all[i2]);
  }

  // ---------------------------------------------------------------------
  // The search filter.

  /** One of the six searched fields, lower-cased, contains the lower-cased query `q`. */
  function MatchesQuery(q: string): Staff -> bool {
    (s: Staff) =>
      Contains(ToLower(s.name), q) || Contains(ToLower(s.email), q) || Contains(ToLower(s.country), q)
      || Contains(ToLower(s.church), q) || Contains(ToLower(s.language), q) || Contains(ToLower(s.room), q)
  }

  /** `filteredPendingStaff` / `filteredCheckedInStaff`: a blank query keeps
      the list; any other query, lower-cased but not trimmed, keeps the
      records matching it. */
  function FilterByQuery(list: seq<Staff>, query: string): (r: seq<Staff>)
    ensures |r| <= |list|
  {
    if IsBlank(query) then list else Filter(MatchesQuery(ToLower(query)), list)
  }

  /** An empty or white-space query leaves the list as it is. */
  lemma BlankQueryKeepsList(list: seq<Staff>, query: string)
    requires forall i :: 0 <= i < |query| ==> IsSpace(query[i])
    ensures FilterByQuery(list, query) == list
  {
    BlankIffAllSpace(query);
  }

  /** Any other query keeps exactly the records of the list that match it. */
  lemma QueryMembership(list: seq<Staff>, query: string, s: Staff)
    requires !IsBlank(query)
    ensures s in FilterByQuery(list, query) <==> s in list && MatchesQuery(ToLower(query))(s)
  {
    FilterMembership(MatchesQuery(ToLower(query)), list, s);
  }

  /** The filtered list keeps the order of the list. */
  lemma QueryKeepsOrder(list: seq<Staff>, query: string, k1: nat, k2: nat)
    requires k1 < k2 < |FilterByQuery(list, query)|
    ensures exists i1, i2 :: 0 <= i1 < i2 < |list|
              && list[i1] == FilterByQuery(list, query)[k1] && list[i2] == FilterByQuery(list, query)[k2]
  {
    if !IsBlank(query) {
      FilterOrder(MatchesQuery(ToLower(query)), list, k1, k2);
    } else {
      assert list[k1] == FilterByQuery(list, query)[k1] && list[k2] == FilterByQuery(list, query)[k2];
    }
  }

  lemma LowerIdempotent(s: string)
    ensures ToLower(ToLower(s)) == ToLower(s)
  {
  }

  lemma {:induction false} ToLowerAppend(a: string, b: string)
    ensures ToLower(a + b) == ToLower(a) + ToLower(b)
  {
    assert forall i :: 0 <= i < |a + b| ==> ToLower(a + b)[i] == (ToLower(a) + ToLower(b))[i];
  }

  /** Lower-casing never turns a visible character into white space or back. */
  lemma LowerKeepsBlank(s: string)
    ensures IsBlank(ToLower(s)) <==> IsBlank(s)
  {
    BlankIffAllSpace(s);
    BlankIffAllSpace(ToLower(s));
    assert forall i :: 0 <= i < |s| ==> (IsSpace(ToLower(s)[i]) <==> IsSpace(s[i]));
  }

  /** The search is case-insensitive: a query and its lower-cased form select the same records. */
  lemma QueryCaseInsensitive(list: seq<Staff>, query: string)
    ensures FilterByQuery(list, ToLower(query)) == FilterByQuery(list, query)
  {
    LowerKeepsBlank(query);
    LowerIdempotent(query);
  }

  /** Typing more characters after a visible query can only narrow the result. */
  lemma QueryNarrows(list: seq<Staff>, query: string, more: string, s: Staff)
    requires !IsBlank(query)
    requires !IsBlank(query + more)
    requires s in FilterByQuery(list, query + more)
    ensures s in FilterByQuery(list, query)
  {
    var q, m := ToLower(query), ToLower(more);
    ToLowerAppend(query, more);
    QueryMembership(list, query + more, s);
    QueryMembership(list, query, s);
    if Contains(ToLower(s.name), q + m) { ContainsExtension(ToLower(s.name), q, m); }
    if Contains(ToLower(s.email), q + m) { ContainsExtension(ToLower(s.email), q, m); }
    if Contains(ToLower(s.country), q + m) { ContainsExtension(ToLower(s.country), q, m); }
    if Contains(ToLower(s.church), q + m) { ContainsExtension(ToLower(s.church), q, m); }
    if Contains(ToLower(s.language), q + m) { ContainsExtension(ToLower(s.language), q, m); }
    if Contains(ToLower(s.room), q + m) { ContainsExtension(ToLower(s.room), q, m); }
  }

  // ---------------------------------------------------------------------
  // The view navigator.

  datatype View = PendingView | CompletedView | DetailView | CheckedInDetailView

  /** `prev.filter(id => id !== staff.id)`. */
  function RemoveId(ids: seq<string>, id: string): (r: seq<string>)
    ensures |r| <= |ids|
  {
    Filter((x: string) => x != id, ids)
  }

  /** Removing an id drops every occurrence of it and keeps every other id. */
  lemma RemoveIdMembership(ids: seq<string>, id: string, x: string)
    ensures x in RemoveId(ids, id) <==> x in ids && x != id
  {
    FilterMembership((y: string) => y != id, ids, x);
  }

  /** Checking in an id and then unchecking it leaves it absent, and leaves
      the other ids as unchecking alone would. */
  lemma CheckInThenUncheck(ids: seq<string>, id: string)
    ensures RemoveId(ids + [id], id) == RemoveId(ids, id)
    ensures id !in RemoveId(ids + [id], id)
  {
    FilterSnoc((x: string) => x != id, ids, id);
    RemoveIdMembership(ids + [id], id, id);
  }

  /** The state of the page component. */
  class Page {
    var query: string
    var selected: Option<Staff>
    var view: View
    var allStaff: seq<Staff>
    var checkedInIds: seq<string>

    /** A record is selected exactly in the two detail views, and it is shown
        in the detail view that matches its flag. */
    predicate Valid()
      reads this
    {
      && ((view == DetailView || view == CheckedInDetailView) <==> selected.Some?)
      && (view == DetailView ==> !selected.value.checkedIn)
      && (view == CheckedInDetailView ==> selected.value.checkedIn)
    }

    constructor ()
      ensures Valid()
      ensures query == "" && selected == None && view == PendingView
      ensures allStaff == [] && checkedInIds == []
    {
      query := "";
      selected := None;
      view := PendingView;
      allStaff := [];
      checkedInIds := [];
    }

    /** The list shown in the pending view. */
    function FilteredPending(): seq<Staff>
      reads this
    {
      FilterByQuery(PendingStaff(allStaff, checkedInIds), query)
    }

    /** The list shown in the completed view. */
    function FilteredCheckedIn(): seq<Staff>
      reads this
    {
      FilterByQuery(CheckedInStaff(allStaff, checkedInIds), query)
    }

    /** The mount effect: the roster read from the bundled roster text. */
    method LoadStaff(staff: seq<Staff>)
      modifies this
      requires Valid()
      ensures Valid()
      ensures allStaff == staff
      ensures query == old(query) && selected == old(selected) && view == old(view)
      ensures checkedInIds == old(checkedInIds)
    {
      allStaff := staff;
    }

    /** The search bar's change handler. */
    method SetQuery(q: string)
      modifies this
      requires Valid()
      ensures Valid()
      ensures query == q
      ensures selected == old(selected) && view == old(view)
      ensures allStaff == old(allStaff) && checkedInIds == old(checkedInIds)
    {
      query := q;
    }

    /** `handleStaffSelect`. */
    method SelectStaff(s: Staff)
      modifies this
      ensures Valid()
      ensures selected == Some(s)
      ensures view == if s.checkedIn then CheckedInDetailView else DetailView
      ensures query == old(query) && allStaff == old(allStaff) && checkedInIds == old(checkedInIds)
    {
      selected := Some(s);
      if s.checkedIn {
        view := CheckedInDetailView;
      } else {
        view := DetailView;
      }
    }

    /** `handleCheckIn`: the id is appended, even when already present. */
    method CheckIn(s: Staff)
      modifies this
      ensures Valid()
      ensures checkedInIds == old(checkedInIds) + [s.id]
      ensures view == PendingView && selected == None
      ensures query == old(query) && allStaff == old(allStaff)
    {
      checkedInIds := checkedInIds + [s.id];
      view := PendingView;
      selected := None;
    }

    /** `handleUncheck`: every occurrence of the id is removed. */
    method Uncheck(s: Staff)
      modifies this
      ensures Valid()
      ensures checkedInIds == RemoveId(old(checkedInIds), s.id)
      ensures s.id !in checkedInIds
      ensures view == CompletedView && selected == None
      ensures query == old(query) && allStaff == old(allStaff)
    {
      RemoveIdMembership(checkedInIds, s.id, s.id);
      checkedInIds := RemoveId(checkedInIds, s.id);
      view := CompletedView;
      selected := None;
    }

    /** `handleBack`: the search query is kept. */
    method Back()
      modifies this
      ensures Valid()
      ensures view == if old(view) == CheckedInDetailView then CompletedView else PendingView
      ensures selected == None
      ensures query == old(query) && allStaff == old(allStaff) && checkedInIds == old(checkedInIds)
    {
      if view == CheckedInDetailView {
        view := CompletedView;
      } else {
        view := PendingView;
      }
      selected := None;
    }

    /** `handleViewChange`: only the two list views can be chosen. */
    method ChangeView(v: View)
      modifies this
      requires Valid()
      ensures Valid()
      ensures v == PendingView || v == CompletedView ==> view == v && selected == None
      ensures v == DetailView || v == CheckedInDetailView ==> view == old(view) && selected == old(selected)
      ensures query == old(query) && allStaff == old(allStaff) && checkedInIds == old(checkedInIds)
    {
      if v != DetailView && v != CheckedInDetailView {
        view := v;
        selected := None;
      }
    }
  }
}
