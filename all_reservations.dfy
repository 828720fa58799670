/** The admin list of all reservations: the search and status filter, the
    local status update after a cancellation, and the status colours. */
module AllReservations {
  import opened Text
  import opened Lists
  import VehicleSearch

  /** One row of the list. Missing optional fields (`vehicle?.make` and the
      like) are `None`. */
  datatype Row = Row(
    id: nat, make: Option<string>, model: Option<string>,
    firstName: Option<string>, lastName: Option<string>, status: string)

  /** `field?.toLowerCase().includes(term.toLowerCase())`, false when the
      field is missing. */
  predicate FieldMatches(field: Option<string>, term: string)
  {
    field.Some? && VehicleSearch.ContainsIgnoringCase(field.value, term)
  }

  /** The search box test: empty matches everything; otherwise the make,
      model or names contain the term ignoring case, or the id's decimal
      text contains it as typed. */
  predicate MatchesSearch(r: Row, term: string)
  {
    || term == []
    || FieldMatches(r.make, term)
    || FieldMatches(r.model, term)
    || FieldMatches(r.firstName, term)
    || FieldMatches(r.lastName, term)
    || Contains(NatToString(r.id), term)
  }

  /** The status drop-down test: "all" matches everything, otherwise the
      status must equal the choice ignoring case. */
  predicate MatchesStatus(r: Row, statusFilter: string)
  {
    statusFilter == "all" || Lower(r.status) == Lower(statusFilter)
  }

  predicate Shown(r: Row, term: string, statusFilter: string)
  {
    MatchesSearch(r, term) && MatchesStatus(r, statusFilter)
  }

  /** The rows on screen. */
  function FilteredReservations(rows: seq<Row>, term: string, statusFilter: string): seq<Row>
  {
    Filter(rows, (r: Row) => Shown(r, term, statusFilter))
  }

  /** The list keeps its order and shows exactly the rows passing both
      tests; with no search and status "all" it shows every row. */
  lemma FilteredIsOrderedSelection(rows: seq<Row>, term: string, statusFilter: string)
    ensures IsSubsequence(FilteredReservations(rows, term, statusFilter), rows)
    ensures forall r :: r in FilteredReservations(rows, term, statusFilter) <==>
      r in rows && MatchesSearch(r, term) && MatchesStatus(r, statusFilter)
    ensures term == [] && statusFilter == "all" ==> FilteredReservations(rows, term, statusFilter) == rows
  {
    FilterSpec(rows, (r: Row) => Shown(r, term, statusFilter));
    if term == [] && statusFilter == "all" {
      FilterKeepsAll(rows, (r: Row) => Shown(r, term, statusFilter));
    }
  }

  /** A substring of digits is digits. */
  lemma {:induction false} ContainedInDigits(hay: string, needle: string)
    requires AllDigits(hay) && Contains(hay, needle)
    ensures AllDigits(needle)
    decreases |hay|
  {
    if !StartsWith(hay, needle) {
      ContainedInDigits(hay[1..], needle);
    } else {
      assert forall i :: 0 <= i < |needle| ==> needle[i] == hay[i];
    }
  }

  /** Lowercasing leaves digit text as it is, and a lowercased text that is
      all digits was digits before. */
  lemma LowerDigits(s: string)
    ensures AllDigits(Lower(s)) <==> AllDigits(s)
    ensures AllDigits(s) ==> Lower(s) == s
  {
    if AllDigits(Lower(s)) {
      forall i | 0 <= i < |s|
        ensures IsDigit(s[i])
      {
        assert IsDigit(Lower(s)[i]);
      }
    }
  }

  /** The case of the search term does not matter: even the id test, which
      does not lowercase, can only match a term made of digits. */
  lemma SearchIgnoresCase(r: Row, term: string)
    ensures MatchesSearch(r, Lower(term)) <==> MatchesSearch(r, term)
  {
    LowerIdempotent(term);
    LowerDigits(term);
    if Contains(NatToString(r.id), term) {
      ContainedInDigits(NatToString(r.id), term);
    }
    if Contains(NatToString(r.id), Lower(term)) {
      ContainedInDigits(NatToString(r.id), Lower(term));
    }
  }

  /** A row's id, typed in full, finds it whatever its status matches. */
  lemma IdFindsRow(r: Row)
    ensures MatchesSearch(r, NatToString(r.id))
  {
    ContainsAt(NatToString(r.id), NatToString(r.id), 0);
  }

  /** The local update after the server confirms a cancellation. */
  function CancelLocally(rows: seq<Row>, reservationId: nat): (r: seq<Row>)
    ensures |r| == |rows|
  {
    seq(|rows|, i requires 0 <= i < |rows| =>
      if rows[i].id == reservationId then rows[i].(status := "Cancelled") else rows[i])
  }

  /** Only the rows with that id change, and only in their status, which
      becomes "Cancelled"; the update is idempotent, and afterwards those
      rows pass the "cancelled" status filter. */
  lemma CancelChangesOnlyTarget(rows: seq<Row>, reservationId: nat)
    ensures forall i :: 0 <= i < |rows| && rows[i].id != reservationId ==> CancelLocally(rows, reservationId)[i] == rows[i]
    ensures forall i :: 0 <= i < |rows| && rows[i].id == reservationId ==>
      CancelLocally(rows, reservationId)[i] == rows[i].(status := "Cancelled")
    ensures CancelLocally(CancelLocally(rows, reservationId), reservationId) == CancelLocally(rows, reservationId)
    ensures forall i :: 0 <= i < |rows| && rows[i].id == reservationId ==>
      MatchesStatus(CancelLocally(rows, reservationId)[i], "cancelled")
  {
    assert Lower("Cancelled") == "cancelled";
  }

  /** `getStatusColor`. */
  function StatusColor(status: string): string
  {
    var s := Lower(status);
    if s == "confirmed" then "#27ae60"
    else if s == "completed" then "#2980b9"
    else if s == "cancelled" then "#e74c3c"
    else if s == "ready for pickup" then "#f39c12"
    else "#95a5a6"
  }

  /** The colour depends only on the lowercased status, and any status
      outside the four known ones is grey. */
  lemma StatusColorIgnoresCase(status: string)
    ensures StatusColor(Lower(status)) == StatusColor(status)
    ensures Lower(status) !in {"confirmed", "completed", "cancelled", "ready for pickup"} <==> StatusColor(status) == "#95a5a6"
  {
    LowerIdempotent(status);
  }
}
