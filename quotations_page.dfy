/** The quotations page: the month filter and the list of months it offers,
    the new quotation template, and the page state (the card's selection and
    mode, the month filter, the rate search form and its results). */
module Quotations {
  import T = Types
  import Sequences
  import Collation
  import Codes
  import QuotationCard
  import RateSearch

  /** The month filter's value that shows every quotation. */
  const AllMonths := "all"

  /** `q => q.date.startsWith(prefix)`. */
  function DateStartsWith(prefix: string): T.Quotation -> bool
  {
    (q: T.Quotation) => prefix <= q.date
  }

  /** `filteredQuotations`: every quotation for "all", otherwise those whose
      date starts with the filter, in their original order. */
  function FilterByMonth(quotations: seq<T.Quotation>, filter: string): (shown: seq<T.Quotation>)
    ensures filter == AllMonths ==> shown == quotations
    ensures filter != AllMonths ==> forall i :: 0 <= i < |shown| ==> shown[i] in quotations && filter <= shown[i].date
    ensures filter != AllMonths ==> forall i :: 0 <= i < |quotations| && filter <= quotations[i].date ==> quotations[i] in shown
  {
    if filter == AllMonths then quotations else Sequences.Filter(quotations, DateStartsWith(filter))
  }

  /** Filtering keeps order: filtering two lists one after the other gives the
      filtered first list followed by the filtered second list. */
  lemma FilterByMonthAppend(a: seq<T.Quotation>, b: seq<T.Quotation>, filter: string)
    ensures FilterByMonth(a + b, filter) == FilterByMonth(a, filter) + FilterByMonth(b, filter)
  {
    if filter != AllMonths {
      Sequences.FilterAppend(a, b, DateStartsWith(filter));
    }
  }

  /** `date.substring(0, 7)`: the "YYYY-MM" part of an ISO date, or the whole
      string when it is shorter. */
  function MonthOf(date: string): (month: string)
    ensures |month| == Sequences.Min(7, |date|)
    ensures month <= date
  {
    if |date| <= 7 then date else date[..7]
  }

  function QuotationMonth(q: T.Quotation): string
  {
    MonthOf(q.date)
  }

  /** For a seven-character filter, a date starts with it exactly when the
      date's month is that filter. */
  lemma FilterIsMonth(date: string, filter: string)
    requires |filter| == 7
    ensures filter <= date <==> MonthOf(date) == filter
  {
  }

  /** `availableMonths`: the distinct months of all quotations, sorted and
      then reversed. */
  function AvailableMonths(quotations: seq<T.Quotation>): (months: seq<string>)
    ensures forall i, j :: 0 <= i < j < |months| ==> Collation.Less(months[j], months[i])
    ensures Sequences.NoDuplicates(months)
    ensures forall k :: 0 <= k < |quotations| ==> MonthOf(quotations[k].date) in months
    ensures forall i :: 0 <= i < |months| ==> exists k :: 0 <= k < |quotations| && months[i] == MonthOf(quotations[k].date)
  {
    var all := Sequences.Map(quotations, QuotationMonth);
    var distinct := Sequences.Distinct(all);
    var sorted := Sequences.SortBy(distinct, Collation.AtMost);
    SortedStrictly(distinct, sorted);
    ReverseDescending(sorted);
    SameMembers(distinct);
    MonthsOfQuotations(quotations, Sequences.Reverse(sorted));
    Sequences.Reverse(sorted)
  }

  /** Sorting distinct strings puts them in strictly ascending order. */
  lemma SortedStrictly(distinct: seq<string>, sorted: seq<string>)
    requires Sequences.NoDuplicates(distinct)
    requires sorted == Sequences.SortBy(distinct, Collation.AtMost)
    ensures forall i, j :: 0 <= i < j < |sorted| ==> Collation.Less(sorted[i], sorted[j])
  {
    Collation.AtMostTotalPreorder();
    Sequences.SortBySorted(distinct, Collation.AtMost);
    Sequences.PermutationNoDuplicates(distinct, sorted);
  }

  /** Reversing a strictly ascending list gives a strictly descending one
      without duplicates. */
  lemma ReverseDescending(sorted: seq<string>)
    requires forall i, j :: 0 <= i < j < |sorted| ==> Collation.Less(sorted[i], sorted[j])
    ensures var r := Sequences.Reverse(sorted);
            && (forall i, j :: 0 <= i < j < |r| ==> Collation.Less(r[j], r[i]))
            && Sequences.NoDuplicates(r)
  {
    var r := Sequences.Reverse(sorted);
    var n := |sorted|;
    forall i, j | 0 <= i < j < |r| ensures Collation.Less(r[j], r[i]) && r[i] != r[j] {
      assert r[j] == sorted[n - 1 - j] && r[i] == sorted[n - 1 - i];
      Collation.LessIrreflexive(r[i]);
    }
  }

  /** Sorting and reversing keeps exactly the same members. */
  lemma SameMembers(s: seq<string>)
    ensures forall x :: x in Sequences.Reverse(Sequences.SortBy(s, Collation.AtMost)) <==> x in s
  {
    var sorted := Sequences.SortBy(s, Collation.AtMost);
    var r := Sequences.Reverse(sorted);
    forall x ensures x in r <==> x in s {
      assert x in sorted <==> x in multiset(sorted);
      assert x in s <==> x in multiset(s);
      if x in r {
        var i :| 0 <= i < |r| && r[i] == x;
        assert sorted[|sorted| - 1 - i] == x;
      }
      if x in sorted {
        var j :| 0 <= j < |sorted| && sorted[j] == x;
        assert r[|sorted| - 1 - j] == x;
      }
    }
  }

  /** A list with the same members as the distinct quotation months holds
      every quotation's month and nothing else. */
  lemma MonthsOfQuotations(quotations: seq<T.Quotation>, months: seq<string>)
    requires forall x :: x in months <==> x in Sequences.Distinct(Sequences.Map(quotations, QuotationMonth))
    ensures forall k :: 0 <= k < |quotations| ==> MonthOf(quotations[k].date) in months
    ensures forall i :: 0 <= i < |months| ==> exists k :: 0 <= k < |quotations| && months[i] == MonthOf(quotations[k].date)
  {
    var all := Sequences.Map(quotations, QuotationMonth);
    var distinct := Sequences.Distinct(all);
    forall i | 0 <= i < |months| ensures exists k :: 0 <= k < |quotations| && months[i] == MonthOf(quotations[k].date) {
      assert months[i] in distinct;
      var d :| 0 <= d < |distinct| && distinct[d] == months[i];
      assert months[i] in all;
      var k :| 0 <= k < |all| && all[k] == months[i];
    }
    forall k | 0 <= k < |quotations| ensures MonthOf(quotations[k].date) in months {
      assert all[k] in distinct;
    }
  }

  /** Choosing any month the filter offers shows at least the quotation that
      month came from. */
  lemma OfferedMonthShowsSomething(quotations: seq<T.Quotation>, i: int)
    requires 0 <= i < |AvailableMonths(quotations)|
    ensures AvailableMonths(quotations)[i] != AllMonths ==> FilterByMonth(quotations, AvailableMonths(quotations)[i]) != []
  {
    var m := AvailableMonths(quotations)[i];
    var k :| 0 <= k < |quotations| && m == MonthOf(quotations[k].date);
    if m != AllMonths {
      assert quotations[k] in FilterByMonth(quotations, m);
    }
  }

  /** The quotation "Create Quotation" opens: code "QT" and the next number
      padded to six digits, dated `today`, a 40' container, no charges, no
      transit time, empty text fields and no client. */
  function NewQuotation(count: nat, freshId: string, today: string): (q: T.Quotation)
    ensures q.id == freshId && q.code == Codes.RecordCode("QT", count + 1) && q.date == today
    ensures q.containerType == T.Forty
    ensures forall f :: QuotationCard.IsCharge(f) ==> QuotationCard.Get(q, f) == QuotationCard.Number(0)
    ensures q.total == 0 && q.transit == 0
    ensures q.from == "" && q.to == "" && q.shippingLine == "" && q.agent == "" && q.sales == ""
    ensures q.clientId == T.None && q.clientName == T.None
  {
    T.Quotation(freshId, Codes.RecordCode("QT", count + 1), today, "", "", T.Forty,
                0, 0, 0, 0, 0, 0, 0, "", "", "", 0, T.None, T.None)
  }

  /** A new quotation's stored total already agrees with its charges, so the
      card's total effect leaves it as it is. */
  lemma NewQuotationInStep(count: nat, freshId: string, today: string)
    ensures QuotationCard.CalculatedTotal(NewQuotation(count, freshId, today)) == 0
    ensures QuotationCard.SyncTotal(NewQuotation(count, freshId, today)) == NewQuotation(count, freshId, today)
  {
  }

  /** The code of a new quotation reads back as the quotation count plus one. */
  lemma NewQuotationCode(count: nat, freshId: string, today: string)
    requires count + 1 < 1000000
    ensures var code := NewQuotation(count, freshId, today).code;
            && |code| == 8
            && code[..2] == "QT"
            && Codes.AllDigits(code[2..])
            && Codes.ValueOf(code[2..]) == count + 1
  {
    Codes.RecordCodeRoundTrip("QT", count + 1);
    Codes.RecordCodeLength("QT", count + 1);
  }

  class QuotationsPage {
    var quotations: seq<T.Quotation>
    var selected: T.Option<T.Quotation>
    var isCardOpen: bool
    var isEditing: bool
    var monthFilter: string
    var searchFrom: string
    var searchTo: string
    var searchType: T.ContainerType
    var rateResults: seq<T.RateSearchResult>
    var showRateResults: bool

    /** An open card always has a quotation to show. */
    ghost predicate Valid()
      reads this
    {
      isCardOpen ==> selected.Some?
    }

    /** The rows the table shows. */
    function Shown(): (shown: seq<T.Quotation>)
      reads this
      ensures |shown| <= |quotations|
    {
      FilterByMonth(quotations, monthFilter)
    }

    /** The recommendation card is shown after a search that found prices. */
    predicate ShowsRecommendation()
      reads this
      ensures ShowsRecommendation() <==> showRateResults && rateResults != []
    {
      showRateResults && RateSearch.Recommend(rateResults).Some?
    }

    constructor (initial: seq<T.Quotation>)
      ensures Valid()
      ensures quotations == initial && selected == T.None && !isCardOpen && !isEditing
      ensures monthFilter == AllMonths && Shown() == initial
      ensures searchFrom == "" && searchTo == "" && searchType == T.Forty
      ensures rateResults == [] && !showRateResults && !ShowsRecommendation()
    {
      quotations := initial;
      selected := T.None;
      isCardOpen := false;
      isEditing := false;
      monthFilter := AllMonths;
      searchFrom := "";
      searchTo := "";
      searchType := T.Forty;
      rateResults := [];
      showRateResults := false;
    }

    /** `handleRowClick`: show the quotation in view mode. */
    method RowClick(q: T.Quotation)
      modifies this
      ensures Valid()
      ensures selected == T.Some(q) && isCardOpen && !isEditing
      ensures quotations == old(quotations) && monthFilter == old(monthFilter)
      ensures rateResults == old(rateResults) && showRateResults == old(showRateResults)
      ensures searchFrom == old(searchFrom) && searchTo == old(searchTo) && searchType == old(searchType)
    {
      selected := T.Some(q);
      isEditing := false;
      isCardOpen := true;
    }

    /** `handleCreateQuotation`: open a blank quotation in edit mode. */
    method CreateQuotation(freshId: string, today: string)
      modifies this
      ensures Valid()
      ensures selected == T.Some(NewQuotation(|old(quotations)|, freshId, today))
      ensures isCardOpen && isEditing
      ensures quotations == old(quotations) && monthFilter == old(monthFilter)
      ensures rateResults == old(rateResults) && showRateResults == old(showRateResults)
      ensures searchFrom == old(searchFrom) && searchTo == old(searchTo) && searchType == old(searchType)
    {
      selected := T.Some(NewQuotation(|quotations|, freshId, today));
      isEditing := true;
      isCardOpen := true;
    }

    /** `handleSaveQuotation`: replace the first quotation with the same id in
        a copy of the list, or append when there is none; then close the card
        and clear the selection. */
    method SaveQuotation(updated: T.Quotation)
      modifies this
      ensures Valid()
      ensures quotations == Sequences.Upsert(old(quotations), T.QuotationId, updated)
      ensures Sequences.UniqueIds(old(quotations), T.QuotationId) ==> Sequences.UniqueIds(quotations, T.QuotationId)
      ensures !isCardOpen && selected == T.None && isEditing == old(isEditing)
      ensures monthFilter == old(monthFilter)
      ensures rateResults == old(rateResults) && showRateResults == old(showRateResults)
      ensures searchFrom == old(searchFrom) && searchTo == old(searchTo) && searchType == old(searchType)
    {
      var current := quotations;
      var existing := Sequences.IndexOfId(current, T.QuotationId, updated.id);
      if existing >= 0 {
        var copy := new T.Quotation[|current|](j requires 0 <= j < |current| => current[j]);
        copy[existing] := updated;
        assert copy[..] == current[existing := updated];
        quotations := copy[..];
      } else {
        quotations := current + [updated];
      }
      if Sequences.UniqueIds(current, T.QuotationId) {
        Sequences.UpsertKeepsIdsUnique(current, T.QuotationId, updated);
      }
      isCardOpen := false;
      selected := T.None;
    }

    /** The card's close callback. */
    method CloseCard()
      modifies this
      ensures Valid()
      ensures !isCardOpen && selected == T.None
      ensures quotations == old(quotations) && isEditing == old(isEditing)
      ensures monthFilter == old(monthFilter)
      ensures rateResults == old(rateResults) && showRateResults == old(showRateResults)
      ensures searchFrom == old(searchFrom) && searchTo == old(searchTo) && searchType == old(searchType)
    {
      isCardOpen := false;
      selected := T.None;
    }

    /** The card's edit toggle. */
    method ToggleEdit()
      modifies this
      requires Valid()
      ensures Valid()
      ensures isEditing == !old(isEditing)
      ensures quotations == old(quotations) && selected == old(selected) && isCardOpen == old(isCardOpen)
      ensures monthFilter == old(monthFilter)
      ensures rateResults == old(rateResults) && showRateResults == old(showRateResults)
      ensures searchFrom == old(searchFrom) && searchTo == old(searchTo) && searchType == old(searchType)
    {
      isEditing := !isEditing;
    }

    /** The month select. */
    method SetMonthFilter(filter: string)
      modifies this
      requires Valid()
      ensures Valid()
      ensures monthFilter == filter && Shown() == FilterByMonth(quotations, filter)
      ensures quotations == old(quotations) && selected == old(selected) && isCardOpen == old(isCardOpen)
      ensures isEditing == old(isEditing)
      ensures rateResults == old(rateResults) && showRateResults == old(showRateResults)
      ensures searchFrom == old(searchFrom) && searchTo == old(searchTo) && searchType == old(searchType)
    {
      monthFilter := filter;
    }

    /** The origin, destination and container inputs of the rate search. */
    method SetSearch(from: string, to: string, containerType: T.ContainerType)
      modifies this
      requires Valid()
      ensures Valid()
      ensures searchFrom == from && searchTo == to && searchType == containerType
      ensures rateResults == old(rateResults) && showRateResults == old(showRateResults)
      ensures quotations == old(quotations) && selected == old(selected) && isCardOpen == old(isCardOpen)
      ensures isEditing == old(isEditing)
      ensures monthFilter == old(monthFilter)
    {
      searchFrom := from;
      searchTo := to;
      searchType := containerType;
    }

    /** `handleRateSearch`: with both origin and destination filled in, take
        `generated` (what the rate source returns for the form) as the results
        and show them; otherwise do nothing. */
    method RunRateSearch(generated: seq<T.RateSearchResult>)
      modifies this
      requires Valid()
      ensures Valid()
      ensures searchFrom != "" && searchTo != "" ==> rateResults == generated && showRateResults
      ensures searchFrom == "" || searchTo == "" ==> rateResults == old(rateResults) && showRateResults == old(showRateResults)
      ensures ShowsRecommendation() <==> showRateResults && rateResults != []
      ensures quotations == old(quotations) && selected == old(selected) && isCardOpen == old(isCardOpen)
      ensures isEditing == old(isEditing)
      ensures monthFilter == old(monthFilter)
      ensures searchFrom == old(searchFrom) && searchTo == old(searchTo) && searchType == old(searchType)
    {
      if searchFrom != "" && searchTo != "" {
        rateResults := generated;
        showRateResults := true;
      }
    }
  }
}
