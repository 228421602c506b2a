/** The transaction history table of the admin console
    (playbox-frontend/src/components/transactions/TransactionTable.tsx): the
    statistics boxes, the search and type filters, sorting by a column, the
    page slice, the row of page buttons and the Previous/Next buttons. Money
    is an integer amount. The time value of a timestamp, `new
    Date(s).getTime()`, is an input function; None stands for NaN. */
module TransactionTable {
  import opened Wrappers
  import opened Text
  import opened Numbers
  import opened Lists

  /** A transaction as the client receives it. */
  datatype Transaction = Transaction(
    id: int,
    userId: int,
    userName: Option<string>,
    kind: string,
    amount: Option<int>,
    description: Option<string>,
    timestamp: string,
    adminName: Option<string>,
    previousBalance: Option<int>,
    balanceAfter: Option<int>)

  function Min(a: int, b: int): int { if a <= b then a else b }
  function Max(a: int, b: int): int { if a >= b then a else b }

  // ---------------------------------------------------------------------
  // Statistics
  // ---------------------------------------------------------------------

  /** `t.amount || 0`: a missing amount counts as 0. */
  function AmountOf(t: Transaction): int {
    if t.amount.Some? then t.amount.value else 0
  }

  predicate IsAdd(t: Transaction) { t.kind == "ADD" }
  predicate IsDeduct(t: Transaction) { t.kind == "DEDUCT" || t.kind == "BOOKING" }
  predicate IsNewUser(t: Transaction) { t.kind == "NEW_USER" }

  /** `reduce((sum, t) => sum + (t.amount || 0), 0)`. */
  function SumOf(ts: seq<Transaction>): int {
    if |ts| == 0 then 0 else SumOf(ts[..|ts| - 1]) + AmountOf(ts[|ts| - 1])
  }

  datatype Stats = Stats(totalAdd: int, totalDeduct: int, newUsers: nat, netBalance: int, totalTransactions: nat)

  /** The statistics boxes: ADD amounts, DEDUCT and BOOKING amounts, their
      difference, the NEW_USER count and the number of transactions. */
  function StatsOf(ts: seq<Transaction>): (s: Stats)
    ensures s.netBalance == s.totalAdd - s.totalDeduct
    ensures s.totalTransactions == |ts| && s.newUsers <= |ts|
  {
    var add := SumOf(Keep(ts, IsAdd));
    var deduct := SumOf(Keep(ts, IsDeduct));
    Stats(add, deduct, |Keep(ts, IsNewUser)|, add - deduct, |ts|)
  }

  lemma {:induction false} SumConcat(a: seq<Transaction>, b: seq<Transaction>)
    ensures SumOf(a + b) == SumOf(a) + SumOf(b)
  {
    if |b| == 0 {
      assert a + b == a;
    } else {
      SumConcat(a, b[..|b| - 1]);
      assert (a + b)[..|a + b| - 1] == a + b[..|b| - 1];
    }
  }

  lemma {:induction false} SumKeepConcat(a: seq<Transaction>, b: seq<Transaction>, p: Transaction -> bool)
    ensures SumOf(Keep(a + b, p)) == SumOf(Keep(a, p)) + SumOf(Keep(b, p))
  {
    KeepConcat(a, b, p);
    SumConcat(Keep(a, p), Keep(b, p));
  }

  lemma {:induction false} CountKeepConcat(a: seq<Transaction>, b: seq<Transaction>, p: Transaction -> bool)
    ensures |Keep(a + b, p)| == |Keep(a, p)| + |Keep(b, p)|
  {
    KeepConcat(a, b, p);
  }

  /** The statistics add up over a concatenation. */
  lemma {:induction false} StatsConcat(a: seq<Transaction>, b: seq<Transaction>)
    ensures StatsOf(a + b).totalAdd == StatsOf(a).totalAdd + StatsOf(b).totalAdd
    ensures StatsOf(a + b).totalDeduct == StatsOf(a).totalDeduct + StatsOf(b).totalDeduct
    ensures StatsOf(a + b).newUsers == StatsOf(a).newUsers + StatsOf(b).newUsers
    ensures StatsOf(a + b).netBalance == StatsOf(a).netBalance + StatsOf(b).netBalance
    ensures StatsOf(a + b).totalTransactions == StatsOf(a).totalTransactions + StatsOf(b).totalTransactions
  {
    SumKeepConcat(a, b, IsAdd);
    SumKeepConcat(a, b, IsDeduct);
    CountKeepConcat(a, b, IsNewUser);
  }

  /** One transaction counts by its type: an ADD adds its amount, a DEDUCT or
      BOOKING deducts it, a NEW_USER counts one new user, and every other
      type only counts as a transaction. */
  lemma StatsOfOne(t: Transaction)
    ensures var s := StatsOf([t]);
            s.totalAdd == (if t.kind == "ADD" then AmountOf(t) else 0)
            && s.totalDeduct == (if t.kind == "DEDUCT" || t.kind == "BOOKING" then AmountOf(t) else 0)
            && s.newUsers == (if t.kind == "NEW_USER" then 1 else 0)
            && s.totalTransactions == 1
  {
    assert [t][1..] == [];
  }

  // ---------------------------------------------------------------------
  // Search and type filter
  // ---------------------------------------------------------------------

  /** The search test for a lowercased term: the user id's digits, or the
      lowercased user name, staff name or description, contain the term.
      (The source tests the user name twice, once through `&&` and once
      through `?.`; both read the same.) */
  predicate MatchesSearch(tx: Transaction, term: string) {
    Contains(IntToString(tx.userId), term)
    || (tx.userName.Some? && Contains(ToLower(tx.userName.value), term))
    || (tx.adminName.Some? && Contains(ToLower(tx.adminName.value), term))
    || (tx.description.Some? && Contains(ToLower(tx.description.value), term))
  }

  /** A transaction survives the filters: an empty search term keeps
      everything, and the type "all" keeps every type. */
  predicate Visible(tx: Transaction, searchTerm: string, filterType: string) {
    SearchKeeps(tx, searchTerm) && TypeKeeps(tx, filterType)
  }

  predicate SearchKeeps(tx: Transaction, searchTerm: string) {
    searchTerm == "" || MatchesSearch(tx, ToLower(searchTerm))
  }

  predicate TypeKeeps(tx: Transaction, filterType: string) {
    filterType == "all" || tx.kind == filterType
  }

  // ---------------------------------------------------------------------
  // Sorting
  // ---------------------------------------------------------------------

  datatype SortField = UserIdField | TypeField | AmountField | BalanceAfterField | AdminNameField | TimestampField
  datatype SortDirection = Asc | Desc

  /** The value a column is compared by. An undefined value becomes '',
      which compares with a number as 0 and with a string as the empty
      string; a timestamp is compared by its time value. */
  datatype Key = NumberKey(n: int) | TextKey(t: string) | TimeKey(ms: Option<int>)

  function KeyOf(tx: Transaction, field: SortField, timeOf: string -> Option<int>): Key {
    match field
    case UserIdField => NumberKey(tx.userId)
    case TypeField => TextKey(tx.kind)
    case AmountField => NumberKey(if tx.amount.Some? then tx.amount.value else 0)
    case BalanceAfterField => NumberKey(if tx.balanceAfter.Some? then tx.balanceAfter.value else 0)
    case AdminNameField => TextKey(if tx.adminName.Some? then tx.adminName.value else "")
    case TimestampField => TimeKey(timeOf(tx.timestamp))
  }

  /** `<` on two keys of one column; NaN is less than nothing and nothing is
      less than NaN. */
  predicate KeyLess(a: Key, b: Key) {
    match (a, b)
    case (NumberKey(x), NumberKey(y)) => x < y
    case (TextKey(x), TextKey(y)) => LexLess(x, y)
    case (TimeKey(Some(x)), TimeKey(Some(y))) => x < y
    case _ => false
  }

  /** The comparator returns a negative number exactly when the first
      transaction's key is smaller (ascending) or larger (descending). */
  function Before(field: SortField, dir: SortDirection, timeOf: string -> Option<int>): (Transaction, Transaction) -> bool {
    (a: Transaction, b: Transaction) =>
      if dir == Asc then KeyLess(KeyOf(a, field, timeOf), KeyOf(b, field, timeOf))
      else KeyLess(KeyOf(b, field, timeOf), KeyOf(a, field, timeOf))
  }

  lemma KeyLessIsStrict()
    ensures forall a :: !KeyLess(a, a)
    ensures forall a, b, c :: KeyLess(a, b) && KeyLess(b, c) ==> KeyLess(a, c)
  {
    forall a ensures !KeyLess(a, a) {
      if a.TextKey? {
        LexLessIrreflexive(a.t);
      }
    }
    forall a, b, c | KeyLess(a, b) && KeyLess(b, c) ensures KeyLess(a, c) {
      if a.TextKey? {
        LexLessTransitive(a.t, b.t, c.t);
      }
    }
  }

  /** The relation "a comes before b" is irreflexive and transitive for
      every column and direction. */
  lemma BeforeIsStrictOrder(field: SortField, dir: SortDirection, timeOf: string -> Option<int>)
    ensures StrictOrder(Before(field, dir, timeOf))
  {
    KeyLessIsStrict();
  }

  /** A NaN time value breaks the comparator: it ties with 1 and with 5,
      yet 1 comes before 5, so "ties with" is not transitive. */
  lemma NaNTimeTiesWithAll()
    ensures !KeyLess(TimeKey(None), TimeKey(Some(1))) && !KeyLess(TimeKey(Some(1)), TimeKey(None))
    ensures !KeyLess(TimeKey(None), TimeKey(Some(5))) && !KeyLess(TimeKey(Some(5)), TimeKey(None))
    ensures KeyLess(TimeKey(Some(1)), TimeKey(Some(5)))
  {
  }

  /** Every transaction's timestamp has a time value, so the comparator is
      consistent: sorting by any column then yields a sorted list. */
  predicate ComparableTimes(transactions: seq<Transaction>, sortField: SortField, timeOf: string -> Option<int>) {
    sortField == TimestampField ==> forall t :: t in transactions ==> timeOf(t.timestamp).Some?
  }

  /** filteredAndSortedTransactions: a copy of the list, narrowed by the
      search term and the type, then sorted by the column. Sortedness is
      promised only when the comparator is consistent: a timestamp without a
      time value (NaN) compares equal to every other, and JavaScript leaves
      the order of an inconsistent comparator to the engine. */
  method FilteredAndSorted(transactions: seq<Transaction>, searchTerm: string, filterType: string,
                           sortField: SortField, sortDirection: SortDirection, timeOf: string -> Option<int>)
    returns (filtered: seq<Transaction>)
    ensures forall t :: multiset(filtered)[t] == if Visible(t, searchTerm, filterType) then multiset(transactions)[t] else 0
    ensures forall t :: t in filtered <==> t in transactions && Visible(t, searchTerm, filterType)
    ensures ComparableTimes(transactions, sortField, timeOf) ==>
              SortedBy(filtered, Before(sortField, sortDirection, timeOf))
  {
    filtered := transactions;
    if searchTerm != "" {
      var term := ToLower(searchTerm);
      KeepMultiset(filtered, (tx: Transaction) => MatchesSearch(tx, term));
      filtered := Keep(filtered, (tx: Transaction) => MatchesSearch(tx, term));
    }
    ghost var searched := filtered;
    assert forall t :: multiset(searched)[t] == if SearchKeeps(t, searchTerm) then multiset(transactions)[t] else 0;
    if filterType != "all" {
      KeepMultiset(filtered, (tx: Transaction) => tx.kind == filterType);
      filtered := Keep(filtered, (tx: Transaction) => tx.kind == filterType);
    }
    assert forall t :: multiset(filtered)[t] == if TypeKeeps(t, filterType) then multiset(searched)[t] else 0;
    var before := Before(sortField, sortDirection, timeOf);
    BeforeIsStrictOrder(sortField, sortDirection, timeOf);
    SortBySorted(filtered, before);
    filtered := SortBy(filtered, before);
    forall t ensures t in filtered <==> t in transactions && Visible(t, searchTerm, filterType) {
      assert t in filtered <==> multiset(filtered)[t] > 0;
      assert t in transactions <==> multiset(transactions)[t] > 0;
    }
  }

  // ---------------------------------------------------------------------
  // Pagination
  // ---------------------------------------------------------------------

  /** `Math.ceil(n / itemsPerPage)`. */
  function TotalPages(n: nat, k: nat): (r: nat)
    requires k > 0
    ensures r == 0 <==> n == 0
    ensures n > 0 ==> (r - 1) * k < n <= r * k
  {
    (n + k - 1) / k
  }

  /** `slice(startIndex, endIndex)` with startIndex = (page - 1) * k and
      endIndex = startIndex + k, both cut down to the list's length. */
  function PageItems<T>(xs: seq<T>, page: int, k: nat): seq<T>
    requires page >= 1
  {
    var s := Min((page - 1) * k, |xs|);
    var e := Min((page - 1) * k + k, |xs|);
    xs[s..e]
  }

  lemma MulLe(a: int, b: int, k: nat)
    requires a <= b
    ensures a * k <= b * k
  {
    assert b * k - a * k == (b - a) * k;
  }

  /** A page never shows more than k items; page p shows the items
      (p - 1) * k up to p * k, so every page from 1 to totalPages has some
      and every later page none. */
  lemma PageItemsShape<T>(xs: seq<T>, page: int, k: nat)
    requires page >= 1 && k > 0
    ensures |PageItems(xs, page, k)| <= k
    ensures page <= TotalPages(|xs|, k) ==> |PageItems(xs, page, k)| > 0
    ensures page > TotalPages(|xs|, k) ==> PageItems(xs, page, k) == []
    ensures forall j :: 0 <= j < |PageItems(xs, page, k)| ==> PageItems(xs, page, k)[j] == xs[(page - 1) * k + j]
  {
    var r := TotalPages(|xs|, k);
    var start := (page - 1) * k;
    if page <= r {
      MulLe(page - 1, r - 1, k);
      assert start < |xs|;
    } else {
      MulLe(r, page - 1, k);
      assert start >= |xs|;
    }
  }

  /** Every item is on exactly one page: item i is entry i % k of page
      i / k + 1, and that page is one of the totalPages pages. */
  lemma ItemOnItsPage<T>(xs: seq<T>, k: nat, i: nat)
    requires k > 0 && i < |xs|
    ensures var p := i / k + 1;
            p <= TotalPages(|xs|, k) && i % k < |PageItems(xs, p, k)| && PageItems(xs, p, k)[i % k] == xs[i]
  {
    var q := i / k;
    var p := q + 1;
    assert q * k + i % k == i;
    assert (p - 1) * k == q * k;
    assert (p - 1) * k + k > i;
    var r := TotalPages(|xs|, k);
    if p > r {
      MulLe(r, p - 1, k);
      assert false;
    }
    PageItemsShape(xs, p, k);
  }

  /** The "Showing from to to of n" line. */
  function ShowingRange(n: nat, page: int, k: nat): (int, int) {
    ((page - 1) * k + 1, Min((page - 1) * k + k, n))
  }

  /** On a page that exists the line names exactly the items shown. */
  lemma ShowingRangeCounts<T>(xs: seq<T>, page: int, k: nat)
    requires k > 0 && 1 <= page <= TotalPages(|xs|, k)
    ensures var (from, to) := ShowingRange(|xs|, page, k);
            to - from + 1 == |PageItems(xs, page, k)| && from >= 1 && to <= |xs|
  {
    PageItemsShape(xs, page, k);
  }

  // ---------------------------------------------------------------------
  // Page buttons
  // ---------------------------------------------------------------------

  /** The number on button i of the page-button row. */
  function PageNumber(i: int, cur: int, total: nat): int {
    if total <= 5 then i + 1
    else if cur <= 3 then i + 1
    else if cur >= total - 2 then total - 4 + i
    else cur - 2 + i
  }

  /** `Array.from({ length: Math.min(5, totalPages) }, ...)`. */
  function PageWindow(cur: int, total: nat): (w: seq<int>)
    ensures |w| == Min(5, total)
  {
    seq(Min(5, total), i requires 0 <= i < Min(5, total) => PageNumber(i, cur, total))
  }

  /** For a current page within 1..totalPages the buttons are
      min(5, totalPages) consecutive page numbers within 1..totalPages, one
      of them the current page. */
  lemma PageWindowRange(cur: int, total: nat)
    requires 1 <= cur <= total
    ensures var w := PageWindow(cur, total);
            (forall i :: 0 <= i < |w| ==> w[i] == w[0] + i)
            && 1 <= w[0] && w[|w| - 1] <= total && cur in w
  {
    var w := PageWindow(cur, total);
    var i := if total <= 5 || cur <= 3 then cur - 1 else if cur >= total - 2 then cur - total + 4 else 2;
    assert w[i] == cur;
  }

  /** The "..." and last-page button follow the row. */
  predicate ShowsLastPageLink(cur: int, total: nat) {
    total > 5 && cur < total - 2
  }

  /** With more than five pages the extra last-page button appears exactly
      when the row itself lacks the last page. */
  lemma LastPageLinkIffMissing(cur: int, total: nat)
    requires 1 <= cur <= total && total > 5
    ensures ShowsLastPageLink(cur, total) <==> total !in PageWindow(cur, total)
  {
    var w := PageWindow(cur, total);
    PageWindowRange(cur, total);
    if !ShowsLastPageLink(cur, total) {
      assert w[4] == total;
    } else {
      assert w[4] < total;
      assert forall i :: 0 <= i < |w| ==> w[i] < total;
    }
  }

  /** The pagination bar is rendered only with more than one page. */
  predicate PaginationShown(total: nat) {
    total > 1
  }

  /** Previous: `Math.max(prev - 1, 1)`. */
  function PreviousPageOf(cur: int): int { Max(cur - 1, 1) }

  /** Next: `Math.min(prev + 1, totalPages)`. */
  function NextPageOf(cur: int, total: nat): int { Min(cur + 1, total) }

  /** Previous and Next keep a page within 1..totalPages, move by exactly one
      unless at the end they move towards, and stay put there. */
  lemma PreviousNextClamp(cur: int, total: nat)
    requires 1 <= cur <= total
    ensures 1 <= PreviousPageOf(cur) <= total && 1 <= NextPageOf(cur, total) <= total
    ensures PreviousPageOf(cur) == (if cur > 1 then cur - 1 else 1)
    ensures NextPageOf(cur, total) == (if cur < total then cur + 1 else total)
  {
  }

  // ---------------------------------------------------------------------
  // The table's state
  // ---------------------------------------------------------------------

  function Flip(d: SortDirection): SortDirection {
    if d == Asc then Desc else Asc
  }

  predicate PageSizeOption(k: nat) {
    k == 10 || k == 20 || k == 50 || k == 100
  }

  class TableState {
    var searchTerm: string
    var filterType: string
    var sortField: SortField
    var sortDirection: SortDirection
    var currentPage: int
    var itemsPerPage: nat

    ghost predicate Valid()
      reads this
    {
      currentPage >= 1 && PageSizeOption(itemsPerPage)
    }

    constructor()
      ensures Valid()
      ensures searchTerm == "" && filterType == "all" && sortField == TimestampField
      ensures sortDirection == Desc && currentPage == 1 && itemsPerPage == 20
    {
      searchTerm := "";
      filterType := "all";
      sortField := TimestampField;
      sortDirection := Desc;
      currentPage := 1;
      itemsPerPage := 20;
    }

    /** Typing in the search box; a changed term sends the table back to
        page 1. */
    method SetSearchTerm(t: string)
      requires Valid()
      modifies this
      ensures Valid()
      ensures searchTerm == t && currentPage == (if t == old(searchTerm) then old(currentPage) else 1)
      ensures filterType == old(filterType) && sortField == old(sortField)
      ensures sortDirection == old(sortDirection) && itemsPerPage == old(itemsPerPage)
    {
      if t != searchTerm {
        searchTerm := t;
        currentPage := 1;
      }
    }

    /** Choosing a type; a changed type sends the table back to page 1. */
    method SetFilterType(t: string)
      requires Valid()
      modifies this
      ensures Valid()
      ensures filterType == t && currentPage == (if t == old(filterType) then old(currentPage) else 1)
      ensures searchTerm == old(searchTerm) && sortField == old(sortField)
      ensures sortDirection == old(sortDirection) && itemsPerPage == old(itemsPerPage)
    {
      if t != filterType {
        filterType := t;
        currentPage := 1;
      }
    }

    /** handleSort: the current column flips its direction, another column
        is selected descending; either way the sort changes and the table
        goes back to page 1. */
    method HandleSort(field: SortField)
      requires Valid()
      modifies this
      ensures Valid()
      ensures old(sortField) == field ==> sortField == field && sortDirection == Flip(old(sortDirection))
      ensures old(sortField) != field ==> sortField == field && sortDirection == Desc
      ensures currentPage == 1
      ensures searchTerm == old(searchTerm) && filterType == old(filterType) && itemsPerPage == old(itemsPerPage)
    {
      if sortField == field {
        sortDirection := Flip(sortDirection);
      } else {
        sortField := field;
        sortDirection := Desc;
      }
      currentPage := 1;
    }

    /** The page-size select as written: the size changes and the current
        page does not. */
    method SetItemsPerPage(k: nat)
      requires Valid() && PageSizeOption(k)
      modifies this
      ensures Valid()
      ensures itemsPerPage == k && currentPage == old(currentPage)
      ensures searchTerm == old(searchTerm) && filterType == old(filterType)
      ensures sortField == old(sortField) && sortDirection == old(sortDirection)
    {
      itemsPerPage := k;
    }

    /** The page-size select with the page reset that the other controls
        get. */
    method SetItemsPerPageFromFirstPage(k: nat)
      requires Valid() && PageSizeOption(k)
      modifies this
      ensures Valid()
      ensures itemsPerPage == k && currentPage == 1
      ensures searchTerm == old(searchTerm) && filterType == old(filterType)
      ensures sortField == old(sortField) && sortDirection == old(sortDirection)
    {
      itemsPerPage := k;
      currentPage := 1;
    }

    method Previous()
      requires Valid()
      modifies this
      ensures Valid() && currentPage == PreviousPageOf(old(currentPage))
      ensures searchTerm == old(searchTerm) && filterType == old(filterType) && itemsPerPage == old(itemsPerPage)
      ensures sortField == old(sortField) && sortDirection == old(sortDirection)
    {
      currentPage := PreviousPageOf(currentPage);
    }

    /** Next exists only while the bar is shown, with at least two pages. */
    method Next(total: nat)
      requires Valid() && PaginationShown(total)
      modifies this
      ensures Valid() && currentPage == NextPageOf(old(currentPage), total)
      ensures searchTerm == old(searchTerm) && filterType == old(filterType) && itemsPerPage == old(itemsPerPage)
      ensures sortField == old(sortField) && sortDirection == old(sortDirection)
    {
      currentPage := NextPageOf(currentPage, total);
    }

    /** A page button, or the last-page button. */
    method GoToPage(p: int)
      requires Valid() && p >= 1
      modifies this
      ensures Valid() && currentPage == p
      ensures searchTerm == old(searchTerm) && filterType == old(filterType) && itemsPerPage == old(itemsPerPage)
      ensures sortField == old(sortField) && sortDirection == old(sortDirection)
    {
      currentPage := p;
    }
  }

  // ---------------------------------------------------------------------
  // Changing the page size without the page reset
  // ---------------------------------------------------------------------

  /** With 25 transactions on page 3 of 10 per page, choosing 50 per page
      keeps page 3: the page slice is empty, the table says "No transactions
      found", the line reads "Showing 101 to 25 of 25", and the bar that
      would lead back is hidden, since there is only one page. */
  lemma ItemsPerPageStrandsPage<T>(xs: seq<T>)
    requires |xs| == 25
    ensures TotalPages(|xs|, 10) == 3
    ensures TotalPages(|xs|, 50) == 1 && !PaginationShown(TotalPages(|xs|, 50))
    ensures PageItems(xs, 3, 50) == []
    ensures ShowingRange(|xs|, 3, 50) == (101, 25)
  {
  }

  /** With the reset, the first page after any size change shows
      min(k, n) items, so a non-empty list never shows an empty page. */
  lemma FirstPageAfterResize<T>(xs: seq<T>, k: nat)
    requires PageSizeOption(k)
    ensures |PageItems(xs, 1, k)| == Min(k, |xs|)
    ensures |xs| > 0 ==> |PageItems(xs, 1, k)| > 0
  {
  }
}
