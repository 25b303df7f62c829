/** The generic data table's query engine: which column is searched, which
    rows survive the search and the per-key filters, how the survivors are
    cut into pages of fifteen, how the page index moves, and which page
    buttons are shown. */
module Table {
  import opened Js
  import Seqs

  const RowsPerPage: nat := 15
  const MaxPageButtons: nat := 5

  /** A display row: column key to its (already stringified) cell value. */
  type Row = map<string, string>

  datatype Column = Column(key: string, heading: string)

  /** The props that drive the query. `titles` overrides the default label
      of a filter dropdown, which doubles as its "no filter" choice. */
  datatype Props = Props(
    data: seq<Row>,
    columns: seq<Column>,
    filterKeys: seq<string>,
    titles: map<string, string>)

  /** What the user asked for. A filter key missing from `selectedFilters`
      stands for an undefined selection. */
  datatype Query = Query(
    searchTerm: string,
    selectedColumn: string,
    selectedFilters: map<string, string>)

  /** The table's local UI state. */
  datatype State = State(q: Query, currentPage: int)

  // ---------------------------------------------------------------------
  // The initial search column

  /** Columns that are never offered for search. */
  predicate Unsearchable(key: string)
  {
    key == "img" || key == "action" || key == "reason"
  }

  /** The position of the first searchable column, if any. */
  function FirstSearchable(cols: seq<Column>): (r: Option<nat>)
    ensures r.Some? ==> r.value < |cols| && !Unsearchable(cols[r.value].key)
    ensures r.Some? ==> forall j :: 0 <= j < r.value ==> Unsearchable(cols[j].key)
    ensures r.None? ==> forall j :: 0 <= j < |cols| ==> Unsearchable(cols[j].key)
  {
    if |cols| == 0 then None
    else if !Unsearchable(cols[0].key) then Some(0)
    else
      match FirstSearchable(cols[1..])
      case None => None
      case Some(i) => Some(i + 1)
  }

  /** The column searched when the table mounts: the first searchable
      column's key, falling back to the first column's key, then to "". */
  function DefaultColumn(cols: seq<Column>): (r: string)
    ensures forall i :: 0 <= i < |cols| && !Unsearchable(cols[i].key)
              && (forall j :: 0 <= j < i ==> Unsearchable(cols[j].key))
              ==> r == if cols[i].key != "" then cols[i].key else cols[0].key
    ensures (forall j :: 0 <= j < |cols| ==> Unsearchable(cols[j].key))
              ==> r == if |cols| > 0 then cols[0].key else ""
  {
    var found := FirstSearchable(cols);
    var foundKey := if found.Some? then cols[found.value].key else "";
    if foundKey != "" then foundKey
    else if |cols| > 0 && cols[0].key != "" then cols[0].key
    else ""
  }

  // ---------------------------------------------------------------------
  // Search and filters

  /** The label of a filter dropdown's default choice. */
  function FilterTitle(key: string, titles: map<string, string>): string
  {
    if key in titles && titles[key] != "" then titles[key] else Capitalize(key)
  }

  /** Every filter starts on its default choice. */
  function InitialFilters(keys: seq<string>, titles: map<string, string>): map<string, string>
  {
    map k | k in keys :: FilterTitle(k, titles)
  }

  function InitialState(p: Props): State
  {
    State(Query("", DefaultColumn(p.columns), InitialFilters(p.filterKeys, p.titles)), 0)
  }

  /** Case-insensitive substring search on one column; an absent cell
      never matches a non-empty term. */
  predicate MatchesSearch(row: Row, column: string, term: string)
  {
    term == "" || (column in row && Includes(Lower(row[column]), Lower(term)))
  }

  /** One filter: the default choice matches everything, otherwise the
      trimmed cell must equal the choice. An undefined choice matches the
      rows that lack the key, as `undefined === undefined` does. */
  predicate MatchesFilter(row: Row, key: string, selected: map<string, string>, titles: map<string, string>)
  {
    if key in selected && selected[key] == FilterTitle(key, titles) then true
    else if key in row then key in selected && Trim(row[key]) == selected[key]
    else key !in selected
  }

  predicate Passes(row: Row, p: Props, q: Query)
  {
    && MatchesSearch(row, q.selectedColumn, q.searchTerm)
    && forall k :: k in p.filterKeys ==> MatchesFilter(row, k, q.selectedFilters, p.titles)
  }

  /** The rows that survive the search and every filter. */
  function FilteredData(p: Props, q: Query): seq<Row>
  {
    Seqs.Filter(p.data, row => Passes(row, p, q))
  }

  /** The filtered rows are exactly the rows that pass the search and
      every filter, kept in their original order. */
  lemma FilteredDataExact(p: Props, q: Query) returns (idx: seq<nat>)
    ensures Seqs.Picks(FilteredData(p, q), p.data, idx)
    ensures forall i :: 0 <= i < |p.data| ==>
      (i in idx <==>
        (q.searchTerm == ""
          || (q.selectedColumn in p.data[i]
              && Includes(Lower(p.data[i][q.selectedColumn]), Lower(q.searchTerm))))
        && forall k :: k in p.filterKeys ==> MatchesFilter(p.data[i], k, q.selectedFilters, p.titles))
  {
    idx := Seqs.FilterPicksExactly(p.data, row => Passes(row, p, q));
  }

  /** With an empty term and every filter on its default choice, nothing
      is filtered out. */
  lemma NoQueryKeepsEverything(p: Props, q: Query)
    requires q.searchTerm == ""
    requires forall k :: k in p.filterKeys ==>
      k in q.selectedFilters && q.selectedFilters[k] == FilterTitle(k, p.titles)
    ensures FilteredData(p, q) == p.data
  {
    FilterAllPass(p.data, row => Passes(row, p, q));
  }

  lemma {:induction false} FilterAllPass(xs: seq<Row>, f: Row -> bool)
    requires forall i :: 0 <= i < |xs| ==> f(xs[i])
    ensures Seqs.Filter(xs, f) == xs
  {
    if |xs| > 0 {
      FilterAllPass(xs[1..], f);
      assert xs == [xs[0]] + xs[1..];
    }
  }

  lemma LowerAppend(a: string, b: string)
    ensures Lower(a + b) == Lower(a) + Lower(b)
  {
  }

  lemma IncludesPrefix(x: string, t: string, e: string)
    requires Includes(x, t + e)
    ensures Includes(x, t)
  {
    var i :| 0 <= i <= |x| && OccursAt(x, t + e, i);
    assert x[i..i + |t|] == (t + e)[..|t|];
    assert OccursAt(x, t, i);
  }

  /** Typing more characters into the search box only narrows the match. */
  lemma SearchNarrows(row: Row, column: string, term: string, extra: string)
    requires MatchesSearch(row, column, term + extra)
    ensures MatchesSearch(row, column, term)
  {
    if term != "" {
      LowerAppend(term, extra);
      IncludesPrefix(Lower(row[column]), Lower(term), Lower(extra));
    }
  }

  // ---------------------------------------------------------------------
  // Pagination

  /** `Math.ceil(n / 15)` */
  function TotalPages(n: nat): (t: nat)
    ensures t * RowsPerPage >= n
    ensures t == 0 || (t - 1) * RowsPerPage < n
    ensures t == 0 <==> n == 0
  {
    (n + RowsPerPage - 1) / RowsPerPage
  }

  /** `filtered.slice(page * 15, (page + 1) * 15)` */
  function Page(filtered: seq<Row>, page: int): (r: seq<Row>)
    ensures |r| <= RowsPerPage
    ensures 0 <= page ==>
      var lo := if page * RowsPerPage < |filtered| then page * RowsPerPage else |filtered|;
      var hi := if (page + 1) * RowsPerPage < |filtered| then (page + 1) * RowsPerPage else |filtered|;
      r == filtered[lo..hi]
    ensures page == -1 ==> r == []
  {
    Seqs.Slice(filtered, page * RowsPerPage, (page + 1) * RowsPerPage)
  }

  /** The rows on screen. */
  function Visible(p: Props, s: State): seq<Row>
  {
    Page(FilteredData(p, s.q), s.currentPage)
  }

  /** Every page below the page count is non-empty and no page past it
      shows anything. */
  lemma PageOccupancy(filtered: seq<Row>, page: int)
    requires 0 <= page
    ensures page < TotalPages(|filtered|) ==> 0 < |Page(filtered, page)|
    ensures page >= TotalPages(|filtered|) ==> Page(filtered, page) == []
  {
  }

  /** Pages `from`, `from + 1`, ... up to the last one, in order. */
  ghost function PagesFrom(filtered: seq<Row>, from: nat): seq<Row>
    decreases TotalPages(|filtered|) - from
  {
    if from >= TotalPages(|filtered|) then []
    else Page(filtered, from) + PagesFrom(filtered, from + 1)
  }

  /** Reading the pages one after the other gives back every filtered row
      exactly once and in order. */
  lemma {:induction false} PagesCoverFiltered(filtered: seq<Row>, from: nat)
    ensures from * RowsPerPage <= |filtered| ==> PagesFrom(filtered, from) == filtered[from * RowsPerPage..]
    ensures from * RowsPerPage > |filtered| ==> PagesFrom(filtered, from) == []
    decreases TotalPages(|filtered|) - from
  {
    var n := |filtered|;
    if from >= TotalPages(n) {
      assert from * RowsPerPage >= n;
    } else {
      PagesCoverFiltered(filtered, from + 1);
      var lo := from * RowsPerPage;
      var hi := (from + 1) * RowsPerPage;
      if hi <= n {
        assert filtered[lo..] == filtered[lo..hi] + filtered[hi..];
      } else {
        assert TotalPages(n) == from + 1;
      }
    }
  }

  // ---------------------------------------------------------------------
  // Transitions

  function SearchChange(s: State, term: string): State
  {
    State(s.q.(searchTerm := term), 0)
  }

  function ColumnChange(s: State, column: string): State
  {
    State(s.q.(selectedColumn := column, searchTerm := ""), 0)
  }

  function FilterChange(s: State, key: string, value: string): State
  {
    State(s.q.(selectedFilters := s.q.selectedFilters[key := value]), 0)
  }

  /** Clicking a filter dropdown puts it back on its default choice. */
  function FilterReset(s: State, key: string, titles: map<string, string>): State
  {
    State(s.q.(selectedFilters := s.q.selectedFilters[key := FilterTitle(key, titles)]), 0)
  }

  function Previous(s: State): (r: State)
    ensures r.currentPage >= 0
    ensures r.currentPage <= s.currentPage || r.currentPage == 0
    ensures s.currentPage > 0 ==> r.currentPage == s.currentPage - 1
  {
    s.(currentPage := if s.currentPage - 1 > 0 then s.currentPage - 1 else 0)
  }

  function Next(s: State, totalPages: nat): (r: State)
    ensures r.currentPage <= totalPages - 1
    ensures s.currentPage < totalPages - 1 ==> r.currentPage == s.currentPage + 1
  {
    s.(currentPage := if s.currentPage + 1 < totalPages - 1 then s.currentPage + 1 else totalPages - 1)
  }

  // ---------------------------------------------------------------------
  // Page buttons

  /** The page number on the `i`-th button. */
  function PageNumber(totalPages: nat, page: int, i: nat): int
  {
    if totalPages <= MaxPageButtons then i
    else if page <= 2 then i
    else if page >= totalPages - 3 then totalPages - MaxPageButtons + i
    else page - 2 + i
  }

  /** The row of numbered page buttons. */
  function PageWindow(totalPages: nat, page: int): (w: seq<int>)
    ensures |w| == if totalPages < MaxPageButtons then totalPages else MaxPageButtons
    ensures forall i :: 0 <= i < |w| ==> w[i] == w[0] + i
    ensures 0 <= page < totalPages ==> forall i :: 0 <= i < |w| ==> 0 <= w[i] < totalPages
    ensures 0 <= page < totalPages ==> page in w
  {
    var n := if totalPages < MaxPageButtons then totalPages else MaxPageButtons;
    var w := seq(n, i requires 0 <= i < n => PageNumber(totalPages, page, i));
    assert 0 <= page < totalPages ==> w[page - w[0]] == page;
    w
  }

  // ---------------------------------------------------------------------
  // The table as a state machine driven by the user

  datatype Event =
    | SearchInput(term: string)
    | ColumnPick(column: string)
    | FilterPick(key: string, value: string)
    | FilterClick(key: string)
    | PreviousClick
    | NextClick
    | PageButtonClick(button: nat)

  /** The pagination bar is rendered only when there is more than one page. */
  predicate PaginationShown(p: Props, s: State)
  {
    |FilteredData(p, s.q)| > RowsPerPage
  }

  /** The effect of one user action. Clicks on a control that is not
      rendered or is disabled do nothing; filter events only exist for the
      configured filter keys. */
  function Dispatch(p: Props, s: State, e: Event): State
  {
    var total := TotalPages(|FilteredData(p, s.q)|);
    match e
    case SearchInput(term) => SearchChange(s, term)
    case ColumnPick(column) => ColumnChange(s, column)
    case FilterPick(key, value) => if key in p.filterKeys then FilterChange(s, key, value) else s
    case FilterClick(key) => if key in p.filterKeys then FilterReset(s, key, p.titles) else s
    case PreviousClick =>
      if PaginationShown(p, s) && s.currentPage != 0 then Previous(s) else s
    case NextClick =>
      if PaginationShown(p, s) && !(s.currentPage >= total - 1) then Next(s, total) else s
    case PageButtonClick(b) =>
      var w := PageWindow(total, s.currentPage);
      if PaginationShown(p, s) && b < |w| then s.(currentPage := w[b]) else s
  }

  /** The page index names an existing page (page 0 always counts, even
      when nothing is left to show). */
  predicate PageInRange(p: Props, s: State)
  {
    0 <= s.currentPage && (s.currentPage == 0 || s.currentPage < TotalPages(|FilteredData(p, s.q)|))
  }

  /** Changing the query in any way returns to the first page. */
  lemma QueryEventsResetPage(p: Props, s: State, e: Event)
    requires e.SearchInput? || e.ColumnPick? || e.FilterPick? || e.FilterClick?
    requires (e.FilterPick? || e.FilterClick?) ==> e.key in p.filterKeys
    ensures Dispatch(p, s, e).currentPage == 0
    ensures e.ColumnPick? ==> Dispatch(p, s, e).q.searchTerm == ""
  {
  }

  /** Whatever the user does in the table itself, the page index stays on
      an existing page. */
  lemma DispatchKeepsPageInRange(p: Props, s: State, e: Event)
    requires PageInRange(p, s)
    ensures PageInRange(p, Dispatch(p, s, e))
  {
    var total := TotalPages(|FilteredData(p, s.q)|);
    match e
    case PageButtonClick(b) =>
      if PaginationShown(p, s) && b < |PageWindow(total, s.currentPage)| {
        assert 0 <= s.currentPage < total;
      }
    case _ =>
  }

  lemma InitialPageInRange(p: Props)
    ensures PageInRange(p, InitialState(p))
  {
  }

  // ---------------------------------------------------------------------
  // A new `data` prop

  /** The parent passes new rows, as written: the table keeps its whole
      state, the page index included. */
  function DataChange(p: Props, s: State, data: seq<Row>): (Props, State)
  {
    (p.(data := data), s)
  }

  /** `n` rows without cells. */
  function BlankRows(n: nat): (r: seq<Row>)
    ensures |r| == n
  {
    seq(n, _ => map[])
  }

  /** As written, a delete that removes the sixteenth row while the second
      page is shown strands the table: the page index names no page, no
      row is shown, the "no data" row is not shown either since fifteen
      rows remain, the pager is hidden and no pager click moves the page. */
  lemma ShrinkStrandsPage()
    ensures var p := Props(BlankRows(16), [], [], map[]);
      var s := State(Query("", "", map[]), 1);
      var after := DataChange(p, s, BlankRows(15));
      && PageInRange(p, s)
      && !PageInRange(after.0, after.1)
      && Visible(after.0, after.1) == []
      && |FilteredData(after.0, after.1.q)| == 15
      && !PaginationShown(after.0, after.1)
      && forall e: Event :: e.PreviousClick? || e.NextClick? || e.PageButtonClick? ==>
           Dispatch(after.0, after.1, e) == after.1
  {
    var p := Props(BlankRows(16), [], [], map[]);
    var s := State(Query("", "", map[]), 1);
    var after := DataChange(p, s, BlankRows(15));
    assert after.1 == s;
    assert FilteredData(p, s.q) == BlankRows(16) by {
      NoQueryKeepsEverything(p, s.q);
    }
    assert FilteredData(after.0, s.q) == BlankRows(15) by {
      NoQueryKeepsEverything(after.0, s.q);
    }
    assert TotalPages(16) == 2 && TotalPages(15) == 1;
    assert Page(BlankRows(15), 1) == [];
    forall e: Event | e.PreviousClick? || e.NextClick? || e.PageButtonClick?
      ensures Dispatch(after.0, after.1, e) == after.1
    {
      HiddenPagerIgnoresClicks(after.0, s, e);
    }
  }

  /** While the pager is hidden, its clicks change nothing. */
  lemma HiddenPagerIgnoresClicks(p: Props, s: State, e: Event)
    requires !PaginationShown(p, s)
    requires e.PreviousClick? || e.NextClick? || e.PageButtonClick?
    ensures Dispatch(p, s, e) == s
  {
  }

  /** A new `data` prop as evidently intended: the current page is kept
      while it still exists, otherwise the table moves to the last page
      (page 0 when nothing is left). */
  function DataChangeFixed(p: Props, s: State, data: seq<Row>): (r: (Props, State))
    ensures r.0 == p.(data := data) && r.1.q == s.q
    ensures PageInRange(r.0, r.1)
    ensures PageInRange(p.(data := data), s) ==> r.1 == s
    ensures !PageInRange(p.(data := data), s) ==>
      r.1.currentPage == (if |FilteredData(r.0, s.q)| == 0 then 0 else TotalPages(|FilteredData(r.0, s.q)|) - 1)
  {
    var p2 := p.(data := data);
    var t := TotalPages(|FilteredData(p2, s.q)|);
    if PageInRange(p2, s) then (p2, s)
    else (p2, s.(currentPage := if t == 0 then 0 else t - 1))
  }

  /** With the correction the table always shows something: rows when
      any row passes the query, and the "no data" row otherwise; every
      later event keeps the page in range. */
  lemma DataChangeFixedShowsRows(p: Props, s: State, data: seq<Row>, e: Event)
    ensures var r := DataChangeFixed(p, s, data);
      && (Visible(r.0, r.1) == [] <==> |FilteredData(r.0, r.1.q)| == 0)
      && PageInRange(r.0, Dispatch(r.0, r.1, e))
  {
    var r := DataChangeFixed(p, s, data);
    var filtered := FilteredData(r.0, r.1.q);
    PageOccupancy(filtered, r.1.currentPage);
    DispatchKeepsPageInRange(r.0, r.1, e);
  }

  // ---------------------------------------------------------------------
  // Filter dropdown options

  /** A row's trimmed cell for `key`, "" when the row has none. */
  function Cell(row: Row, key: string): string
  {
    if key in row then Trim(row[key]) else ""
  }

  function Cells(data: seq<Row>, key: string): (r: seq<string>)
    ensures |r| == |data|
    ensures forall j :: 0 <= j < |data| ==> r[j] == Cell(data[j], key)
  {
    seq(|data|, j requires 0 <= j < |data| => Cell(data[j], key))
  }

  /** The choices of one filter dropdown: its default label, then each
      distinct trimmed value of the key, without empty entries. */
  method FilterOptions(data: seq<Row>, key: string, title: string) returns (opts: seq<string>)
    ensures title != "" ==> |opts| > 0 && opts[0] == title
    ensures title == "" ==> Seqs.NoDuplicates(opts)
    ensures title != "" ==> Seqs.NoDuplicates(opts[1..])
    ensures forall o :: o in opts ==> o != ""
    ensures forall o :: o in opts ==> o == title || o in Cells(data, key)
    ensures forall j :: 0 <= j < |data| && Cell(data[j], key) != "" ==> Cell(data[j], key) in opts
  {
    var values: seq<string> := [];
    var i := 0;
    while i < |data|
      invariant 0 <= i <= |data|
      invariant Seqs.NoDuplicates(values)
      invariant forall o :: o in values <==> o != "" && o in Cells(data[..i], key)
    {
      assert Cells(data[..i + 1], key) == Cells(data[..i], key) + [Cell(data[i], key)];
      var v := Cell(data[i], key);
      if v != "" && v !in values {
        values := values + [v];
      }
      i := i + 1;
    }
    assert data[..i] == data;
    opts := if title != "" then [title] + values else values;
    assert title != "" ==> opts[1..] == values;
  }
}
