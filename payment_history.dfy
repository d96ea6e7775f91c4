/**
 * The payment-history table of the dashboard: the sort-toggle state machine and the search box
 * (component state updated by event handlers), the request URL built from that state, the
 * client-side status filter, the chip colour and method label of a row, and the row-number and
 * range-label arithmetic.
 */
module PaymentHistory {
  import opened Wrappers
  import Js
  import Analytics

  // ---------------------------------------------------------------------------
  // Sorting (handleSort)

  /** A sortable column. */
  datatype SortField = Created | Amount | Status

  datatype SortOrder = Asc | Desc

  function SortFieldName(f: SortField): string
  {
    match f
    case Created => "created"
    case Amount => "amount"
    case Status => "status"
  }

  function SortOrderName(o: SortOrder): string
  {
    match o
    case Asc => "asc"
    case Desc => "desc"
  }

  /** The pair (`sortField`, `sortOrder`); `None` is `null`. */
  datatype Sorting = Sorting(field: Option<SortField>, order: Option<SortOrder>)

  const Unsorted := Sorting(None, None)

  /** The field and the order are set together or not at all. */
  predicate Consistent(s: Sorting)
  {
    s.field.None? <==> s.order.None?
  }

  /**
   * The sort state after a click on the header of `field`: a different field starts ascending,
   * the same field turns from ascending to descending, and otherwise sorting is switched off.
   * Whatever the state before, the state after is consistent and sorts, if at all, by `field`.
   */
  function Click(s: Sorting, field: SortField): (r: Sorting)
    ensures Consistent(r)
    ensures r.field == None || r.field == Some(field)
    ensures r.order == Some(Asc) <==> s.field != Some(field)
  {
    if s.field != Some(field) then Sorting(Some(field), Some(Asc))
    else if s.order == Some(Asc) then Sorting(Some(field), Some(Desc))
    else Unsorted
  }

  /** The state after clicking the headers `fields` in turn, starting from `s`. */
  function Clicks(s: Sorting, fields: seq<SortField>): Sorting
  {
    if fields == [] then s else Click(Clicks(s, fields[..|fields| - 1]), fields[|fields| - 1])
  }

  /** `n` clicks on the same header. */
  function Repeat(f: SortField, n: nat): (fs: seq<SortField>)
    ensures |fs| == n && forall i :: 0 <= i < n ==> fs[i] == f
  {
    seq(n, _ => f)
  }

  /** Every state reachable from the initial one is consistent. */
  lemma ReachableConsistent(fields: seq<SortField>)
    ensures Consistent(Clicks(Unsorted, fields))
  {
  }

  /** Clicking one header over and over cycles unsorted, ascending, descending, unsorted. */
  lemma {:induction false} SameHeaderCycles(f: SortField, n: nat)
    ensures Clicks(Unsorted, Repeat(f, n))
      == [Unsorted, Sorting(Some(f), Some(Asc)), Sorting(Some(f), Some(Desc))][n % 3]
  {
    if n > 0 {
      SameHeaderCycles(f, n - 1);
      assert Repeat(f, n)[..n - 1] == Repeat(f, n - 1);
    }
  }

  /** From any consistent state that is unsorted or sorted by `f`, three clicks on `f` come back. */
  lemma ThreeClicksReturn(s: Sorting, f: SortField)
    requires Consistent(s) && (s.field == None || s.field == Some(f))
    ensures Click(Click(Click(s, f), f), f) == s
  {
    var up, down := Sorting(Some(f), Some(Asc)), Sorting(Some(f), Some(Desc));
    assert Click(Unsorted, f) == up && Click(up, f) == down && Click(down, f) == Unsorted;
    match s.order
    case None =>
      assert s == Unsorted;
    case Some(Asc) =>
      assert s == up;
    case Some(Desc) =>
      assert s == down;
  }

  // ---------------------------------------------------------------------------
  // Searching

  /** The options of the "Search By" select. */
  datatype SearchField = ById | ByAmount | ByStatus | ByPaymentMethod

  function SearchFieldName(f: SearchField): string
  {
    match f
    case ById => "id"
    case ByAmount => "amount"
    case ByStatus => "status"
    case ByPaymentMethod => "paymentMethod"
  }

  // ---------------------------------------------------------------------------
  // The request URL (the fetch effect)

  /** One `name=value` pair of a query string. */
  datatype Param = Param(name: string, value: string)

  const Path := "/api/analytics?"

  /** `s.trim()` is empty. */
  predicate Blank(s: string)
  {
    Js.Trim(s) == ""
  }

  /** Blank text is white space through and through. */
  lemma BlankIff(s: string)
    ensures Blank(s) <==> forall k :: 0 <= k < |s| ==> Js.IsWhiteSpace(s[k])
  {
    Js.TrimEmptyIff(s);
  }

  /** The URL the table fetches, built as the effect builds it: the page and the limit, then
      the sort if both halves are set, then the search if the debounced text is not blank. */
  function RequestUrl(page: int, limit: int, sorting: Sorting, searchField: SearchField, debounced: string): string
  {
    AddSearch(AddSort(BaseRequestUrl(page, limit), sorting), searchField, debounced)
  }

  function BaseRequestUrl(page: int, limit: int): string
  {
    Path + "page=" + Js.IntToString(page) + "&limit=" + Js.IntToString(limit)
  }

  function AddSort(url: string, sorting: Sorting): string
  {
    if sorting.field.Some? && sorting.order.Some?
    then url + "&sortBy=" + SortFieldName(sorting.field.value) + "&sortOrder=" + SortOrderName(sorting.order.value)
    else url
  }

  function AddSearch(url: string, searchField: SearchField, debounced: string): string
  {
    if !Blank(debounced)
    then url + "&searchField=" + SearchFieldName(searchField) + "&searchValue=" + Js.EncodeURIComponent(debounced)
    else url
  }

  /** The parameters the request should carry: page and limit always, the sort only when both
      halves are set, the search only when the debounced text is not blank. */
  function RequestParams(page: int, limit: int, sorting: Sorting, searchField: SearchField, debounced: string): seq<Param>
  {
    [Param("page", Js.IntToString(page)), Param("limit", Js.IntToString(limit))]
    + SortParams(sorting) + SearchParams(searchField, debounced)
  }

  function SortParams(sorting: Sorting): seq<Param>
  {
    if sorting.field.Some? && sorting.order.Some?
    then [Param("sortBy", SortFieldName(sorting.field.value)), Param("sortOrder", SortOrderName(sorting.order.value))]
    else []
  }

  function SearchParams(searchField: SearchField, debounced: string): seq<Param>
  {
    if !Blank(debounced)
    then [Param("searchField", SearchFieldName(searchField)), Param("searchValue", Js.EncodeURIComponent(debounced))]
    else []
  }

  /** Reads one `name=value` segment (a segment without `=` has an empty value). */
  function ParseParam(segment: string): Param
  {
    var kv := Js.Split(segment, '=');
    Param(kv[0], if |kv| > 1 then kv[1] else "")
  }

  /** Reads a query string: its `&`-separated segments, each as a parameter. */
  function ParseQuery(query: string): (ps: seq<Param>)
    ensures |ps| >= 1
  {
    var segments := Js.Split(query, '&');
    seq(|segments|, i requires 0 <= i < |segments| => ParseParam(segments[i]))
  }

  function Names(ps: seq<Param>): (ns: seq<string>)
    ensures |ns| == |ps| && forall i :: 0 <= i < |ps| ==> ns[i] == ps[i].name
  {
    seq(|ps|, i requires 0 <= i < |ps| => ps[i].name)
  }

  /** The parameter names of a URL of the table. */
  function QueryNames(url: string): seq<string>
  {
    if |url| >= |Path| && url[..|Path|] == Path then Names(ParseQuery(url[|Path|..])) else []
  }

  function Segment(p: Param): string
  {
    p.name + "=" + p.value
  }

  /** The segments of `ps` joined by `&`. */
  function Join(ps: seq<Param>): string
    decreases |ps|
  {
    if ps == [] then ""
    else if |ps| == 1 then Segment(ps[0])
    else Segment(ps[0]) + "&" + Join(ps[1..])
  }

  /** Text that can stand in a query string as a name or a value without splitting it. */
  predicate Plain(s: string)
  {
    '&' !in s && '=' !in s
  }

  lemma SegmentParses(p: Param)
    requires Plain(p.name) && Plain(p.value)
    ensures '&' !in Segment(p)
    ensures ParseParam(Segment(p)) == p
  {
    Js.SplitCons(p.name, '=', p.value);
    Js.SplitNoSeparator(p.value, '=');
    assert Segment(p) == p.name + ['='] + p.value;
  }

  /** Joining plain parameters and reading them back gives them back. */
  lemma {:induction false} JoinParses(ps: seq<Param>)
    requires ps != []
    requires AllPlain(ps)
    ensures ParseQuery(Join(ps)) == ps
  {
    var seg := Segment(ps[0]);
    SegmentParses(ps[0]);
    if |ps| == 1 {
      Js.SplitNoSeparator(seg, '&');
    } else {
      var rest := Join(ps[1..]);
      JoinParses(ps[1..]);
      assert Join(ps) == seg + ['&'] + rest;
      Js.SplitCons(seg, '&', rest);
      var parts := Js.Split(Join(ps), '&');
      assert parts == [seg] + Js.Split(rest, '&');
      forall i | 0 <= i < |ps| ensures ParseQuery(Join(ps))[i] == ps[i] {
        if i > 0 {
          assert parts[i] == Js.Split(rest, '&')[i - 1];
          assert ParseQuery(rest)[i - 1] == ps[1..][i - 1];
        }
      }
    }
  }

  lemma {:induction false} JoinAppend(a: seq<Param>, b: seq<Param>)
    requires a != [] && b != []
    ensures Join(a + b) == Join(a) + "&" + Join(b)
    decreases |a|
  {
    if |a| == 1 {
      assert (a + b)[1..] == b;
    } else {
      assert (a + b)[1..] == a[1..] + b;
      JoinAppend(a[1..], b);
    }
  }

  lemma IntToStringPlain(n: int)
    ensures Plain(Js.IntToString(n))
  {
  }

  lemma EncodedPlain(s: string)
    ensures Plain(Js.EncodeURIComponent(s))
  {
  }

  /** The URL up to the limit is the path followed by the page and limit parameters. */
  lemma BaseUrl(page: string, limit: string)
    ensures Path + "page=" + page + "&limit=" + limit == Path + Join([Param("page", page), Param("limit", limit)])
  {
    assert Join([Param("page", page), Param("limit", limit)]) == "page" + "=" + page + "&" + ("limit" + "=" + limit);
  }

  /** Appending `&n1=v1&n2=v2` to the URL of some parameters gives the URL of two more. */
  lemma TwoMore(url: string, ps: seq<Param>, n1: string, v1: string, n2: string, v2: string)
    requires ps != [] && url == Path + Join(ps)
    ensures url + ("&" + n1 + "=") + v1 + ("&" + n2 + "=") + v2
      == Path + Join(ps + [Param(n1, v1), Param(n2, v2)])
  {
    var p1, p2 := Param(n1, v1), Param(n2, v2);
    assert Join([p1, p2]) == n1 + "=" + v1 + "&" + (n2 + "=" + v2) by {
      assert [p1, p2][1..] == [p2];
    }
    JoinAppend(ps, [p1, p2]);
    Regroup(Path, Join(ps), "&", "=", n1, v1, n2, v2);
  }

  /** Re-bracketing the text of two more parameters. */
  lemma Regroup(x: string, y: string, amp: string, eq: string, n1: string, v1: string, n2: string, v2: string)
    ensures (x + y) + (amp + n1 + eq) + v1 + (amp + n2 + eq) + v2
      == x + (y + amp + (n1 + eq + v1 + amp + (n2 + eq + v2)))
  {
  }

  lemma AddSortJoin(url: string, ps: seq<Param>, sorting: Sorting)
    requires ps != [] && url == Path + Join(ps)
    ensures AddSort(url, sorting) == Path + Join(ps + SortParams(sorting))
  {
    if sorting.field.Some? && sorting.order.Some? {
      assert "&sortBy=" == "&" + "sortBy" + "=";
      assert "&sortOrder=" == "&" + "sortOrder" + "=";
      TwoMore(url, ps, "sortBy", SortFieldName(sorting.field.value), "sortOrder", SortOrderName(sorting.order.value));
    } else {
      assert ps + [] == ps;
    }
  }

  lemma AddSearchJoin(url: string, ps: seq<Param>, searchField: SearchField, debounced: string)
    requires ps != [] && url == Path + Join(ps)
    ensures AddSearch(url, searchField, debounced) == Path + Join(ps + SearchParams(searchField, debounced))
  {
    if !Blank(debounced) {
      assert "&searchField=" == "&" + "searchField" + "=";
      assert "&searchValue=" == "&" + "searchValue" + "=";
      TwoMore(url, ps, "searchField", SearchFieldName(searchField), "searchValue", Js.EncodeURIComponent(debounced));
    } else {
      assert ps + [] == ps;
    }
  }

  /** The URL as built is the path followed by the joined request parameters. */
  lemma UrlIsJoin(page: int, limit: int, sorting: Sorting, searchField: SearchField, debounced: string)
    ensures RequestUrl(page, limit, sorting, searchField, debounced)
      == Path + Join(RequestParams(page, limit, sorting, searchField, debounced))
  {
    var base := [Param("page", Js.IntToString(page)), Param("limit", Js.IntToString(limit))];
    BaseUrl(Js.IntToString(page), Js.IntToString(limit));
    var sorted := AddSort(BaseRequestUrl(page, limit), sorting);
    AddSortJoin(BaseRequestUrl(page, limit), base, sorting);
    AddSearchJoin(sorted, base + SortParams(sorting), searchField, debounced);
  }

  predicate AllPlain(ps: seq<Param>)
  {
    forall i :: 0 <= i < |ps| ==> Plain(ps[i].name) && Plain(ps[i].value)
  }

  lemma AllPlainAppend(a: seq<Param>, b: seq<Param>)
    requires AllPlain(a) && AllPlain(b)
    ensures AllPlain(a + b)
  {
    forall i | 0 <= i < |a + b| ensures Plain((a + b)[i].name) && Plain((a + b)[i].value) {
      if i >= |a| {
        assert (a + b)[i] == b[i - |a|];
      }
    }
  }

  /** The parameter names are plain. */
  lemma NamesPlain()
    ensures Plain("page") && Plain("limit") && Plain("sortBy") && Plain("sortOrder")
    ensures Plain("searchField") && Plain("searchValue")
  {
  }

  /** The names of the sortable fields are plain. */
  lemma SortFieldNamePlain(f: SortField)
    ensures Plain(SortFieldName(f))
  {
    match f
    case Created =>
    case Amount =>
    case Status =>
  }

  lemma SortOrderNamePlain(o: SortOrder)
    ensures Plain(SortOrderName(o))
  {
    match o
    case Asc =>
    case Desc =>
  }

  /** The names of the searchable fields are plain. */
  lemma SearchFieldNamePlain(g: SearchField)
    ensures Plain(SearchFieldName(g))
  {
    match g
    case ById =>
    case ByAmount =>
    case ByStatus =>
    case ByPaymentMethod =>
  }

  lemma PairPlain(n1: string, v1: string, n2: string, v2: string)
    requires Plain(n1) && Plain(v1) && Plain(n2) && Plain(v2)
    ensures AllPlain([Param(n1, v1), Param(n2, v2)])
  {
  }

  /** No name or value of the request contains `&` or `=`. */
  lemma ParamsPlain(page: int, limit: int, sorting: Sorting, searchField: SearchField, debounced: string)
    ensures AllPlain(RequestParams(page, limit, sorting, searchField, debounced))
  {
    var pageText, limitText := Js.IntToString(page), Js.IntToString(limit);
    IntToStringPlain(page);
    IntToStringPlain(limit);
    NamesPlain();
    PairPlain("page", pageText, "limit", limitText);
    var sort, search := SortParams(sorting), SearchParams(searchField, debounced);
    assert AllPlain(sort) by {
      if sorting.field.Some? && sorting.order.Some? {
        var f, o := sorting.field.value, sorting.order.value;
        SortFieldNamePlain(f);
        SortOrderNamePlain(o);
        PairPlain("sortBy", SortFieldName(f), "sortOrder", SortOrderName(o));
      }
    }
    assert AllPlain(search) by {
      if !Blank(debounced) {
        EncodedPlain(debounced);
        SearchFieldNamePlain(searchField);
        PairPlain("searchField", SearchFieldName(searchField), "searchValue", Js.EncodeURIComponent(debounced));
      }
    }
    AllPlainAppend([Param("page", pageText), Param("limit", limitText)], sort);
    AllPlainAppend([Param("page", pageText), Param("limit", limitText)] + sort, search);
  }

  /** The URL is the endpoint's path followed by exactly the parameters the request should carry. */
  lemma RequestUrlParses(page: int, limit: int, sorting: Sorting, searchField: SearchField, debounced: string)
    ensures var url := RequestUrl(page, limit, sorting, searchField, debounced);
      |url| >= |Path| && url[..|Path|] == Path
      && ParseQuery(url[|Path|..]) == RequestParams(page, limit, sorting, searchField, debounced)
  {
    var ps := RequestParams(page, limit, sorting, searchField, debounced);
    UrlIsJoin(page, limit, sorting, searchField, debounced);
    assert (Path + Join(ps))[|Path|..] == Join(ps);
    assert (Path + Join(ps))[..|Path|] == Path;
    ParamsPlain(page, limit, sorting, searchField, debounced);
    JoinParses(ps);
  }

  /** The first two parameters read from the URL are `page` and `limit`, and their values are
      the decimal numerals of the page and the page size the table holds (both positive in the
      table; a negative one would be sent with a minus sign, as `IntToString` states). */
  lemma PageAndLimitCarried(page: int, limit: int, sorting: Sorting, searchField: SearchField, debounced: string)
    requires page >= 0 && limit >= 0
    ensures var url := RequestUrl(page, limit, sorting, searchField, debounced);
      var ps := ParseQuery(url[|Path|..]);
      && |url| >= |Path| && |ps| >= 2
      && ps[0].name == "page" && ps[1].name == "limit"
      && (forall i :: 0 <= i < |ps[0].value| ==> Js.IsDigit(ps[0].value[i]))
      && (forall i :: 0 <= i < |ps[1].value| ==> Js.IsDigit(ps[1].value[i]))
      && Js.DecimalValue(ps[0].value) == page && Js.DecimalValue(ps[1].value) == limit
  {
    RequestUrlParses(page, limit, sorting, searchField, debounced);
    var ps := RequestParams(page, limit, sorting, searchField, debounced);
    assert ps[0] == Param("page", Js.IntToString(page));
    assert ps[1] == Param("limit", Js.IntToString(limit));
  }

  lemma NamesAppend(a: seq<Param>, b: seq<Param>)
    ensures Names(a + b) == Names(a) + Names(b)
  {
  }

  /** The names of the request parameters, in order. */
  lemma RequestNames(page: int, limit: int, sorting: Sorting, searchField: SearchField, debounced: string)
    ensures Names(RequestParams(page, limit, sorting, searchField, debounced))
      == ["page", "limit"]
      + (if sorting.field.Some? && sorting.order.Some? then ["sortBy", "sortOrder"] else [])
      + (if !Blank(debounced) then ["searchField", "searchValue"] else [])
  {
    LeadingNames(Js.IntToString(page), Js.IntToString(limit), SortParams(sorting), SearchParams(searchField, debounced));
    SortNames(sorting);
    SearchNames(searchField, debounced);
  }

  lemma LeadingNames(pv: string, lv: string, sort: seq<Param>, search: seq<Param>)
    ensures Names([Param("page", pv), Param("limit", lv)] + sort + search) == ["page", "limit"] + Names(sort) + Names(search)
  {
    var base := [Param("page", pv), Param("limit", lv)];
    NamesAppend(base, sort);
    NamesAppend(base + sort, search);
    assert Names(base) == ["page", "limit"];
  }

  lemma SortNames(sorting: Sorting)
    ensures Names(SortParams(sorting)) == if sorting.field.Some? && sorting.order.Some? then ["sortBy", "sortOrder"] else []
  {
  }

  lemma SearchNames(searchField: SearchField, debounced: string)
    ensures Names(SearchParams(searchField, debounced)) == if !Blank(debounced) then ["searchField", "searchValue"] else []
  {
  }

  /** The names the URL carries are the names of the request parameters. */
  lemma QueryNamesAre(page: int, limit: int, sorting: Sorting, searchField: SearchField, debounced: string)
    ensures QueryNames(RequestUrl(page, limit, sorting, searchField, debounced))
      == Names(RequestParams(page, limit, sorting, searchField, debounced))
  {
    RequestUrlParses(page, limit, sorting, searchField, debounced);
  }

  /** The six parameter names are pairwise different. */
  lemma NamesDistinct()
    ensures "page" != "limit" && "page" != "sortBy" && "page" != "sortOrder"
    ensures "page" != "searchField" && "page" != "searchValue"
    ensures "limit" != "sortBy" && "limit" != "sortOrder" && "limit" != "searchField" && "limit" != "searchValue"
    ensures "sortBy" != "sortOrder" && "sortBy" != "searchField" && "sortBy" != "searchValue"
    ensures "sortOrder" != "searchField" && "sortOrder" != "searchValue"
    ensures "searchField" != "searchValue"
  {
    assert "searchField"[6] != "searchValue"[6];
  }

  /** Which of six different names occur in two fixed names followed by two optional pairs. */
  lemma OptionalNames(p: string, l: string, sb: string, so: string, sf: string, sv: string, sorted: bool, searched: bool)
    requires p != sb && p != so && p != sf && p != sv && l != sb && l != so && l != sf && l != sv
    requires sb != sf && sb != sv && so != sf && so != sv
    ensures var names := [p, l] + (if sorted then [sb, so] else []) + (if searched then [sf, sv] else []);
      && p in names && l in names
      && (sb in names <==> sorted) && (so in names <==> sorted)
      && (sf in names <==> searched) && (sv in names <==> searched)
  {
  }

  /** The sort parameters are sent exactly when field and order are both set; the search
      parameters exactly when the debounced text is not blank. */
  lemma QueryParameters(page: int, limit: int, sorting: Sorting, searchField: SearchField, debounced: string)
    ensures var names := QueryNames(RequestUrl(page, limit, sorting, searchField, debounced));
      && "page" in names && "limit" in names
      && ("sortBy" in names <==> sorting.field.Some? && sorting.order.Some?)
      && ("sortOrder" in names <==> sorting.field.Some? && sorting.order.Some?)
      && ("searchField" in names <==> !Blank(debounced))
      && ("searchValue" in names <==> !Blank(debounced))
  {
    QueryNamesAre(page, limit, sorting, searchField, debounced);
    RequestNames(page, limit, sorting, searchField, debounced);
    NamesDistinct();
    OptionalNames("page", "limit", "sortBy", "sortOrder", "searchField", "searchValue",
      sorting.field.Some? && sorting.order.Some?, !Blank(debounced));
  }

  // ---------------------------------------------------------------------------
  // The status filter

  /** `r` is `s` with some entries left out, the rest in their order. */
  predicate IsSubsequence(r: seq<Analytics.HistoryRow>, s: seq<Analytics.HistoryRow>)
    decreases |s|
  {
    if r == [] then true
    else if s == [] then false
    else
      (r[|r| - 1] == s[|s| - 1] && IsSubsequence(r[..|r| - 1], s[..|s| - 1]))
      || IsSubsequence(r, s[..|s| - 1])
  }

  /** The number of rows of `rows` with status `status`. */
  function CountRows(rows: seq<Analytics.HistoryRow>, status: string): nat
  {
    if rows == [] then 0
    else CountRows(rows[..|rows| - 1], status) + (if rows[|rows| - 1].status == status then 1 else 0)
  }

  /** `rows.filter(p => p.status === status)`: every row with the status, each as often as it
      occurs, in the original order, and no other row. */
  function KeepStatus(rows: seq<Analytics.HistoryRow>, status: string): (r: seq<Analytics.HistoryRow>)
    ensures forall y :: y in r <==> y in rows && y.status == status
    ensures IsSubsequence(r, rows)
    ensures |r| == CountRows(rows, status)
  {
    if rows == [] then []
    else
      var kept := KeepStatus(rows[..|rows| - 1], status);
      var last := rows[|rows| - 1];
      assert rows == rows[..|rows| - 1] + [last];
      if last.status == status then
        assert (kept + [last])[..|kept|] == kept;
        kept + [last]
      else kept
  }

  /** A subsequence made of rows with the status has at most as many rows as there are. */
  lemma {:induction false} SubsequenceCount(r: seq<Analytics.HistoryRow>, rows: seq<Analytics.HistoryRow>, status: string)
    requires IsSubsequence(r, rows)
    requires forall i :: 0 <= i < |r| ==> r[i].status == status
    ensures |r| <= CountRows(rows, status)
    decreases |rows|
  {
    if r != [] {
      var init := rows[..|rows| - 1];
      if r[|r| - 1] == rows[|rows| - 1] && IsSubsequence(r[..|r| - 1], init) {
        SubsequenceCount(r[..|r| - 1], init, status);
      } else {
        SubsequenceCount(r, init, status);
      }
    }
  }

  /** The filter's result is the only subsequence of rows with the status that keeps all of
      them: an order-preserving selection of such rows, as many as there are, is the filter's. */
  lemma {:induction false} KeepStatusUnique(r: seq<Analytics.HistoryRow>, rows: seq<Analytics.HistoryRow>, status: string)
    requires IsSubsequence(r, rows)
    requires forall i :: 0 <= i < |r| ==> r[i].status == status
    requires |r| == CountRows(rows, status)
    ensures r == KeepStatus(rows, status)
    decreases |rows|
  {
    if r != [] {
      var init, last := rows[..|rows| - 1], rows[|rows| - 1];
      var rInit := r[..|r| - 1];
      if r[|r| - 1] == last && IsSubsequence(rInit, init) {
        assert last.status == status;
        KeepStatusUnique(rInit, init, status);
        assert r == rInit + [last];
      } else {
        SubsequenceCount(r, init, status);
        KeepStatusUnique(r, init, status);
      }
    }
  }

  /** The rows shown for the selected status chip. */
  function FilterByStatus(rows: seq<Analytics.HistoryRow>, statusFilter: string): (r: seq<Analytics.HistoryRow>)
    ensures statusFilter == "all" ==> r == rows
    ensures statusFilter != "all" ==> forall y :: y in r <==> y in rows && y.status == statusFilter
    ensures statusFilter != "all" ==> |r| == CountRows(rows, statusFilter)
    ensures IsSubsequence(r, rows)
  {
    if statusFilter == "all" then
      IsSubsequenceOfSelf(rows);
      rows
    else KeepStatus(rows, statusFilter)
  }

  lemma {:induction false} IsSubsequenceOfSelf(s: seq<Analytics.HistoryRow>)
    ensures IsSubsequence(s, s)
  {
    if s != [] {
      IsSubsequenceOfSelf(s[..|s| - 1]);
    }
  }

  /** Filtering the history of the fetched intents by a status shows as many rows as `byStatus`
      counts for it. */
  lemma {:induction false} FilteredRowsMatchStatusCount(s: seq<Analytics.PaymentIntent>, status: string)
    requires status != "all"
    ensures |FilterByStatus(Analytics.History(s), status)| == Analytics.CountStatus(s, status)
  {
    if s != [] {
      var s' := s[..|s| - 1];
      FilteredRowsMatchStatusCount(s', status);
      var h := Analytics.History(s);
      assert h[..|h| - 1] == Analytics.History(s');
    }
  }

  // ---------------------------------------------------------------------------
  // Chip colours and method labels

  datatype ChipColor = SuccessColor | WarningColor | InfoColor | ErrorColor | DefaultColor

  const KnownStatuses: set<string> :=
    {"succeeded", "processing", "requires_payment_method", "requires_action", "canceled"}

  /** The colour of a status chip (getStatusColor); an unknown status gets the default colour. */
  function StatusColor(status: string): (c: ChipColor)
    ensures c == DefaultColor <==> status !in KnownStatuses
    ensures c == SuccessColor <==> status == Analytics.Succeeded
    ensures c == WarningColor <==> status == "processing"
    ensures c == InfoColor <==> status == "requires_payment_method" || status == "requires_action"
    ensures c == ErrorColor <==> status == "canceled"
  {
    if status == "succeeded" then SuccessColor
    else if status == "processing" then WarningColor
    else if status == "requires_payment_method" || status == "requires_action" then InfoColor
    else if status == "canceled" then ErrorColor
    else DefaultColor
  }

  const MethodLabels: map<string, string> := map[
    "card" := "Card",
    "paypal" := "PayPal",
    "revolut_pay" := "Revolut Pay",
    "google_pay" := "Google Pay",
    "apple_pay" := "Apple Pay"]

  /** The label of a payment method (getPaymentMethodLabel): the table's, else the method itself. */
  function PaymentMethodLabel(paymentMethod: string): (shown: string)
    ensures paymentMethod in MethodLabels ==> shown == MethodLabels[paymentMethod] && shown != paymentMethod
    ensures paymentMethod !in MethodLabels ==> shown == paymentMethod
  {
    if paymentMethod in MethodLabels && MethodLabels[paymentMethod] != "" then MethodLabels[paymentMethod] else paymentMethod
  }

  /** A label is never itself a paymentMethod of the table, so labelling twice changes nothing. */
  lemma LabelIdempotent(paymentMethod: string)
    ensures PaymentMethodLabel(PaymentMethodLabel(paymentMethod)) == PaymentMethodLabel(paymentMethod)
  {
  }

  // ---------------------------------------------------------------------------
  // Row numbers and the range label

  /** The number in the `#` column of the row at `index` on `page`. */
  function RowNumber(page: int, perPage: int, index: int): int
  {
    (page - 1) * perPage + index + 1
  }

  function RangeStart(page: int, perPage: int): int
  {
    (page - 1) * perPage + 1
  }

  /** `Math.min(page * perPage, totalItems)`. */
  function RangeEnd(page: int, perPage: int, totalItems: int): (r: int)
    ensures r <= page * perPage && r <= totalItems
    ensures r == page * perPage || r == totalItems
  {
    if page * perPage < totalItems then page * perPage else totalItems
  }

  /** The text beside the pagination control, `first-last of total`. */
  function RangeLabel(page: int, perPage: int, totalItems: int): string
  {
    Js.IntToString(RangeStart(page, perPage)) + "-" + Js.IntToString(RangeEnd(page, perPage, totalItems))
      + " of " + Js.IntToString(totalItems)
  }

  /** Under the paging the row numbers and the range label assume, with at most `perPage` rows on
      a page, rows on different pages or at different places of a page never get the same number.
      The table as it stands renders the whole unpaged history on one page, where an index can
      reach past `perPage`; this lemma is about the intended paging, not that rendering. */
  lemma RowNumbersDistinct(p: int, q: int, perPage: int, i: int, j: int)
    requires perPage > 0 && 0 <= i < perPage && 0 <= j < perPage
    requires RowNumber(p, perPage, i) == RowNumber(q, perPage, j)
    ensures p == q && i == j
  {
    assert (p - q) * perPage == j - i;
    if p > q {
      MultiplyAtLeast(p - q, perPage);
    } else if p < q {
      MultiplyAtLeast(q - p, perPage);
    }
  }

  /** The step of the proof above that needs a product: a positive multiple of `n` is at least `n`. */
  lemma MultiplyAtLeast(k: int, n: int)
    requires k >= 1 && n >= 0
    ensures k * n >= n
  {
  }

  /** On a page that has rows, the label runs from the first row's number to the last row's,
      and the page holds at most `perPage` rows. */
  lemma RangeMatchesRows(page: int, perPage: int, totalItems: int)
    requires page >= 1 && perPage > 0
    requires (page - 1) * perPage < totalItems
    ensures var rows := RangeEnd(page, perPage, totalItems) - RangeStart(page, perPage) + 1;
      && 1 <= rows <= perPage
      && RangeStart(page, perPage) == RowNumber(page, perPage, 0)
      && RangeEnd(page, perPage, totalItems) == RowNumber(page, perPage, rows - 1)
      && RangeEnd(page, perPage, totalItems) <= totalItems
  {
    assert page * perPage == (page - 1) * perPage + perPage;
  }

  /** Consecutive full pages leave no gap and no overlap. */
  lemma PagesTile(page: int, perPage: int, totalItems: int)
    requires page >= 1 && perPage > 0 && page * perPage <= totalItems
    ensures RangeEnd(page, perPage, totalItems) + 1 == RangeStart(page + 1, perPage)
  {
    assert (page + 1 - 1) * perPage == page * perPage;
  }

  // ---------------------------------------------------------------------------
  // The component's state

  /** Two search texts that differ only in surrounding whitespace are the same search. */
  predicate SameSearch(a: string, b: string)
  {
    Js.Trim(a) == Js.Trim(b)
  }

  class TableState {
    var paymentHistory: seq<Analytics.HistoryRow>
    var statusFilter: string
    var currentPage: int
    const itemsPerPage: int
    var sortField: Option<SortField>
    var sortOrder: Option<SortOrder>
    var searchField: SearchField
    var searchValue: string
    var debouncedSearchValue: string

    ghost predicate Valid()
      reads this
    {
      itemsPerPage == 6 && Consistent(Sorting(sortField, sortOrder))
    }

    /** The state of a freshly mounted table. */
    constructor ()
      ensures Valid()
      ensures paymentHistory == [] && statusFilter == "all" && currentPage == 1
      ensures sortField == None && sortOrder == None
      ensures searchField == ById && searchValue == "" && debouncedSearchValue == ""
    {
      paymentHistory := [];
      statusFilter := "all";
      currentPage := 1;
      itemsPerPage := 6;
      sortField := None;
      sortOrder := None;
      searchField := ById;
      searchValue := "";
      debouncedSearchValue := "";
    }

    function Sort(): Sorting
      reads this
    {
      Sorting(sortField, sortOrder)
    }

    /** A click on a sortable header. */
    method HandleSort(field: SortField)
      requires Valid()
      modifies this
      ensures Valid()
      ensures Sort() == Click(old(Sort()), field)
      ensures currentPage == 1
      ensures paymentHistory == old(paymentHistory) && statusFilter == old(statusFilter)
      ensures searchField == old(searchField) && searchValue == old(searchValue)
      ensures debouncedSearchValue == old(debouncedSearchValue)
    {
      if sortField != Some(field) {
        sortField := Some(field);
        sortOrder := Some(Asc);
        currentPage := 1;
      } else if sortOrder == Some(Asc) {
        sortOrder := Some(Desc);
        currentPage := 1;
      } else {
        sortField := None;
        sortOrder := None;
        currentPage := 1;
      }
    }

    /**
     * Typing in the search box: the text is always stored, and the page goes back to the first
     * one only when the text differs from the previous text other than in surrounding white
     * space (the comparison uses the text of the render the handler belongs to).
     */
    method HandleSearchChange(value: string)
      requires Valid()
      modifies this
      ensures Valid()
      ensures searchValue == value
      ensures currentPage == if SameSearch(value, old(searchValue)) then old(currentPage) else 1
      ensures paymentHistory == old(paymentHistory) && statusFilter == old(statusFilter)
      ensures Sort() == old(Sort()) && searchField == old(searchField)
      ensures debouncedSearchValue == old(debouncedSearchValue)
    {
      var previous := searchValue;
      searchValue := value;
      if !SameSearch(value, previous) {
        currentPage := 1;
      }
    }

    /** The debounce delay has passed since the last keystroke. */
    method DebounceElapsed()
      requires Valid()
      modifies this
      ensures Valid()
      ensures debouncedSearchValue == searchValue == old(searchValue)
      ensures paymentHistory == old(paymentHistory) && statusFilter == old(statusFilter)
      ensures currentPage == old(currentPage) && Sort() == old(Sort()) && searchField == old(searchField)
    {
      debouncedSearchValue := searchValue;
    }

    /** A page picked in the pagination control. */
    method HandlePageChange(value: int)
      requires Valid()
      modifies this
      ensures Valid()
      ensures currentPage == value
      ensures paymentHistory == old(paymentHistory) && statusFilter == old(statusFilter)
      ensures Sort() == old(Sort()) && searchField == old(searchField)
      ensures searchValue == old(searchValue) && debouncedSearchValue == old(debouncedSearchValue)
    {
      currentPage := value;
    }

    /** A status chip clicked. */
    method SelectStatus(status: string)
      requires Valid()
      modifies this
      ensures Valid()
      ensures statusFilter == status
      ensures paymentHistory == old(paymentHistory) && currentPage == old(currentPage)
      ensures Sort() == old(Sort()) && searchField == old(searchField)
      ensures searchValue == old(searchValue) && debouncedSearchValue == old(debouncedSearchValue)
    {
      statusFilter := status;
    }

    /** An option picked in the "Search By" select. */
    method SelectSearchField(field: SearchField)
      requires Valid()
      modifies this
      ensures Valid()
      ensures searchField == field
      ensures paymentHistory == old(paymentHistory) && statusFilter == old(statusFilter)
      ensures currentPage == old(currentPage) && Sort() == old(Sort())
      ensures searchValue == old(searchValue) && debouncedSearchValue == old(debouncedSearchValue)
    {
      searchField := field;
    }

    /** The response of the analytics endpoint arrived: only a successful one replaces the rows. */
    method ReceiveResponse(response: Analytics.AnalyticsResponse)
      requires Valid()
      modifies this
      ensures Valid()
      ensures paymentHistory == if response.Ok? then response.paymentHistory else old(paymentHistory)
      ensures statusFilter == old(statusFilter) && currentPage == old(currentPage)
      ensures Sort() == old(Sort()) && searchField == old(searchField)
      ensures searchValue == old(searchValue) && debouncedSearchValue == old(debouncedSearchValue)
    {
      if response.Ok? {
        paymentHistory := response.paymentHistory;
      }
    }

    /** The URL the fetch effect requests for the current state. */
    function Url(): string
      reads this
    {
      RequestUrl(currentPage, itemsPerPage, Sort(), searchField, debouncedSearchValue)
    }

    /** The rows the table shows. */
    function FilteredPaymentHistory(): seq<Analytics.HistoryRow>
      reads this
    {
      FilterByStatus(paymentHistory, statusFilter)
    }
  }
}
