/** The bookkeeping of the data-table controller: the two pagination strategies
    (page numbers, and cursors remembered per page size and offset), the sort and
    response adapters between the grid widget and the REST API, the cycle picked
    for a row's links, and which state the export button takes. */
module Tables {
  import opened Wrappers
  import opened JsValue
  import Decimal
  import Sequences

  // ---------------------------------------------------------------------------
  // yearRange

  /** What `yearRange` returns: the year itself (a number) when both ends agree, else text. */
  datatype YearLabel = SingleYear(year: int) | YearSpan(text: string)

  function YearRange(first: int, last: int): (r: YearLabel)
    ensures r.SingleYear? <==> first == last
    ensures r.SingleYear? ==> r.year == first
  {
    if first == last then SingleYear(first)
    else YearSpan(Decimal.IntToString(first) + " - " + Decimal.IntToString(last))
  }

  /** The text of a span names both years: `parseInt` reads the first back from the
      start and the second from what follows the separator. */
  lemma YearSpanReadsBack(first: int, last: int)
    requires first != last
    ensures var t := YearRange(first, last).text;
      var n := |Decimal.IntToString(first)|;
      && |t| == n + 3 + |Decimal.IntToString(last)|
      && t[n..n + 3] == " - "
      && Decimal.ParseInt(t) == Some(first)
      && Decimal.ParseInt(t[n + 3..]) == Some(last)
  {
    var a, b := Decimal.IntToString(first), Decimal.IntToString(last);
    var t := a + " - " + b;
    assert t == a + (" - " + b);
    Decimal.ParseIntPrefix(first, " - " + b);
    assert t[|a| + 3..] == b;
    Decimal.ParseIntRoundTrip(last);
  }

  // ---------------------------------------------------------------------------
  // getCycle

  /** `_.map(filters.cycle, parseInt)` */
  function ParseCycles(cycles: seq<string>): seq<Option<int>>
  {
    seq(|cycles|, i requires 0 <= i < |cycles| => Decimal.ParseInt(cycles[i]))
  }

  /** `_.intersection(parsed, value)`: the parsed cycles that `value` holds, first
      occurrences only, in the order of `parsed`. NaN (`None`) matches nothing. */
  function Intersection(parsed: seq<Option<int>>, value: seq<int>): (r: seq<int>)
    ensures forall x :: x in r <==> Some(x) in parsed && x in value
    ensures forall i, j :: 0 <= i < j < |r| ==> r[i] != r[j]
  {
    if parsed == [] then []
    else
      var init := Intersection(parsed[..|parsed| - 1], value);
      var item := parsed[|parsed| - 1];
      assert parsed == parsed[..|parsed| - 1] + [item];
      if item.Some? && item.value in value && item.value !in init then init + [item.value] else init
  }

  /** The `i`-th filter cycle parses to a cycle that `value` holds. */
  predicate InCommon(cycles: seq<string>, value: seq<int>, i: int)
  {
    0 <= i < |cycles| && Decimal.ParseInt(cycles[i]).Some? && Decimal.ParseInt(cycles[i]).value in value
  }

  /** `getCycle(value, meta)`: `filterCycles` is the table's `cycle` filter, `None`
      when the table is not registered, has no filters or no cycle filter. The
      result is the `cycle` of the returned object, `None` for `{}`. */
  function GetCycle(filterCycles: Option<seq<string>>, value: seq<int>): (r: Option<int>)
    ensures r.Some? <==> (filterCycles.Some? && exists i :: InCommon(filterCycles.value, value, i))
    ensures r.Some? ==> r.value in value
    ensures r.Some? ==> exists i :: 0 <= i < |filterCycles.value| && Decimal.ParseInt(filterCycles.value[i]) == Some(r.value)
    ensures r.Some? ==> forall i :: InCommon(filterCycles.value, value, i) ==>
                          Decimal.ParseInt(filterCycles.value[i]).value <= r.value
  {
    match filterCycles
    case None => None
    case Some(cycles) =>
      var common := Intersection(ParseCycles(cycles), value);
      CommonCycles(cycles, value);
      if |common| > 0 then Some(Sequences.MaxOf(common)) else None
  }

  /** The cycles in common are those of the filter entries for which `InCommon` holds. */
  lemma CommonCycles(cycles: seq<string>, value: seq<int>)
    ensures forall x :: x in Intersection(ParseCycles(cycles), value) ==>
              exists i :: InCommon(cycles, value, i) && Decimal.ParseInt(cycles[i]) == Some(x)
    ensures forall i :: InCommon(cycles, value, i) ==>
              Decimal.ParseInt(cycles[i]).value in Intersection(ParseCycles(cycles), value)
  {
    var parsed := ParseCycles(cycles);
    forall x | x in Intersection(parsed, value)
      ensures exists i :: InCommon(cycles, value, i) && Decimal.ParseInt(cycles[i]) == Some(x)
    {
      var i :| 0 <= i < |parsed| && parsed[i] == Some(x);
      assert InCommon(cycles, value, i);
    }
    forall i | InCommon(cycles, value, i)
      ensures Decimal.ParseInt(cycles[i]).value in Intersection(parsed, value)
    {
      assert parsed[i] == Decimal.ParseInt(cycles[i]);
    }
  }

  // ---------------------------------------------------------------------------
  // mapSort

  /** One entry of the grid's `order` list: a column index and `asc` or `desc`. */
  datatype SortOrder = SortOrder(column: int, dir: string)

  /** A column definition; `data` is the API field the column shows. */
  datatype ColumnDef = ColumnDef(data: string)

  /** The API's sort parameter for one field: a leading `-` means descending. */
  function SortKey(name: string, dir: string): string
  {
    if dir == "desc" then "-" + name else name
  }

  /** `mapSort(order, columns)`; `None` when an order entry names a column that does not
      exist, where reading `.data` of `undefined` throws. */
  function MapSort(order: seq<SortOrder>, columns: seq<ColumnDef>): (r: Option<seq<string>>)
    ensures r.Some? <==> forall i :: 0 <= i < |order| ==> 0 <= order[i].column < |columns|
    ensures r.Some? ==> |r.value| == |order|
    ensures r.Some? ==> forall i :: 0 <= i < |order| ==>
      r.value[i] == SortKey(columns[order[i].column].data, order[i].dir)
  {
    if order == [] then Some([])
    else
      var item := order[0];
      if !(0 <= item.column < |columns|) then None
      else
        match MapSort(order[1..], columns)
        case None => None
        case Some(rest) => Some([SortKey(columns[item.column].data, item.dir)] + rest)
  }

  /** How the API reads a sort key back: the field name and whether it is descending. */
  datatype SortField = SortField(name: string, descending: bool)

  function ParseSortKey(key: string): SortField
  {
    if |key| > 0 && key[0] == '-' then SortField(key[1..], true) else SortField(key, false)
  }

  /** Every key that `mapSort` produces carries its column's field and its direction,
      for field names that do not themselves start with `-`. */
  lemma MapSortReadsBack(order: seq<SortOrder>, columns: seq<ColumnDef>, i: int)
    requires MapSort(order, columns).Some? && 0 <= i < |order|
    requires var name := columns[order[i].column].data; |name| == 0 || name[0] != '-'
    ensures ParseSortKey(MapSort(order, columns).value[i])
      == SortField(columns[order[i].column].data, order[i].dir == "desc")
  {
    var name := columns[order[i].column].data;
    if order[i].dir == "desc" {
      assert ("-" + name)[1..] == name;
    }
  }

  /** Sorting by two lists of columns in turn is sorting by their concatenation. */
  lemma MapSortAppend(o1: seq<SortOrder>, o2: seq<SortOrder>, columns: seq<ColumnDef>)
    ensures MapSort(o1 + o2, columns).Some? <==> MapSort(o1, columns).Some? && MapSort(o2, columns).Some?
    ensures MapSort(o1 + o2, columns).Some? ==>
              MapSort(o1 + o2, columns).value == MapSort(o1, columns).value + MapSort(o2, columns).value
  {
    var o := o1 + o2;
    assert forall i :: 0 <= i < |o1| ==> o[i] == o1[i];
    assert forall i :: 0 <= i < |o2| ==> o[|o1| + i] == o2[i];
    var r, r1, r2 := MapSort(o, columns), MapSort(o1, columns), MapSort(o2, columns);
    if r1.Some? && r2.Some? {
      assert forall i :: 0 <= i < |o| ==> 0 <= o[i].column < |columns| by {
        forall i | 0 <= i < |o| ensures 0 <= o[i].column < |columns| {
          if i >= |o1| { assert o[i] == o2[i - |o1|]; }
        }
      }
      forall i | 0 <= i < |o| ensures r.value[i] == (r1.value + r2.value)[i] {
        if i >= |o1| { assert o[i] == o2[i - |o1|]; }
      }
    }
  }

  // ---------------------------------------------------------------------------
  // mapResponse

  /** `response.pagination`: the total count and the cursor for the following page
      (`last_indexes`, `None` when the API sends null). */
  datatype Pagination = Pagination(count: int, lastIndexes: Option<Cursor>)

  datatype ApiResponse = ApiResponse(pagination: Pagination, results: seq<Value>)

  /** What the grid widget's AJAX callback receives. */
  datatype GridPage = GridPage(recordsTotal: int, recordsFiltered: int, data: seq<Value>)

  function MapResponse(response: ApiResponse): (r: GridPage)
    ensures r.recordsTotal == response.pagination.count
    ensures r.recordsFiltered == r.recordsTotal
    ensures r.data == response.results
  {
    GridPage(response.pagination.count, response.pagination.count, response.results)
  }

  // ---------------------------------------------------------------------------
  // OffsetPaginator

  /** The grid's request window: the offset of the first row and the page length. */
  datatype PageRequest = PageRequest(start: int, length: int)

  /** `Math.floor(a / b)` */
  function FloorDiv(a: int, b: int): (q: int)
    requires b != 0
    ensures b > 0 ==> b * q <= a < b * q + b
    ensures b < 0 ==> b * q >= a > b * q + b
  {
    if b > 0 then a / b else (-a) / (-b)
  }

  /** The query parameters `OffsetPaginator.mapQuery` sends. `page` is `None` when
      the division by a zero length leaves NaN or an infinity. */
  datatype OffsetQuery = OffsetQuery(perPage: int, page: Option<int>)

  function OffsetMapQuery(data: PageRequest): (r: OffsetQuery)
    ensures r.perPage == data.length
    ensures r.page.Some? <==> data.length != 0
    ensures data.length > 0 ==>
              r.page.Some? && (r.page.value - 1) * data.length <= data.start < r.page.value * data.length
  {
    if data.length == 0 then OffsetQuery(data.length, None)
    else OffsetQuery(data.length, Some(FloorDiv(data.start, data.length) + 1))
  }

  lemma MulMonotone(a: int, b: int, length: int)
    requires length > 0 && a <= b
    ensures a * length <= b * length
  {
  }

  /** The window starting at row `k * length` is page `k + 1`. */
  lemma OffsetPageOfMultiple(k: int, length: int)
    requires length > 0
    ensures OffsetMapQuery(PageRequest(k * length, length)).page == Some(k + 1)
  {
    var p := OffsetMapQuery(PageRequest(k * length, length)).page.value;
    assert (p - 1) * length <= k * length < p * length;
    if p - 1 > k {
      MulMonotone(k + 1, p - 1, length);
      assert false;
    }
    if p - 1 < k {
      MulMonotone(p, k, length);
      assert false;
    }
  }

  /** Moving the window on by one length moves on by one page. */
  lemma OffsetNextPage(start: int, length: int)
    requires length > 0
    ensures OffsetMapQuery(PageRequest(start + length, length)).page.value
      == OffsetMapQuery(PageRequest(start, length)).page.value + 1
  {
    var p := OffsetMapQuery(PageRequest(start, length)).page.value;
    var q := OffsetMapQuery(PageRequest(start + length, length)).page.value;
    assert (p - 1) * length <= start < p * length;
    assert (q - 1) * length <= start + length < q * length;
    assert (q - 2) * length <= start < (q - 1) * length;
    if q - 1 > p {
      MulMonotone(p, q - 2, length);
      assert false;
    }
    if q - 1 < p {
      MulMonotone(q - 1, p - 1, length);
      assert false;
    }
  }

  // ---------------------------------------------------------------------------
  // SeekPaginator

  /** The keys and values of `last_indexes` for one page of results. */
  type Cursor = map<string, Value>

  /** `SeekPaginator.indexes`: per page length, per start offset, the stored `last_indexes`. */
  type IndexTable = map<int, map<int, Option<Cursor>>>

  /** `getIndexes(length, start)` on a given table: the stored cursor, or `{}` when
      nothing (or null) is stored there. */
  function Lookup(indexes: IndexTable, length: int, start: int): (r: Cursor)
    ensures r != map[] ==> length in indexes && start in indexes[length] && indexes[length][start].Some?
    ensures length !in indexes ==> r == map[]
  {
    if length in indexes && start in indexes[length] && indexes[length][start].Some?
    then indexes[length][start].value
    else map[]
  }

  /** The table after `setIndexes(length, start, value)`. */
  function Store(indexes: IndexTable, length: int, start: int, value: Option<Cursor>): (r: IndexTable)
    ensures Lookup(r, length, start) == if value.Some? then value.value else map[]
    ensures forall l, s :: l != length || s != start ==> Lookup(r, l, s) == Lookup(indexes, l, s)
    ensures r.Keys == indexes.Keys + {length}
  {
    var row := if length in indexes then indexes[length] else map[];
    indexes[length := row[start := value]]
  }

  /** The parameters `SeekPaginator.mapQuery` returns for a cursor: `per_page`, then
      every truthy cursor entry (which wins over `per_page` if the cursor has one). */
  function CursorParams(length: int, cursor: Cursor): (r: map<string, Value>)
    ensures r.Keys == {"per_page"} + set k | k in cursor && Truthy(cursor[k])
    ensures forall k :: k in cursor && Truthy(cursor[k]) ==> r[k] == cursor[k]
    ensures !("per_page" in cursor && Truthy(cursor["per_page"])) ==> r["per_page"] == Num(length)
  {
    map["per_page" := Num(length)] + map k | k in cursor && Truthy(cursor[k]) :: cursor[k]
  }

  /** Nothing stored for a window means the request carries only its page length. */
  lemma FirstPageParams(indexes: IndexTable, length: int, start: int)
    requires length !in indexes || start !in indexes[length]
    ensures CursorParams(length, Lookup(indexes, length, start)) == map["per_page" := Num(length)]
  {
    var r := CursorParams(length, Lookup(indexes, length, start));
    assert r.Keys == {"per_page"};
  }

  /** After a response for window (length, start) is stored, the request for the next
      window of the same length sends that response's cursor. */
  lemma NextPageSendsCursor(indexes: IndexTable, data: PageRequest, response: ApiResponse)
    ensures
      var stored := Store(indexes, data.length, data.start + data.length, response.pagination.lastIndexes);
      var cursor := if response.pagination.lastIndexes.Some? then response.pagination.lastIndexes.value else map[];
      CursorParams(data.length, Lookup(stored, data.length, data.start + data.length)) == CursorParams(data.length, cursor)
  {
  }

  class SeekPaginator<Q(==)> {
    var indexes: IndexTable
    /** The last query seen; `None` is the initial `null`. */
    var query: Option<Q>

    constructor ()
      ensures indexes == map[] && query == None
    {
      indexes := map[];
      query := None;
    }

    method GetIndexes(length: int, start: int) returns (cursor: Cursor)
      ensures cursor == Lookup(indexes, length, start)
    {
      var row := if length in indexes then indexes[length] else map[];
      cursor := if start in row && row[start].Some? then row[start].value else map[];
    }

    method SetIndexes(length: int, start: int, value: Option<Cursor>)
      modifies this`indexes
      ensures indexes == Store(old(indexes), length, start, value)
    {
      var row := if length in indexes then indexes[length] else map[];
      indexes := indexes[length := row[start := value]];
    }

    method ClearIndexes()
      modifies this`indexes
      ensures indexes == map[]
    {
      indexes := map[];
    }

    /** Remembers `q`, forgetting every stored cursor when it differs from the last
        query, and returns the parameters for the requested window. */
    method MapQuery(data: PageRequest, q: Q) returns (params: map<string, Value>)
      modifies this
      ensures query == Some(q)
      ensures indexes == if old(query) == Some(q) then old(indexes) else map[]
      ensures params == CursorParams(data.length, Lookup(indexes, data.length, data.start))
    {
      if query != Some(q) {
        query := Some(q);
        ClearIndexes();
      }
      var cursor := GetIndexes(data.length, data.start);
      params := CursorParams(data.length, cursor);
    }

    /** Stores the response's cursor under the window that follows the one just fetched. */
    method HandleResponse(data: PageRequest, response: ApiResponse)
      modifies this`indexes
      ensures indexes == Store(old(indexes), data.length, data.length + data.start, response.pagination.lastIndexes)
    {
      SetIndexes(data.length, data.length + data.start, response.pagination.lastIndexes);
    }
  }

  // ---------------------------------------------------------------------------
  // refreshExport

  const DownloadCap := 100000
  const MaxDownloads := 5
  const RecordCapLead := "Exports are limited to "
  const DownloadCapLead := "Each user is limited to "
  const RecordCapTail := "records\U{2014}add filters to narrow results, or export bigger data sets with <a href=\"http://www.fec.gov/data/DataCatalog.do?cf=downloadable\" target=\"_blank\">FEC bulk data exporter</a>."

  /** `lead + n + ' ' + words`: the number reads back from the text after `lead`. */
  function Quoted(lead: string, n: int, words: string): (r: string)
    ensures |r| > |lead| && r[..|lead|] == lead && Decimal.ParseInt(r[|lead|..]) == Some(n)
  {
    var numeral, rest := Decimal.IntToString(n), [' '] + words;
    var text := lead + (numeral + rest);
    assert text[..|lead|] == lead;
    assert text[|lead|..] == numeral + rest;
    Decimal.ParseIntPrefix(n, rest);
    text
  }

  /** The tooltip messages that accompany a disabled export button. */
  datatype ExportMessage = RecordCap | DownloadCapReached | ComingSoon | AlreadyPending

  /** The text of each message; the limits it quotes read back as the limits enforced. */
  function MessageText(m: ExportMessage): (r: string)
    ensures m.RecordCap? ==>
              |r| > |RecordCapLead| && r[..|RecordCapLead|] == RecordCapLead
              && Decimal.ParseInt(r[|RecordCapLead|..]) == Some(DownloadCap)
    ensures m.DownloadCapReached? ==>
              |r| > |DownloadCapLead| && r[..|DownloadCapLead|] == DownloadCapLead
              && Decimal.ParseInt(r[|DownloadCapLead|..]) == Some(MaxDownloads)
  {
    match m
    case RecordCap =>
      Quoted(RecordCapLead, DownloadCap, RecordCapTail)
    case DownloadCapReached =>
      Quoted(DownloadCapLead, MaxDownloads, "exports at a time. This helps us keep things running smoothly.")
    case ComingSoon => "Data exports for this page are coming soon."
    case AlreadyPending => "You're already exporting this data set."
  }

  /** What `refreshExport` does to the export button. */
  datatype ExportAction = LeaveAsIs | Disable(message: ExportMessage) | Enable

  /** `refreshExport`, given the table options, the grid's record total, whether this
      table's export URL is already downloading and how many downloads are pending. */
  function RefreshExport(useExport: bool, disableExport: bool, recordsTotal: int,
                         isPending: bool, pendingCount: int): (r: ExportAction)
    ensures r == LeaveAsIs <==> !useExport || disableExport
    ensures r == Disable(RecordCap) <==> useExport && !disableExport && recordsTotal > DownloadCap
    ensures r == Disable(AlreadyPending) <==>
      useExport && !disableExport && recordsTotal <= DownloadCap && isPending
    ensures r == Disable(DownloadCapReached) <==>
      useExport && !disableExport && recordsTotal <= DownloadCap && !isPending && pendingCount >= MaxDownloads
    ensures r == Enable <==>
      useExport && !disableExport && recordsTotal <= DownloadCap && !isPending && pendingCount < MaxDownloads
    ensures r != Disable(ComingSoon)
  {
    if useExport && !disableExport then
      if recordsTotal > DownloadCap then Disable(RecordCap)
      else if isPending then Disable(AlreadyPending)
      else if pendingCount >= MaxDownloads then Disable(DownloadCapReached)
      else Enable
    else LeaveAsIs
  }

  /** After a fetch, the record cap is judged on the count of the response just mapped. */
  lemma ExportCapFollowsResponse(response: ApiResponse, isPending: bool, pendingCount: int)
    ensures RefreshExport(true, false, MapResponse(response).recordsTotal, isPending, pendingCount) == Disable(RecordCap)
      <==> response.pagination.count > 100000
  {
  }
}
