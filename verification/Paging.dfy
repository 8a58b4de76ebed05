/** Two ways of reading one page of a query's rows, against plain slicing. */
module Paging {
  import opened Text

  datatype Window<R> = Window(rows: seq<R>, total_rows: nat, row_count_exact: bool, truncated: bool)

  datatype QueryPage<R> = QueryPage(window: Window<R>, range_start: nat, range_end: nat)

  /** A page size between 1 and 500; table data pages default to 100 rows and console pages to 200. */
  function ClampLimit(requested: Option<nat>, otherwise: nat): (limit: nat)
    ensures requested.Some? && 1 <= requested.value <= 500 ==> limit == requested.value
    ensures requested.Some? && requested.value == 0 ==> limit == 1
    ensures requested.Some? && requested.value > 500 ==> limit == 500
    ensures requested.None? && 1 <= otherwise <= 500 ==> limit == otherwise
    ensures 1 <= limit <= 500
  {
    var wanted := if requested.Some? then requested.value else otherwise;
    if wanted < 1 then 1 else if wanted > 500 then 500 else wanted
  }

  /** What the server returns for `LIMIT limit OFFSET offset`. */
  function LimitOffset<R>(all: seq<R>, limit: nat, offset: nat): seq<R> {
    if offset >= |all| then [] else if offset + limit >= |all| then all[offset..] else all[offset..offset + limit]
  }

  /** Collects a page from rows that start with it; one row more than the limit tells that there are others. */
  method CollectPageWindow<R>(result: seq<R>, limit: nat) returns (w: Window<R>)
    ensures w.rows == LimitOffset(result, limit, 0)
    ensures w.truncated <==> |result| > limit
    ensures w.row_count_exact <==> !w.truncated
    ensures w.total_rows == if w.truncated then limit + 1 else |result|
  {
    var collected: seq<R> := [];
    var next := 0;
    while next < |result|
      invariant next <= |result| && collected == result[..next] && |collected| <= limit
    {
      collected := collected + [result[next]];
      next := next + 1;
      if |collected| > limit {
        var total := |collected|;
        assert collected[..limit] == result[..limit];
        return Window(collected[..limit], total, false, true);
      }
    }
    w := Window(collected, |collected|, true, false);
  }

  /** Collects a page from all rows: skips the ones before it and stops at the first one after it. */
  method CollectOffsetPageWindow<R>(result: seq<R>, offset: nat, limit: nat) returns (w: Window<R>)
    ensures w.rows == LimitOffset(result, limit, offset)
    ensures w.truncated <==> |result| > offset + limit
    ensures w.row_count_exact <==> !w.truncated
    ensures w.total_rows == if w.truncated then offset + limit + 1 else |result|
  {
    var total := 0;
    var rows: seq<R> := [];
    var next := 0;
    while next < |result|
      invariant next <= |result| && total == next
      invariant |rows| <= limit && rows == if next <= offset then [] else result[offset..next]
    {
      var row := result[next];
      next := next + 1;
      if total < offset {
        total := total + 1;
        continue;
      }
      if |rows| >= limit {
        total := total + 1;
        return Window(rows, total, false, true);
      }
      total := total + 1;
      rows := rows + [row];
    }
    w := Window(rows, total, true, false);
  }

  function Ranged<R>(w: Window<R>, offset: nat): QueryPage<R> {
    QueryPage(w, if w.rows == [] then 0 else offset + 1, if w.rows == [] then 0 else offset + |w.rows|)
  }

  /** The page of a query that is wrapped with `LIMIT limit + 1 OFFSET offset`. */
  method PageableQuery<R>(all: seq<R>, offset: nat, limit: nat) returns (page: QueryPage<R>)
    ensures page == Wrapped(all, offset, limit)
  {
    var w := CollectPageWindow(LimitOffset(all, limit + 1, offset), limit);
    page := Ranged(w.(total_rows := offset + w.total_rows), offset);
    WrappedRows(all, offset, limit);
  }

  lemma WrappedRows<R>(all: seq<R>, offset: nat, limit: nat)
    ensures LimitOffset(LimitOffset(all, limit + 1, offset), limit, 0) == LimitOffset(all, limit, offset)
  {
  }

  /** The page of a query that is run as it is. */
  method DirectQuery<R>(all: seq<R>, offset: nat, limit: nat) returns (page: QueryPage<R>)
    ensures page == Direct(all, offset, limit)
  {
    var w := CollectOffsetPageWindow(all, offset, limit);
    page := Ranged(w, offset);
  }

  /** One page of a console query, wrapped if it can be; 200 rows unless asked otherwise. */
  method ExecuteConsoleQuery<R>(all: seq<R>, pageable: bool, offset: Option<nat>, requested: Option<nat>)
    returns (page: QueryPage<R>)
    ensures
      var start, limit := if offset.Some? then offset.value else 0, ClampLimit(requested, 200);
      page == if pageable then Wrapped(all, start, limit) else Direct(all, start, limit)
    ensures |page.window.rows| <= 500
  {
    var limit := ClampLimit(requested, 200);
    var start := if offset.Some? then offset.value else 0;
    if pageable {
      page := PageableQuery(all, start, limit);
    } else {
      page := DirectQuery(all, start, limit);
    }
  }

  /** One page of a table's rows, of 100 rows unless asked otherwise; the query always has its own limit. */
  method LoadTableData<R>(all: seq<R>, offset: Option<nat>, requested: Option<nat>) returns (w: Window<R>)
    ensures
      var start, limit := if offset.Some? then offset.value else 0, ClampLimit(requested, 100);
      w == Wrapped(all, start, limit).window
  {
    var limit := ClampLimit(requested, 100);
    var start := if offset.Some? then offset.value else 0;
    w := CollectPageWindow(LimitOffset(all, limit + 1, start), limit);
    w := w.(total_rows := start + w.total_rows);
    WrappedRows(all, start, limit);
  }

  function Wrapped<R>(all: seq<R>, offset: nat, limit: nat): QueryPage<R> {
    var fetched := LimitOffset(all, limit + 1, offset);
    var more := |fetched| > limit;
    Ranged(
      Window(LimitOffset(all, limit, offset), offset + if more then limit + 1 else |fetched|, !more, more), offset)
  }

  function Direct<R>(all: seq<R>, offset: nat, limit: nat): QueryPage<R> {
    var more := |all| > offset + limit;
    Ranged(
      Window(LimitOffset(all, limit, offset), if more then offset + limit + 1 else |all|, !more, more), offset)
  }

  /** The page of the query on its own, in both ways: its rows, what is known of the total, and the shown range. */
  lemma PagesAre<R>(all: seq<R>, offset: nat, limit: nat)
    ensures
      var rows := if offset >= |all| then [] else if offset + limit < |all| then all[offset..offset + limit]
                  else all[offset..];
      var more := |all| > offset + limit;
      var total := if more then offset + limit + 1 else |all|;
      var first, last := if rows == [] then 0 else offset + 1, if rows == [] then 0 else offset + |rows|;
      && Direct(all, offset, limit) == QueryPage(Window(rows, total, !more, more), first, last)
      && Wrapped(all, offset, limit)
         == QueryPage(Window(rows, if offset <= |all| then total else offset, !more, more), first, last)
  {
  }

  /** Both ways agree in everything exactly when the offset is not beyond the end. */
  lemma WaysAgree<R>(all: seq<R>, offset: nat, limit: nat)
    ensures Wrapped(all, offset, limit) == Direct(all, offset, limit) <==> offset <= |all|
    ensures Wrapped(all, offset, limit).window.truncated <==> |all| > offset + limit
    ensures Wrapped(all, offset, limit).window.row_count_exact ==>
      (Wrapped(all, offset, limit).window.total_rows == |all| <==> offset <= |all|)
  {
    var fetched := LimitOffset(all, limit + 1, offset);
    assert |fetched| == if offset >= |all| then 0 else if |all| - offset < limit + 1 then |all| - offset else limit + 1;
  }

  /** The shown range is where the page's rows are in the whole result. */
  lemma RangeIsWhereRowsAre<R>(all: seq<R>, offset: nat, limit: nat)
    ensures var page := Wrapped(all, offset, limit);
      page.window.rows != [] ==>
        1 <= page.range_start <= page.range_end <= |all|
        && page.window.rows == all[page.range_start - 1..page.range_end]
  {
  }

  /** Rows of the pages that are loaded one after another until one is not truncated. */
  function Walk<R>(all: seq<R>, offset: nat, limit: nat): seq<R>
    requires limit >= 1
    decreases |all| - offset
  {
    var page := Wrapped(all, offset, limit);
    page.window.rows
    + if page.window.truncated && offset < |all| then Walk(all, offset + limit, limit) else []
  }

  lemma WrappedPage<R>(all: seq<R>, offset: nat, limit: nat)
    requires offset <= |all|
    ensures var w := Wrapped(all, offset, limit).window;
      && (w.truncated <==> |all| > offset + limit)
      && w.rows == if w.truncated then all[offset..offset + limit] else all[offset..]
  {
    WaysAgree(all, offset, limit);
  }

  lemma WalkUnfolds<R>(all: seq<R>, offset: nat, limit: nat)
    requires limit >= 1
    ensures var w := Wrapped(all, offset, limit).window;
      Walk(all, offset, limit)
      == w.rows + if w.truncated && offset < |all| then Walk(all, offset + limit, limit) else []
  {
    hide Wrapped;
  }

  lemma WalkStep<R>(all: seq<R>, offset: nat, limit: nat)
    requires limit >= 1 && offset <= |all|
    ensures Walk(all, offset, limit)
         == if offset + limit < |all| then all[offset..offset + limit] + Walk(all, offset + limit, limit)
            else all[offset..]
  {
    WrappedPage(all, offset, limit);
    WalkUnfolds(all, offset, limit);
    hide Wrapped, Walk;
    assert all[offset..] + [] == all[offset..];
  }

  lemma SlicesJoin<R>(all: seq<R>, a: nat, b: nat)
    requires a <= b <= |all|
    ensures all[a..b] + all[b..] == all[a..]
  {
  }

  /** Walking from any offset gives all rows from there, each once and in order. */
  lemma {:induction false} WalkGivesAllRows<R>(all: seq<R>, offset: nat, limit: nat)
    requires limit >= 1 && offset <= |all|
    ensures Walk(all, offset, limit) == all[offset..]
    decreases |all| - offset
  {
    hide Walk, Wrapped, LimitOffset;
    WalkStep(all, offset, limit);
    var next := offset + limit;
    if next < |all| {
      WalkGivesAllRows(all, next, limit);
      SlicesJoin(all, offset, next);
    }
  }
}
