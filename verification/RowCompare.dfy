/** Row comparison of two tables: by primary key, or by whole rows as a multiset. */
module RowCompare {
  import opened OrderedMaps
  import opened Text

  /** A JSON scalar of a cell. A cell that a row does not have is `None` where cells are compared. */
  datatype Value = Null | Flag(flag: bool) | Number(number: real) | Str(text: string)

  type Row = map<string, Value>

  /** What identifies a row: its cells in some columns, or the whole row when there are none. */
  datatype Signature = Cells(cells: seq<Value>) | Whole(row: Row)

  datatype RowSample = RowSample(signature: Signature, row: Row)

  datatype UpdateSample = UpdateSample(
    signature: Signature, key: seq<Value>, source_row: Row, target_row: Row, diff_columns: seq<string>)

  datatype Details = Details(inserts: seq<RowSample>, updates: seq<UpdateSample>, deletes: seq<RowSample>)

  function Cell(row: Row, column: string): (cell: Option<Value>)
    ensures if column in row then cell == Some(row[column]) else cell == None
  {
    if column in row then Some(row[column]) else None
  }

  function CellsOf(row: Row, columns: seq<string>): (cells: seq<Value>)
    ensures |cells| == |columns|
    ensures forall i :: 0 <= i < |columns| ==> cells[i] == if columns[i] in row then row[columns[i]] else Null
  {
    if columns == [] then []
    else
      var column := columns[|columns| - 1];
      CellsOf(row, columns[..|columns| - 1]) + [if column in row then row[column] else Null]
  }

  function SignatureOf(row: Row, columns: seq<string>): Signature {
    if columns == [] then Whole(row) else Cells(CellsOf(row, columns))
  }

  function Prefix<T>(items: seq<T>, n: nat): (r: seq<T>)
    ensures r <= items && |r| == if |items| <= n then |items| else n
  {
    if |items| <= n then items else items[..n]
  }

  // ---- By primary key ----

  /** Rows by key; of several with one key the last counts. */
  function Keyed(rows: seq<Row>, keys: seq<string>): (m: OrderedMap<Signature, Row>)
    ensures m.Sound()
  {
    if rows == [] then OrderedMap([], map[])
    else
      var last := rows[|rows| - 1];
      Keyed(rows[..|rows| - 1], keys).Put(Cells(CellsOf(last, keys)), last)
  }

  function DiffColumns(source: Row, target: Row, columns: seq<string>): (diff: seq<string>)
    ensures forall column :: column in diff <==> column in columns && Cell(source, column) != Cell(target, column)
  {
    if columns == [] then []
    else
      var last := columns[|columns| - 1];
      var rest := DiffColumns(source, target, columns[..|columns| - 1]);
      assert columns == columns[..|columns| - 1] + [last];
      if Cell(source, last) != Cell(target, last) then rest + [last] else rest
  }

  /** The rows of one side that the other lacks. */
  function Missing(order: seq<Signature>, rows: map<Signature, Row>, other: map<Signature, Row>): seq<RowSample>
    requires forall signature <- order :: signature in rows
  {
    if order == [] then []
    else
      var last := order[|order| - 1];
      Missing(order[..|order| - 1], rows, other) + (if last in other then [] else [RowSample(last, rows[last])])
  }

  function UpdateOf(signature: Signature, source: Row, target: Row, columns: seq<string>, keys: seq<string>)
    : UpdateSample
  {
    UpdateSample(signature, CellsOf(source, keys), source, target, DiffColumns(source, target, columns))
  }

  function Updates(
    order: seq<Signature>, source: map<Signature, Row>, target: map<Signature, Row>, columns: seq<string>,
    keys: seq<string>): seq<UpdateSample>
    requires forall signature <- order :: signature in source
  {
    if order == [] then []
    else
      var last := order[|order| - 1];
      Updates(order[..|order| - 1], source, target, columns, keys)
      + if last in target && DiffColumns(source[last], target[last], columns) != [] then
          [UpdateOf(last, source[last], target[last], columns, keys)]
        else []
  }

  function KeyedDiff(
    source: OrderedMap<Signature, Row>, target: OrderedMap<Signature, Row>, columns: seq<string>, keys: seq<string>)
    : Details
    requires source.Sound() && target.Sound()
  {
    Details(
      Missing(source.order, source.entries, target.entries),
      Updates(source.order, source.entries, target.entries, columns, keys),
      Missing(target.order, target.entries, source.entries))
  }

  function Sampled(all: Details, limit: nat): Details {
    Details(Prefix(all.inserts, limit), Prefix(all.updates, limit), Prefix(all.deletes, limit))
  }

  method BuildKeyed(rows: seq<Row>, keys: seq<string>) returns (m: OrderedMap<Signature, Row>)
    ensures m == Keyed(rows, keys)
  {
    m := OrderedMap([], map[]);
    for k := 0 to |rows|
      invariant m == Keyed(rows[..k], keys)
    {
      assert rows[..k + 1][..k] == rows[..k];
      m := m.Put(Cells(CellsOf(rows[k], keys)), rows[k]);
    }
    assert rows[..|rows|] == rows;
  }

  /** One side's rows that the other lacks, all of them and the first `limit`. */
  method CollectMissing(side: OrderedMap<Signature, Row>, other: OrderedMap<Signature, Row>, limit: nat)
    returns (all: seq<RowSample>, sample: seq<RowSample>)
    requires side.Sound()
    ensures all == Missing(side.order, side.entries, other.entries) && sample == Prefix(all, limit)
  {
    all, sample := [], [];
    for k := 0 to |side.order|
      invariant all == Missing(side.order[..k], side.entries, other.entries) && sample == Prefix(all, limit)
    {
      assert side.order[..k + 1][..k] == side.order[..k];
      var signature := side.order[k];
      if signature !in other.entries {
        all := all + [RowSample(signature, side.entries[signature])];
        if |sample| < limit {
          sample := sample + [RowSample(signature, side.entries[signature])];
        }
      }
    }
    assert side.order[..|side.order|] == side.order;
  }

  /** The rows of both sides that differ, all of them and the first `limit`. */
  method CollectUpdates(
    source: OrderedMap<Signature, Row>, target: OrderedMap<Signature, Row>, columns: seq<string>, keys: seq<string>,
    limit: nat)
    returns (all: seq<UpdateSample>, sample: seq<UpdateSample>)
    requires source.Sound()
    ensures all == Updates(source.order, source.entries, target.entries, columns, keys) && sample == Prefix(all, limit)
  {
    hide DiffColumns, UpdateOf;
    all, sample := [], [];
    for k := 0 to |source.order|
      invariant all == Updates(source.order[..k], source.entries, target.entries, columns, keys)
      invariant sample == Prefix(all, limit)
    {
      assert source.order[..k + 1][..k] == source.order[..k];
      var signature := source.order[k];
      if signature in target.entries {
        var sourceRow, targetRow := source.entries[signature], target.entries[signature];
        if DiffColumns(sourceRow, targetRow, columns) != [] {
          var update := UpdateOf(signature, sourceRow, targetRow, columns, keys);
          all := all + [update];
          if |sample| < limit {
            sample := sample + [update];
          }
        }
      }
    }
    assert source.order[..|source.order|] == source.order;
  }

  method CompareKeyed(
    sourceRows: seq<Row>, targetRows: seq<Row>, columns: seq<string>, keys: seq<string>, limit: nat)
    returns (all: Details, sample: Details)
    ensures all == KeyedDiff(Keyed(sourceRows, keys), Keyed(targetRows, keys), columns, keys)
    ensures sample == Sampled(all, limit)
  {
    hide Keyed, Missing, Updates, Prefix;
    var source := BuildKeyed(sourceRows, keys);
    var target := BuildKeyed(targetRows, keys);
    var inserts, sampleInserts := CollectMissing(source, target, limit);
    var updates, sampleUpdates := CollectUpdates(source, target, columns, keys, limit);
    var deletes, sampleDeletes := CollectMissing(target, source, limit);
    all := Details(inserts, updates, deletes);
    sample := Details(sampleInserts, sampleUpdates, sampleDeletes);
  }

  // ---- By whole rows ----

  function Count(groups: map<Signature, seq<Row>>, signature: Signature): nat {
    if signature in groups then |groups[signature]| else 0
  }

  /** Rows grouped by signature. */
  function Grouped(rows: seq<Row>, columns: seq<string>): (m: OrderedMap<Signature, seq<Row>>)
    ensures m.Sound()
  {
    if rows == [] then OrderedMap([], map[])
    else
      var last := rows[|rows| - 1];
      var signature := SignatureOf(last, columns);
      var m := Grouped(rows[..|rows| - 1], columns);
      m.Put(signature, (if signature in m.entries then m.entries[signature] else []) + [last])
  }

  function Labelled(signature: Signature, rows: seq<Row>): seq<RowSample> {
    if rows == [] then []
    else Labelled(signature, rows[..|rows| - 1]) + [RowSample(signature, rows[|rows| - 1])]
  }

  function Beyond<T>(items: seq<T>, n: nat): (r: seq<T>)
    ensures |r| == if n <= |items| then |items| - n else 0
    ensures forall k :: 0 <= k < |r| ==> r[k] == items[n + k]
  {
    if n <= |items| then items[n..] else []
  }

  /** The rows of one side beyond the other's count of the same signature. */
  function Surplus(order: seq<Signature>, groups: map<Signature, seq<Row>>, other: map<Signature, seq<Row>>)
    : seq<RowSample>
    requires forall signature <- order :: signature in groups
  {
    if order == [] then []
    else
      var last := order[|order| - 1];
      Surplus(order[..|order| - 1], groups, other) + Labelled(last, Beyond(groups[last], Count(other, last)))
  }

  function FullRowDiff(source: OrderedMap<Signature, seq<Row>>, target: OrderedMap<Signature, seq<Row>>): Details
    requires source.Sound() && target.Sound()
  {
    Details(
      Surplus(source.order, source.entries, target.entries), [], Surplus(target.order, target.entries, source.entries))
  }

  method BuildGroups(rows: seq<Row>, columns: seq<string>) returns (m: OrderedMap<Signature, seq<Row>>)
    ensures m == Grouped(rows, columns)
  {
    hide SignatureOf;
    m := OrderedMap([], map[]);
    for k := 0 to |rows|
      invariant m == Grouped(rows[..k], columns)
    {
      assert rows[..k + 1][..k] == rows[..k];
      var signature := SignatureOf(rows[k], columns);
      m := m.Put(signature, (if signature in m.entries then m.entries[signature] else []) + [rows[k]]);
    }
    assert rows[..|rows|] == rows;
  }

  method PushLabelled(
    before: seq<RowSample>, sampleBefore: seq<RowSample>, signature: Signature, rows: seq<Row>, limit: nat)
    returns (all: seq<RowSample>, sample: seq<RowSample>)
    requires sampleBefore == Prefix(before, limit)
    ensures all == before + Labelled(signature, rows) && sample == Prefix(all, limit)
  {
    all, sample := before, sampleBefore;
    for i := 0 to |rows|
      invariant all == before + Labelled(signature, rows[..i]) && sample == Prefix(all, limit)
    {
      assert rows[..i + 1][..i] == rows[..i];
      all := all + [RowSample(signature, rows[i])];
      if |sample| < limit {
        sample := sample + [RowSample(signature, rows[i])];
      }
    }
    assert rows[..|rows|] == rows;
  }

  method CollectSurplus(side: OrderedMap<Signature, seq<Row>>, other: OrderedMap<Signature, seq<Row>>, limit: nat)
    returns (all: seq<RowSample>, sample: seq<RowSample>)
    requires side.Sound()
    ensures all == Surplus(side.order, side.entries, other.entries) && sample == Prefix(all, limit)
  {
    hide Labelled, Beyond, Count;
    all, sample := [], [];
    for k := 0 to |side.order|
      invariant all == Surplus(side.order[..k], side.entries, other.entries) && sample == Prefix(all, limit)
    {
      assert side.order[..k + 1][..k] == side.order[..k];
      var signature := side.order[k];
      var rows := Beyond(side.entries[signature], Count(other.entries, signature));
      all, sample := PushLabelled(all, sample, signature, rows, limit);
    }
    assert side.order[..|side.order|] == side.order;
  }

  method CompareFullRow(sourceRows: seq<Row>, targetRows: seq<Row>, columns: seq<string>, limit: nat)
    returns (all: Details, sample: Details)
    ensures all == FullRowDiff(Grouped(sourceRows, columns), Grouped(targetRows, columns))
    ensures sample == Sampled(all, limit)
  {
    var source := BuildGroups(sourceRows, columns);
    var target := BuildGroups(targetRows, columns);
    var inserts, sampleInserts := CollectSurplus(source, target, limit);
    var deletes, sampleDeletes := CollectSurplus(target, source, limit);
    all := Details(inserts, [], deletes);
    sample := Details(sampleInserts, [], sampleDeletes);
  }

  // ---- Pages of details ----

  datatype DetailPage<T> = DetailPage(items: seq<T>, total: nat, offset: nat, limit: nat, has_more: bool)

  function Clamped(wanted: int, low: int, high: int): int {
    if wanted < low then low else if wanted > high then high else wanted
  }

  /** JavaScript's `slice`, which stops at the end. */
  function Slice<T>(items: seq<T>, from: nat, to: nat): seq<T> {
    if from >= |items| || to <= from then [] else if to >= |items| then items[from..] else items[from..to]
  }

  function PageOf<T>(items: seq<T>, offset: Option<int>, limit: Option<int>): DetailPage<T> {
    var size := Clamped(if limit.Some? then limit.value else 50, 1, 500);
    var start := if offset.Some? && offset.value > 0 then offset.value else 0;
    DetailPage(Slice(items, start, start + size), |items|, start, size, start + size < |items|)
  }

  /** A page: 50 items, or as many as asked for between 1 and 500, from the offset or the start on. */
  lemma PageIs<T>(items: seq<T>, offset: Option<int>, limit: Option<int>)
    ensures
      var page := PageOf(items, offset, limit);
      && page.total == |items| && page.offset == (if offset.Some? && offset.value > 0 then offset.value else 0)
      && page.limit == (if limit.None? then 50 else if limit.value < 1 then 1
                        else if limit.value > 500 then 500 else limit.value)
      && (page.has_more <==> page.offset + page.limit < |items|)
      && (if page.offset >= |items| then page.items == []
          else if page.has_more then page.items == items[page.offset..page.offset + page.limit]
          else page.items == items[page.offset..])
  {
  }

  /** The items of the pages loaded one after another until one has no more. */
  function Loaded<T>(items: seq<T>, offset: nat, limit: Option<int>): seq<T>
    decreases |items| - offset
  {
    var page := PageOf(items, Some(offset), limit);
    page.items + if page.has_more then Loaded(items, offset + page.limit, limit) else []
  }

  /** Loading pages from any place gives all items from there, once and in order, whatever page size is asked for. */
  lemma {:induction false} LoadedIsAll<T>(items: seq<T>, offset: nat, limit: Option<int>)
    requires offset <= |items|
    ensures Loaded(items, offset, limit) == items[offset..]
    decreases |items| - offset
  {
    PageIs(items, Some(offset), limit);
    hide PageOf;
    var page := PageOf(items, Some(offset), limit);
    if page.has_more {
      LoadedIsAll(items, offset + page.limit, limit);
      hide Loaded;
      assert items[offset..offset + page.limit] + items[offset + page.limit..] == items[offset..];
    }
  }
}
