/** Applying the differences of two tables to the target gives back the source. */
module RowPatch {
  import opened OrderedMaps
  import opened Text
  import opened RowCompare

  // ---- By primary key ----

  /** A row with some of its cells taken from another one. */
  function Merged(row: Row, source: Row, columns: seq<string>): Row {
    map column | column in row.Keys + source.Keys && (if column in columns then column in source else column in row)
      :: if column in columns then source[column] else row[column]
  }

  lemma MergedCell(row: Row, source: Row, columns: seq<string>, column: string)
    ensures Cell(Merged(row, source, columns), column)
         == if column in columns then Cell(source, column) else Cell(row, column)
  {
  }

  /** Deletes need their row, updates too and set the differing columns, inserts need the key to be free. */
  function WithDeletes(table: map<Signature, Row>, deletes: seq<RowSample>): Option<map<Signature, Row>> {
    if deletes == [] then Some(table)
    else
      var last := deletes[|deletes| - 1];
      match WithDeletes(table, deletes[..|deletes| - 1])
      case None => None
      case Some(t) => if last.signature in t then Some(t - {last.signature}) else None
  }

  function WithUpdates(table: map<Signature, Row>, updates: seq<UpdateSample>): Option<map<Signature, Row>> {
    if updates == [] then Some(table)
    else
      var u := updates[|updates| - 1];
      match WithUpdates(table, updates[..|updates| - 1])
      case None => None
      case Some(t) =>
        if u.signature in t then Some(t[u.signature := Merged(t[u.signature], u.source_row, u.diff_columns)]) else None
  }

  function WithInserts(table: map<Signature, Row>, inserts: seq<RowSample>): Option<map<Signature, Row>> {
    if inserts == [] then Some(table)
    else
      var last := inserts[|inserts| - 1];
      match WithInserts(table, inserts[..|inserts| - 1])
      case None => None
      case Some(t) => if last.signature in t then None else Some(t[last.signature := last.row])
  }

  function Patched(table: map<Signature, Row>, diff: Details): Option<map<Signature, Row>> {
    match WithDeletes(table, diff.deletes)
    case None => None
    case Some(t) =>
      match WithUpdates(t, diff.updates)
      case None => None
      case Some(u) => WithInserts(u, diff.inserts)
  }

  function AfterDeletes(target: OrderedMap<Signature, Row>, source: map<Signature, Row>, k: nat): map<Signature, Row>
    requires k <= |target.order|
  {
    map s | s in target.entries && (s in source || s !in target.order[..k]) :: target.entries[s]
  }

  lemma OrderIsListed<V>(m: OrderedMap<Signature, V>)
    requires m.Sound()
    ensures forall signature <- m.order :: signature in m.entries
  {
  }

  lemma MissingStep(order: seq<Signature>, rows: map<Signature, Row>, other: map<Signature, Row>, k: nat)
    requires k < |order| && forall signature <- order :: signature in rows
    ensures Missing(order[..k + 1], rows, other)
         == Missing(order[..k], rows, other) + if order[k] in other then [] else [RowSample(order[k], rows[order[k]])]
  {
    assert order[..k + 1][..k] == order[..k];
  }

  lemma DeleteOne(table: map<Signature, Row>, deletes: seq<RowSample>, sample: RowSample, t: map<Signature, Row>)
    requires WithDeletes(table, deletes) == Some(t) && sample.signature in t
    ensures WithDeletes(table, deletes + [sample]) == Some(t - {sample.signature})
  {
    assert (deletes + [sample])[..|deletes|] == deletes;
  }

  lemma AfterDeletesStep(target: OrderedMap<Signature, Row>, source: map<Signature, Row>, k: nat)
    requires k < |target.order| && target.Sound()
    ensures target.order[k] in AfterDeletes(target, source, k)
    ensures AfterDeletes(target, source, k + 1)
         == if target.order[k] in source then AfterDeletes(target, source, k)
            else AfterDeletes(target, source, k) - {target.order[k]}
  {
    assert target.order[..k + 1] == target.order[..k] + [target.order[k]];
  }

  lemma {:induction false} DeletesApply(target: OrderedMap<Signature, Row>, source: map<Signature, Row>, k: nat)
    requires target.Sound() && k <= |target.order|
    ensures WithDeletes(target.entries, Missing(target.order[..k], target.entries, source))
         == Some(AfterDeletes(target, source, k))
  {
    OrderIsListed(target);
    if k == 0 {
      assert AfterDeletes(target, source, 0) == target.entries;
    } else {
      hide *;
      DeletesApply(target, source, k - 1);
      MissingStep(target.order, target.entries, source, k - 1);
      AfterDeletesStep(target, source, k - 1);
      var s := target.order[k - 1];
      var rest := Missing(target.order[..k - 1], target.entries, source);
      if s in source {
        assert rest + [] == rest;
      } else {
        DeleteOne(target.entries, rest, RowSample(s, target.entries[s]), AfterDeletes(target, source, k - 1));
      }
    }
  }

  /** The patched form of a common row. */
  function Fixed(source: Row, target: Row, columns: seq<string>): Row {
    var diff := DiffColumns(source, target, columns);
    if diff == [] then target else Merged(target, source, diff)
  }

  function AfterUpdates(
    source: OrderedMap<Signature, Row>, target: map<Signature, Row>, columns: seq<string>, k: nat): map<Signature, Row>
    requires k <= |source.order| && source.Sound()
  {
    map s | s in target && s in source.entries
      :: if s in source.order[..k] then Fixed(source.entries[s], target[s], columns) else target[s]
  }

  lemma UpdateOne(table: map<Signature, Row>, updates: seq<UpdateSample>, u: UpdateSample, t: map<Signature, Row>)
    requires WithUpdates(table, updates) == Some(t) && u.signature in t
    ensures WithUpdates(table, updates + [u])
         == Some(t[u.signature := Merged(t[u.signature], u.source_row, u.diff_columns)])
  {
    hide Merged;
    assert (updates + [u])[..|updates|] == updates;
  }

  lemma UpdatesStep(
    order: seq<Signature>, source: map<Signature, Row>, target: map<Signature, Row>, columns: seq<string>,
    keys: seq<string>, k: nat)
    requires k < |order| && forall signature <- order :: signature in source
    ensures Updates(order[..k + 1], source, target, columns, keys)
         == Updates(order[..k], source, target, columns, keys)
            + if order[k] in target && DiffColumns(source[order[k]], target[order[k]], columns) != [] then
                [UpdateOf(order[k], source[order[k]], target[order[k]], columns, keys)]
              else []
  {
    hide UpdateOf, DiffColumns;
    assert order[..k + 1][..k] == order[..k];
  }

  lemma AfterUpdatesStep(source: OrderedMap<Signature, Row>, target: map<Signature, Row>, columns: seq<string>, k: nat)
    requires k < |source.order| && source.Sound()
    ensures var s := source.order[k]; var before := AfterUpdates(source, target, columns, k);
      && (s in target ==> s in before && before[s] == target[s])
      && AfterUpdates(source, target, columns, k + 1)
         == if s in target then before[s := Fixed(source.entries[s], target[s], columns)] else before
  {
    hide Fixed;
    assert source.order[..k + 1] == source.order[..k] + [source.order[k]];
  }

  lemma UpdateFixes(
    table: map<Signature, Row>, updates: seq<UpdateSample>, t: map<Signature, Row>, s: Signature, source: Row,
    columns: seq<string>, keys: seq<string>)
    requires WithUpdates(table, updates) == Some(t) && s in t
    ensures WithUpdates(
              table,
              updates
              + if DiffColumns(source, t[s], columns) != [] then [UpdateOf(s, source, t[s], columns, keys)] else [])
         == Some(t[s := Fixed(source, t[s], columns)])
  {
    if DiffColumns(source, t[s], columns) != [] {
      UpdateOne(table, updates, UpdateOf(s, source, t[s], columns, keys), t);
      hide CellsOf, DiffColumns, Merged, WithUpdates;
    } else {
      hide CellsOf, DiffColumns, Merged, WithUpdates;
      assert updates + [] == updates;
      assert t[s := t[s]] == t;
    }
  }

  lemma {:induction false} UpdatesApply(
    source: OrderedMap<Signature, Row>, target: map<Signature, Row>, columns: seq<string>, keys: seq<string>, k: nat)
    requires source.Sound() && k <= |source.order|
    ensures WithUpdates(
              AfterUpdates(source, target, columns, 0),
              Updates(source.order[..k], source.entries, target, columns, keys))
         == Some(AfterUpdates(source, target, columns, k))
  {
    OrderIsListed(source);
    if k == 0 {
      assert Updates(source.order[..0], source.entries, target, columns, keys) == [];
    } else {
      hide *;
      UpdatesApply(source, target, columns, keys, k - 1);
      UpdatesStep(source.order, source.entries, target, columns, keys, k - 1);
      AfterUpdatesStep(source, target, columns, k - 1);
      var s := source.order[k - 1];
      var before := AfterUpdates(source, target, columns, k - 1);
      var rest := Updates(source.order[..k - 1], source.entries, target, columns, keys);
      if s in target {
        UpdateFixes(AfterUpdates(source, target, columns, 0), rest, before, s, source.entries[s], columns, keys);
      } else {
        assert rest + [] == rest;
      }
    }
  }

  function AfterInserts(source: OrderedMap<Signature, Row>, target: map<Signature, Row>, columns: seq<string>, k: nat)
    : map<Signature, Row>
    requires k <= |source.order| && source.Sound()
  {
    map s | s in source.entries && (s in target || s in source.order[..k])
      :: if s in target then Fixed(source.entries[s], target[s], columns) else source.entries[s]
  }

  lemma InsertOne(table: map<Signature, Row>, inserts: seq<RowSample>, sample: RowSample, t: map<Signature, Row>)
    requires WithInserts(table, inserts) == Some(t) && sample.signature !in t
    ensures WithInserts(table, inserts + [sample]) == Some(t[sample.signature := sample.row])
  {
    assert (inserts + [sample])[..|inserts|] == inserts;
  }

  lemma AfterInsertsStep(source: OrderedMap<Signature, Row>, target: map<Signature, Row>, columns: seq<string>, k: nat)
    requires k < |source.order| && source.Sound()
    ensures var s := source.order[k]; var before := AfterInserts(source, target, columns, k);
      && (s !in target ==> s !in before)
      && AfterInserts(source, target, columns, k + 1)
         == if s in target then before else before[s := source.entries[s]]
  {
    hide Fixed;
    assert source.order[..k + 1] == source.order[..k] + [source.order[k]];
  }

  lemma {:induction false} InsertsApply(
    source: OrderedMap<Signature, Row>, target: map<Signature, Row>, columns: seq<string>, k: nat)
    requires source.Sound() && k <= |source.order|
    ensures WithInserts(
              AfterInserts(source, target, columns, 0),
              Missing(source.order[..k], source.entries, target))
         == Some(AfterInserts(source, target, columns, k))
  {
    OrderIsListed(source);
    if k == 0 {
      assert Missing(source.order[..0], source.entries, target) == [];
    } else {
      hide *;
      InsertsApply(source, target, columns, k - 1);
      MissingStep(source.order, source.entries, target, k - 1);
      AfterInsertsStep(source, target, columns, k - 1);
      var s := source.order[k - 1];
      var rest := Missing(source.order[..k - 1], source.entries, target);
      if s in target {
        assert rest + [] == rest;
      } else {
        InsertOne(AfterInserts(source, target, columns, 0), rest, RowSample(s, source.entries[s]),
          AfterInserts(source, target, columns, k - 1));
      }
    }
  }

  lemma FixedCell(source: Row, target: Row, columns: seq<string>, column: string)
    ensures Cell(Fixed(source, target, columns), column)
         == if column in columns then Cell(source, column) else Cell(target, column)
  {
    MergedCell(target, source, DiffColumns(source, target, columns), column);
    hide Merged;
  }

  lemma DeletedIsCommon(source: OrderedMap<Signature, Row>, target: OrderedMap<Signature, Row>, columns: seq<string>)
    requires source.Sound() && target.Sound()
    ensures AfterDeletes(target, source.entries, |target.order|) == AfterUpdates(source, target.entries, columns, 0)
  {
    hide Fixed;
    assert target.order[..|target.order|] == target.order;
  }

  lemma UpdatedIsCommon(source: OrderedMap<Signature, Row>, target: map<Signature, Row>, columns: seq<string>)
    requires source.Sound()
    ensures AfterUpdates(source, target, columns, |source.order|) == AfterInserts(source, target, columns, 0)
  {
    hide Fixed;
    assert source.order[..|source.order|] == source.order;
  }

  lemma PatchedIs(
    source: OrderedMap<Signature, Row>, target: OrderedMap<Signature, Row>, columns: seq<string>, keys: seq<string>)
    requires source.Sound() && target.Sound()
    ensures Patched(target.entries, KeyedDiff(source, target, columns, keys))
         == Some(AfterInserts(source, target.entries, columns, |source.order|))
  {
    DeletesApply(target, source.entries, |target.order|);
    DeletedIsCommon(source, target, columns);
    UpdatesApply(source, target.entries, columns, keys, |source.order|);
    UpdatedIsCommon(source, target.entries, columns);
    InsertsApply(source, target.entries, columns, |source.order|);
    assert target.order[..|target.order|] == target.order && source.order[..|source.order|] == source.order;
    hide AfterDeletes, AfterUpdates, AfterInserts, WithDeletes, WithUpdates, WithInserts, Missing, Updates,
      OrderedMap.Sound, DiffColumns, CellsOf;
  }

  /** The differences apply to one table, and what comes out are the keys and the compared cells of the other. */
  ghost predicate TurnsInto(
    source: map<Signature, Row>, target: map<Signature, Row>, columns: seq<string>, diff: Details)
  {
    var patched := Patched(target, diff);
    && patched.Some? && patched.value.Keys == source.Keys
    && forall s <- source ::
         BecomesSource(patched.value[s], source[s], if s in target then Some(target[s]) else None, columns)
  }

  /** A row of the source, but for the columns that are not compared, which a row that was there keeps. */
  ghost predicate BecomesSource(now: Row, source: Row, was: Option<Row>, columns: seq<string>) {
    forall column: string ::
      Cell(now, column) == if was.Some? && column !in columns then Cell(was.value, column) else Cell(source, column)
  }

  /**
   * Diff then patch gives the source: every delete and update finds its row and every insert a free key, the patched
   * table has exactly the source's keys, a common row agrees with the source on the compared columns and is untouched
   * elsewhere, and a new row is the source's.
   */
  lemma KeyedPatchGivesSource(
    source: OrderedMap<Signature, Row>, target: OrderedMap<Signature, Row>, columns: seq<string>, keys: seq<string>)
    requires source.Sound() && target.Sound()
    ensures TurnsInto(source.entries, target.entries, columns, KeyedDiff(source, target, columns, keys))
  {
    PatchedIs(source, target, columns, keys);
    hide KeyedDiff, Patched, Fixed, Cell;
    assert source.order[..|source.order|] == source.order;
    var patched := AfterInserts(source, target.entries, columns, |source.order|);
    assert patched.Keys == source.entries.Keys;
    forall s | s in source.entries
      ensures BecomesSource(patched[s], source.entries[s],
                if s in target.entries then Some(target.entries[s]) else None, columns)
    {
      if s in target.entries {
        forall column: string
          ensures Cell(patched[s], column)
               == if column !in columns then Cell(target.entries[s], column) else Cell(source.entries[s], column)
        {
          FixedCell(source.entries[s], target.entries[s], columns, column);
        }
      }
    }
  }

  lemma {:induction false} MissingAt(
    order: seq<Signature>, rows: map<Signature, Row>, other: map<Signature, Row>, s: Signature)
    requires forall signature <- order :: signature in rows
    ensures (exists sample <- Missing(order, rows, other) :: sample.signature == s) <==> s in order && s !in other
  {
    if order != [] {
      MissingAt(order[..|order| - 1], rows, other, s);
      assert order == order[..|order| - 1] + [order[|order| - 1]];
    }
  }

  lemma {:induction false} UpdateAt(
    order: seq<Signature>, source: map<Signature, Row>, target: map<Signature, Row>, columns: seq<string>,
    keys: seq<string>, s: Signature)
    requires forall signature <- order :: signature in source
    ensures (exists u <- Updates(order, source, target, columns, keys) :: u.signature == s)
        <==> s in order && s in target && DiffColumns(source[s], target[s], columns) != []
  {
    hide DiffColumns, CellsOf;
    if order != [] {
      var rest, last := order[..|order| - 1], order[|order| - 1];
      UpdateAt(rest, source, target, columns, keys, s);
      assert order == rest + [last];
      if last in target && DiffColumns(source[last], target[last], columns) != [] {
        var u := UpdateOf(last, source[last], target[last], columns, keys);
        assert Updates(order, source, target, columns, keys) == Updates(rest, source, target, columns, keys) + [u];
        assert u.signature == last;
        assert u in Updates(order, source, target, columns, keys);
      }
    }
  }

  /**
   * What is reported for a key: an insert when only the source has it, a delete when only the target has it, an update
   * when both have it with a difference, so that no key is reported twice and a key is left out only when both agree.
   */
  lemma ReportedOnce(
    source: OrderedMap<Signature, Row>, target: OrderedMap<Signature, Row>, columns: seq<string>, keys: seq<string>,
    s: Signature)
    requires source.Sound() && target.Sound()
    ensures var diff := KeyedDiff(source, target, columns, keys);
      && ((exists i <- diff.inserts :: i.signature == s) <==> s in source.entries && s !in target.entries)
      && ((exists d <- diff.deletes :: d.signature == s) <==> s in target.entries && s !in source.entries)
      && ((exists u <- diff.updates :: u.signature == s)
          <==> && s in source.entries && s in target.entries
               && exists column <- columns ::
                    Cell(source.entries[s], column) != Cell(target.entries[s], column))
  {
    MissingAt(source.order, source.entries, target.entries, s);
    MissingAt(target.order, target.entries, source.entries, s);
    UpdateAt(source.order, source.entries, target.entries, columns, keys, s);
    hide Missing, Updates, Cell;
    if s in source.entries && s in target.entries {
      var diff := DiffColumns(source.entries[s], target.entries[s], columns);
      if diff != [] {
        assert diff[0] in diff;
      }
    }
  }

  /** The keyed form lists the rows as they are. */
  ghost predicate Lists(m: OrderedMap<Signature, Row>, rows: seq<Row>, keys: seq<string>) {
    && |m.order| == |rows|
    && forall i :: 0 <= i < |rows| ==>
         m.order[i] == Cells(CellsOf(rows[i], keys)) && m.order[i] in m.entries && m.entries[m.order[i]] == rows[i]
  }

  lemma ListsStep(m: OrderedMap<Signature, Row>, rows: seq<Row>, keys: seq<string>)
    requires rows != [] && m.Sound() && Lists(m, rows[..|rows| - 1], keys)
    requires forall i :: 0 <= i < |rows| - 1 ==> CellsOf(rows[i], keys) != CellsOf(rows[|rows| - 1], keys)
    ensures Lists(m.Put(Cells(CellsOf(rows[|rows| - 1], keys)), rows[|rows| - 1]), rows, keys)
  {
    hide CellsOf;
    var key := Cells(CellsOf(rows[|rows| - 1], keys));
    assert key !in m.order;
  }

  /** With one row to a key, the keyed form of a table is the table: no row is lost. */
  lemma {:induction false} UniqueKeysLoseNothing(rows: seq<Row>, keys: seq<string>)
    requires forall i, j :: 0 <= i < j < |rows| ==> CellsOf(rows[i], keys) != CellsOf(rows[j], keys)
    ensures Lists(Keyed(rows, keys), rows, keys)
  {
    hide CellsOf;
    if rows != [] {
      UniqueKeysLoseNothing(rows[..|rows| - 1], keys);
      ListsStep(Keyed(rows[..|rows| - 1], keys), rows, keys);
      hide Lists;
    }
  }

  // ---- By whole rows ----

  function Signatures(rows: seq<Row>, columns: seq<string>): seq<Signature> {
    if rows == [] then []
    else Signatures(rows[..|rows| - 1], columns) + [SignatureOf(rows[|rows| - 1], columns)]
  }

  function SampleSignatures(samples: seq<RowSample>): seq<Signature> {
    if samples == [] then [] else SampleSignatures(samples[..|samples| - 1]) + [samples[|samples| - 1].signature]
  }

  lemma {:induction false} GroupCounts(rows: seq<Row>, columns: seq<string>, s: Signature)
    ensures Count(Grouped(rows, columns).entries, s) == multiset(Signatures(rows, columns))[s]
  {
    hide SignatureOf;
    if rows != [] {
      GroupCounts(rows[..|rows| - 1], columns, s);
    }
  }

  /** A group holds rows of its own side and signature only. */
  lemma {:induction false} GroupMembers(rows: seq<Row>, columns: seq<string>, s: Signature)
    requires s in Grouped(rows, columns).entries
    ensures forall row <- Grouped(rows, columns).entries[s] :: row in rows && SignatureOf(row, columns) == s
  {
    hide SignatureOf;
    var rest := rows[..|rows| - 1];
    assert rows == rest + [rows[|rows| - 1]];
    if s in Grouped(rest, columns).entries {
      GroupMembers(rest, columns, s);
    }
  }

  lemma {:induction false} SignaturesOfTwo(a: seq<RowSample>, b: seq<RowSample>)
    ensures SampleSignatures(a + b) == SampleSignatures(a) + SampleSignatures(b)
  {
    if b == [] {
      assert a + b == a;
    } else {
      assert (a + b)[..|a + b| - 1] == a + b[..|b| - 1];
      SignaturesOfTwo(a, b[..|b| - 1]);
    }
  }

  lemma {:induction false} LabelledCount(tag: Signature, rows: seq<Row>, s: Signature)
    ensures multiset(SampleSignatures(Labelled(tag, rows)))[s] == if s == tag then |rows| else 0
  {
    if rows != [] {
      LabelledCount(tag, rows[..|rows| - 1], s);
      var rest := Labelled(tag, rows[..|rows| - 1]);
      assert Labelled(tag, rows)[..|rest|] == rest;
    }
  }

  lemma CountInTwo(a: seq<RowSample>, b: seq<RowSample>, s: Signature)
    ensures multiset(SampleSignatures(a + b))[s]
         == multiset(SampleSignatures(a))[s] + multiset(SampleSignatures(b))[s]
  {
    SignaturesOfTwo(a, b);
    hide SampleSignatures;
  }

  lemma LastApart(order: seq<Signature>, s: Signature)
    requires order != [] && forall i, j :: 0 <= i < j < |order| ==> order[i] != order[j]
    ensures order[|order| - 1] !in order[..|order| - 1]
    ensures s in order <==> s in order[..|order| - 1] || s == order[|order| - 1]
  {
    assert order == order[..|order| - 1] + [order[|order| - 1]];
  }

  /** How many more rows one side has of a signature. */
  function Excess(groups: map<Signature, seq<Row>>, other: map<Signature, seq<Row>>, s: Signature): nat {
    if Count(groups, s) > Count(other, s) then Count(groups, s) - Count(other, s) else 0
  }

  lemma SurplusStep(order: seq<Signature>, groups: map<Signature, seq<Row>>, other: map<Signature, seq<Row>>)
    requires order != [] && forall signature <- order :: signature in groups
    ensures var last := order[|order| - 1]; var rows := Beyond(groups[last], Count(other, last));
      && Surplus(order, groups, other) == Surplus(order[..|order| - 1], groups, other) + Labelled(last, rows)
      && |rows| == Excess(groups, other, last)
  {
  }

  lemma {:induction false} SurplusCount(
    order: seq<Signature>, groups: map<Signature, seq<Row>>, other: map<Signature, seq<Row>>, s: Signature)
    requires forall signature <- order :: signature in groups
    requires forall i, j :: 0 <= i < j < |order| ==> order[i] != order[j]
    ensures multiset(SampleSignatures(Surplus(order, groups, other)))[s]
         == if s in order then Excess(groups, other, s) else 0
  {
    if order != [] {
      hide *;
      var last := order[|order| - 1];
      var rest := order[..|order| - 1];
      SurplusCount(rest, groups, other, s);
      var rows := Beyond(groups[last], Count(other, last));
      LabelledCount(last, rows, s);
      CountInTwo(Surplus(rest, groups, other), Labelled(last, rows), s);
      SurplusStep(order, groups, other);
      LastApart(order, s);
    }
  }

  lemma SideCount(side: OrderedMap<Signature, seq<Row>>, other: map<Signature, seq<Row>>, s: Signature)
    requires side.Sound()
    ensures forall signature <- side.order :: signature in side.entries
    ensures multiset(SampleSignatures(Surplus(side.order, side.entries, other)))[s] == Excess(side.entries, other, s)
  {
    hide SampleSignatures, Surplus;
    SurplusCount(side.order, side.entries, other, s);
  }

  lemma {:induction false} LabelledMembers(tag: Signature, rows: seq<Row>)
    ensures forall sample <- Labelled(tag, rows) :: sample.signature == tag && sample.row in rows
  {
    if rows != [] {
      LabelledMembers(tag, rows[..|rows| - 1]);
      assert rows == rows[..|rows| - 1] + [rows[|rows| - 1]];
    }
  }

  lemma {:induction false} SurplusMembers(
    order: seq<Signature>, groups: map<Signature, seq<Row>>, other: map<Signature, seq<Row>>)
    requires forall signature <- order :: signature in groups
    ensures forall sample <- Surplus(order, groups, other) ::
              sample.signature in groups && sample.row in groups[sample.signature]
  {
    if order != [] {
      SurplusMembers(order[..|order| - 1], groups, other);
      var last := order[|order| - 1];
      LabelledMembers(last, Beyond(groups[last], Count(other, last)));
      hide Labelled;
    }
  }

  /** How often a signature is inserted and deleted: by as much as one side has it more often than the other. */
  lemma FullRowCounts(sourceRows: seq<Row>, targetRows: seq<Row>, columns: seq<string>, s: Signature)
    ensures var diff := FullRowDiff(Grouped(sourceRows, columns), Grouped(targetRows, columns));
      var n, m := multiset(Signatures(sourceRows, columns))[s], multiset(Signatures(targetRows, columns))[s];
      && multiset(SampleSignatures(diff.inserts))[s] == (if n > m then n - m else 0)
      && multiset(SampleSignatures(diff.deletes))[s] == (if m > n then m - n else 0)
  {
    hide Grouped, Surplus, Signatures, SampleSignatures, Count, OrderedMap.Sound;
    var source, target := Grouped(sourceRows, columns), Grouped(targetRows, columns);
    SideCount(source, target.entries, s);
    SideCount(target, source.entries, s);
    GroupCounts(sourceRows, columns, s);
    GroupCounts(targetRows, columns, s);
  }

  lemma CountsBalance<T>(source: multiset<T>, target: multiset<T>, inserts: multiset<T>, deletes: multiset<T>)
    requires forall s: T :: inserts[s] == if source[s] > target[s] then source[s] - target[s] else 0
    requires forall s: T :: deletes[s] == if target[s] > source[s] then target[s] - source[s] else 0
    ensures deletes <= target && inserts !! deletes
    ensures target - deletes + inserts == source && target + inserts - deletes == source
  {
  }

  /**
   * Target plus inserts minus deletes is the source as a multiset of signatures; the deletes are all there to delete,
   * and nothing is both inserted and deleted.
   */
  lemma FullRowPatchGivesSource(sourceRows: seq<Row>, targetRows: seq<Row>, columns: seq<string>)
    ensures var diff := FullRowDiff(Grouped(sourceRows, columns), Grouped(targetRows, columns));
      var source, target := multiset(Signatures(sourceRows, columns)), multiset(Signatures(targetRows, columns));
      var inserts, deletes := multiset(SampleSignatures(diff.inserts)), multiset(SampleSignatures(diff.deletes));
      && deletes <= target
      && target - deletes + inserts == source
      && target + inserts - deletes == source
      && inserts !! deletes
  {
    hide *;
    var diff := FullRowDiff(Grouped(sourceRows, columns), Grouped(targetRows, columns));
    var source, target := multiset(Signatures(sourceRows, columns)), multiset(Signatures(targetRows, columns));
    var inserts, deletes := multiset(SampleSignatures(diff.inserts)), multiset(SampleSignatures(diff.deletes));
    forall s: Signature
      ensures inserts[s] == if source[s] > target[s] then source[s] - target[s] else 0
      ensures deletes[s] == if target[s] > source[s] then target[s] - source[s] else 0
    {
      FullRowCounts(sourceRows, targetRows, columns, s);
    }
    CountsBalance(source, target, inserts, deletes);
  }

  /** Every reported insert is a source row and every reported delete a target row, each under its own signature. */
  lemma FullRowSamplesAreRows(sourceRows: seq<Row>, targetRows: seq<Row>, columns: seq<string>)
    ensures var diff := FullRowDiff(Grouped(sourceRows, columns), Grouped(targetRows, columns));
      && (forall i <- diff.inserts :: i.row in sourceRows && i.signature == SignatureOf(i.row, columns))
      && (forall d <- diff.deletes :: d.row in targetRows && d.signature == SignatureOf(d.row, columns))
  {
    var source, target := Grouped(sourceRows, columns), Grouped(targetRows, columns);
    var diff := FullRowDiff(source, target);
    SurplusMembers(source.order, source.entries, target.entries);
    SurplusMembers(target.order, target.entries, source.entries);
    hide Grouped, SignatureOf, Surplus;
    forall i | i in diff.inserts
      ensures i.row in sourceRows && i.signature == SignatureOf(i.row, columns)
    {
      GroupMembers(sourceRows, columns, i.signature);
    }
    forall d | d in diff.deletes
      ensures d.row in targetRows && d.signature == SignatureOf(d.row, columns)
    {
      GroupMembers(targetRows, columns, d.signature);
    }
  }
}
