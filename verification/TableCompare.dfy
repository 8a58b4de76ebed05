/** Comparing two tables as they are declared: which columns count, which mode is taken, and what the result means. */
module TableCompare {
  import opened OrderedMaps
  import opened RowCompare
  import opened RowPatch
  import opened Selections
  import opened Text

  datatype Field = Field(name: string, primary_key: bool)

  datatype TableResult = TableResult(
    key_columns: seq<string>, compared_columns: seq<string>, keyed: bool, target_lacks: seq<string>,
    source_lacks: seq<string>, insert_count: nat, update_count: nat, delete_count: nat, samples: Details)

  // ---- Columns ----

  function NamesOf(fields: seq<Field>): (names: seq<string>)
    ensures |names| == |fields| && forall i :: 0 <= i < |fields| ==> names[i] == fields[i].name
  {
    seq(|fields|, i requires 0 <= i < |fields| => fields[i].name)
  }

  function KeysOf(fields: seq<Field>): seq<string> {
    if fields == [] then []
    else
      var last := fields[|fields| - 1];
      KeysOf(fields[..|fields| - 1]) + if last.primary_key then [last.name] else []
  }

  function Common(names: seq<string>, other: seq<string>): seq<string> {
    if names == [] then []
    else
      var last := names[|names| - 1];
      Common(names[..|names| - 1], other) + if last in other then [last] else []
  }

  function Lacking(names: seq<string>, other: seq<string>): seq<string> {
    if names == [] then []
    else
      var last := names[|names| - 1];
      Lacking(names[..|names| - 1], other) + if last in other then [] else [last]
  }

  function PreviewLimit(requested: Option<int>): (limit: nat)
    ensures requested == None ==> limit == 20
    ensures requested.Some? && requested.value < 1 ==> limit == 1
    ensures requested.Some? && requested.value > 100 ==> limit == 100
    ensures requested.Some? && 1 <= requested.value <= 100 ==> limit == requested.value
  {
    Clamped(if requested.Some? then requested.value else 20, 1, 100)
  }

  /** Which fields are part of the key. */
  function KeyMarks(fields: seq<Field>): (marks: seq<bool>)
    ensures |marks| == |fields| && forall i :: 0 <= i < |fields| ==> marks[i] == fields[i].primary_key
  {
    seq(|fields|, i requires 0 <= i < |fields| => fields[i].primary_key)
  }

  /** Which names are among others, or are not. */
  function Among(names: seq<string>, other: seq<string>, there: bool): (marks: seq<bool>)
    ensures |marks| == |names| && forall i :: 0 <= i < |names| ==> marks[i] == ((names[i] in other) == there)
  {
    seq(|names|, i requires 0 <= i < |names| => (names[i] in other) == there)
  }

  lemma {:induction false} KeysArePicked(fields: seq<Field>)
    ensures Picks(NamesOf(fields), KeyMarks(fields), KeysOf(fields))
  {
    hide Picks;
    if fields == [] {
      PicksNone<string>();
    } else {
      var rest, last := fields[..|fields| - 1], fields[|fields| - 1];
      KeysArePicked(rest);
      PicksLast(NamesOf(rest), KeyMarks(rest), KeysOf(rest), last.name, last.primary_key);
      assert KeysOf(rest) + [] == KeysOf(rest);
      assert NamesOf(fields) == NamesOf(rest) + [last.name];
      assert KeyMarks(fields) == KeyMarks(rest) + [last.primary_key];
    }
  }

  lemma {:induction false} NamesArePicked(names: seq<string>, other: seq<string>)
    ensures Picks(names, Among(names, other, true), Common(names, other))
    ensures Picks(names, Among(names, other, false), Lacking(names, other))
  {
    hide Picks;
    if names == [] {
      PicksNone<string>();
    } else {
      var rest, last := names[..|names| - 1], names[|names| - 1];
      NamesArePicked(rest, other);
      PicksLast(rest, Among(rest, other, true), Common(rest, other), last, last in other);
      PicksLast(rest, Among(rest, other, false), Lacking(rest, other), last, last !in other);
      assert names == rest + [last];
      assert Common(rest, other) + [] == Common(rest, other) && Lacking(rest, other) + [] == Lacking(rest, other);
      assert Among(names, other, true) == Among(rest, other, true) + [last in other];
      assert Among(names, other, false) == Among(rest, other, false) + [last !in other];
    }
  }

  /** The primary keys of both tables, in their order, read alike when they are joined. */
  ghost predicate ShareKey(source: seq<Field>, target: seq<Field>) {
    exists s, t ::
      && Picks(NamesOf(source), KeyMarks(source), s) && Picks(NamesOf(target), KeyMarks(target), t)
      && s != [] && Join(s, ",") == Join(t, ",")
  }

  lemma KeysAreShared(source: seq<Field>, target: seq<Field>)
    ensures KeysOf(source) != [] && Join(KeysOf(source), ",") == Join(KeysOf(target), ",")
       <==> ShareKey(source, target)
  {
    KeysArePicked(source);
    KeysArePicked(target);
    forall s, t | Picks(NamesOf(source), KeyMarks(source), s) && Picks(NamesOf(target), KeyMarks(target), t)
      ensures s == KeysOf(source) && t == KeysOf(target)
    {
      PicksOnce(NamesOf(source), KeyMarks(source), s, KeysOf(source));
      PicksOnce(NamesOf(target), KeyMarks(target), t, KeysOf(target));
    }
    hide Picks, KeysOf, Join;
  }

  lemma JoinHasComma(names: seq<string>)
    requires |names| > 1
    ensures ',' in Join(names, ",")
  {
    assert Join(names, ",")[|names[0]|] == ',';
  }

  /** Without commas in the names, joined names tell the names. */
  lemma {:induction false} JoinApart(s: seq<string>, t: seq<string>)
    requires s != [] && t != [] && (forall name <- s :: ',' !in name) && (forall name <- t :: ',' !in name)
    ensures Join(s, ",") == Join(t, ",") <==> s == t
  {
    if |s| > 1 { JoinHasComma(s); }
    if |t| > 1 { JoinHasComma(t); }
    if |s| > 1 && |t| > 1 {
      IndexOfMark(s[0], ',', Join(s[1..], ","));
      IndexOfMark(t[0], ',', Join(t[1..], ","));
      assert Join(s, ",") == s[0] + [','] + Join(s[1..], ",") && Join(t, ",") == t[0] + [','] + Join(t[1..], ",");
      JoinApart(s[1..], t[1..]);
      if Join(s, ",") == Join(t, ",") {
        assert s[0] == Join(s, ",")[..|s[0]|] == t[0];
        assert Join(s[1..], ",") == Join(s, ",")[|s[0]| + 1..] == Join(t[1..], ",");
      }
    }
  }

  lemma SplitReadsAlike(name: string, i: nat)
    requires i < |name| && name[i] == ','
    ensures Join([name[..i], name[i + 1..]], ",") == name
  {
    var names := [name[..i], name[i + 1..]];
    assert names[1..] == [name[i + 1..]];
    assert Join(names[1..], ",") == name[i + 1..];
  }

  /**
   * Whatever the other table is, a key that reads alike is the same key exactly when this one is a single name that is
   * not empty and holds no comma; other keys read like some different key.
   */
  lemma SameKeyExactly(keys: seq<string>)
    requires keys != []
    ensures (forall other: seq<string> :: Join(other, ",") == Join(keys, ",") ==> other == keys)
       <==> |keys| == 1 && keys[0] != "" && ',' !in keys[0]
  {
    if |keys| == 1 && keys[0] != "" && ',' !in keys[0] {
      forall other: seq<string> | Join(other, ",") == Join(keys, ",")
        ensures other == keys
      {
        if |other| > 1 { JoinHasComma(other); }
      }
    } else {
      OtherKeyReadsAlike(keys);
    }
  }

  lemma OtherKeyReadsAlike(keys: seq<string>)
    requires |keys| > 1 || (|keys| == 1 && (keys[0] == "" || ',' in keys[0]))
    ensures exists other: seq<string> :: other != keys && Join(other, ",") == Join(keys, ",")
  {
    var other: seq<string>;
    if |keys| > 1 {
      other := [Join(keys, ",")];
      assert Join(other, ",") == Join(keys, ",");
    } else if keys[0] == "" {
      other := [];
      assert Join(other, ",") == Join(keys, ",");
    } else {
      var i :| 0 <= i < |keys[0]| && keys[0][i] == ',';
      other := [keys[0][..i], keys[0][i + 1..]];
      SplitReadsAlike(keys[0], i);
    }
    assert |other| != |keys|;
    hide Join;
  }

  // ---- By primary key ----

  /** One signature comes up before another one does. */
  ghost predicate Precedes(signatures: seq<Signature>, s: Signature, t: Signature) {
    exists i :: 0 <= i < |signatures| && signatures[i] == s && t !in signatures[..i + 1]
  }

  ghost predicate FirstSeen(signatures: seq<Signature>, order: seq<Signature>) {
    forall a, b :: 0 <= a < b < |order| ==> Precedes(signatures, order[a], order[b])
  }

  ghost predicate LastAt(signatures: seq<Signature>, s: Signature, i: int) {
    0 <= i < |signatures| && signatures[i] == s && s !in signatures[i + 1..]
  }

  /** Each key with its last row, in the order in which the keys first come up. */
  ghost predicate ByKey(rows: seq<Row>, keys: seq<string>, m: OrderedMap<Signature, Row>) {
    var signatures := Signatures(rows, keys);
    && |signatures| == |rows| && m.Sound()
    && (forall s: Signature :: s in m.entries <==> s in signatures)
    && (forall s <- m.entries :: exists i :: LastAt(signatures, s, i) && m.entries[s] == rows[i])
    && FirstSeen(signatures, m.order)
  }

  lemma {:induction false} SignaturesAre(rows: seq<Row>, columns: seq<string>)
    ensures |Signatures(rows, columns)| == |rows|
    ensures forall i :: 0 <= i < |rows| ==> Signatures(rows, columns)[i] == SignatureOf(rows[i], columns)
  {
    hide SignatureOf;
    if rows != [] { SignaturesAre(rows[..|rows| - 1], columns); }
  }

  lemma LaterSeen(signatures: seq<Signature>, order: seq<Signature>, last: Signature)
    requires FirstSeen(signatures, order) && forall s: Signature :: s in order <==> s in signatures
    ensures FirstSeen(signatures + [last], if last in order then order else order + [last])
  {
    var more, now := signatures + [last], if last in order then order else order + [last];
    forall a, b | 0 <= a < b < |now|
      ensures Precedes(more, now[a], now[b])
    {
      if b < |order| {
        assert Precedes(signatures, order[a], order[b]);
        var i :| 0 <= i < |signatures| && signatures[i] == order[a] && order[b] !in signatures[..i + 1];
        assert more[..i + 1] == signatures[..i + 1];
        assert more[i] == now[a];
      } else {
        assert order[a] in signatures;
        var i :| 0 <= i < |signatures| && signatures[i] == order[a];
        assert more[..i + 1] == signatures[..i + 1];
        assert more[i] == now[a];
      }
    }
  }

  lemma LastStays(signatures: seq<Signature>, s: Signature, i: int, last: Signature)
    requires LastAt(signatures, s, i) && s != last
    ensures LastAt(signatures + [last], s, i)
  {
    assert (signatures + [last])[i + 1..] == signatures[i + 1..] + [last];
  }

  lemma ByKeyPut(rows: seq<Row>, keys: seq<string>, last: Row, m: OrderedMap<Signature, Row>)
    requires ByKey(rows, keys, m)
    ensures ByKey(rows + [last], keys, m.Put(SignatureOf(last, keys), last))
  {
    hide SignatureOf, Signatures, FirstSeen, LastAt;
    var before, key := Signatures(rows, keys), SignatureOf(last, keys);
    var all, signatures, now := rows + [last], Signatures(rows + [last], keys), m.Put(key, last);
    OneMoreSignature(rows, keys, last);
    LaterSeen(before, m.order, key);
    forall s | s in now.entries
      ensures exists i :: 0 <= i < |all| && LastAt(signatures, s, i) && now.entries[s] == all[i]
    {
      if s == key {
        LastIsLast(before, key);
      } else {
        LastWasThere(before, m, rows, s);
        var i :| 0 <= i < |rows| && LastAt(before, s, i) && m.entries[s] == rows[i];
        LastStays(before, s, i, key);
      }
    }
    LastIsWithin(signatures);
  }

  lemma OneMoreSignature(rows: seq<Row>, keys: seq<string>, last: Row)
    ensures Signatures(rows + [last], keys) == Signatures(rows, keys) + [SignatureOf(last, keys)]
  {
    hide SignatureOf;
    assert (rows + [last])[..|rows|] == rows;
  }

  lemma LastIsLast(signatures: seq<Signature>, last: Signature)
    ensures LastAt(signatures + [last], last, |signatures|)
  {
  }

  lemma LastIsWithin(signatures: seq<Signature>)
    ensures forall s, i :: LastAt(signatures, s, i) ==> 0 <= i < |signatures|
  {
  }

  lemma LastWasThere(signatures: seq<Signature>, m: OrderedMap<Signature, Row>, rows: seq<Row>, s: Signature)
    requires |rows| == |signatures| && s in m.entries
    requires exists i :: LastAt(signatures, s, i) && m.entries[s] == rows[i]
    ensures exists i :: 0 <= i < |rows| && LastAt(signatures, s, i) && m.entries[s] == rows[i]
  {
  }

  lemma {:induction false} KeyedIsByKey(rows: seq<Row>, keys: seq<string>)
    requires keys != []
    ensures ByKey(rows, keys, Keyed(rows, keys))
  {
    if rows != [] {
      var rest, last := rows[..|rows| - 1], rows[|rows| - 1];
      KeyedIsByKey(rest, keys);
      ByKeyPut(rest, keys, last, Keyed(rest, keys));
      assert rest + [last] == rows;
      hide ByKey;
    }
  }

  function Differing(source: Row, target: Row, columns: seq<string>): (marks: seq<bool>)
    ensures |marks| == |columns|
    ensures forall i :: 0 <= i < |columns| ==> marks[i] == (Cell(source, columns[i]) != Cell(target, columns[i]))
  {
    seq(|columns|, i requires 0 <= i < |columns| => Cell(source, columns[i]) != Cell(target, columns[i]))
  }

  lemma {:induction false} DiffColumnsArePicked(source: Row, target: Row, columns: seq<string>)
    ensures Picks(columns, Differing(source, target, columns), DiffColumns(source, target, columns))
  {
    hide Picks;
    if columns == [] {
      PicksNone<string>();
    } else {
      var rest, last := columns[..|columns| - 1], columns[|columns| - 1];
      var differs := Cell(source, last) != Cell(target, last);
      DiffColumnsArePicked(source, target, rest);
      PicksLast(rest, Differing(source, target, rest), DiffColumns(source, target, rest), last, differs);
      assert columns == rest + [last];
      assert Differing(source, target, columns) == Differing(source, target, rest) + [differs];
    }
  }

  /** The samples come in the order in which the signatures of their side first come up. */
  ghost predicate InOrder(signatures: seq<Signature>, samples: seq<RowSample>) {
    forall a, b :: 0 <= a < b < |samples| ==>
      samples[a].signature == samples[b].signature
      || Precedes(signatures, samples[a].signature, samples[b].signature)
  }

  /**
   * The differences of two keyed tables: applied to the target they give the source, each key is reported in one way,
   * and rows, keys and differing columns are those of their side.
   */
  ghost predicate KeyedDifferences(
    source: map<Signature, Row>, target: map<Signature, Row>, columns: seq<string>, keys: seq<string>, diff: Details)
  {
    && TurnsInto(source, target, columns, diff)
    && (forall i <- diff.inserts :: i.signature in source && i.signature !in target && i.row == source[i.signature])
    && (forall d <- diff.deletes :: d.signature in target && d.signature !in source && d.row == target[d.signature])
    && (forall u <- diff.updates ::
          && u.signature in source && u.signature in target
          && u.source_row == source[u.signature] && u.target_row == target[u.signature]
          && u.key == CellsOf(u.source_row, keys) && u.diff_columns != []
          && Picks(columns, Differing(u.source_row, u.target_row, columns), u.diff_columns))
  }

  lemma {:induction false} MissingAre(order: seq<Signature>, rows: map<Signature, Row>, other: map<Signature, Row>)
    requires forall signature <- order :: signature in rows
    ensures forall sample <- Missing(order, rows, other) ::
      && sample.signature in order && sample.signature !in other && sample.row == rows[sample.signature]
  {
    if order != [] {
      MissingAre(order[..|order| - 1], rows, other);
      assert order == order[..|order| - 1] + [order[|order| - 1]];
    }
  }

  lemma {:induction false} MissingInOrder(
    signatures: seq<Signature>, order: seq<Signature>, rows: map<Signature, Row>, other: map<Signature, Row>)
    requires FirstSeen(signatures, order) && forall signature <- order :: signature in rows
    ensures InOrder(signatures, Missing(order, rows, other))
  {
    hide Precedes;
    if order != [] {
      var rest, last := order[..|order| - 1], order[|order| - 1];
      assert forall a, b :: 0 <= a < b < |rest| ==> Precedes(signatures, order[a], order[b]);
      MissingInOrder(signatures, rest, rows, other);
      MissingAre(rest, rows, other);
      assert order == rest + [last];
      forall sample | sample in Missing(rest, rows, other)
        ensures Precedes(signatures, sample.signature, last)
      {
        var a :| 0 <= a < |rest| && rest[a] == sample.signature;
        assert Precedes(signatures, order[a], order[|rest|]);
      }
    }
  }

  ghost predicate UpdatesInOrder(signatures: seq<Signature>, updates: seq<UpdateSample>) {
    forall a, b :: 0 <= a < b < |updates| ==> Precedes(signatures, updates[a].signature, updates[b].signature)
  }

  lemma {:induction false} UpdatesKeepOrder(
    signatures: seq<Signature>, order: seq<Signature>, source: map<Signature, Row>, target: map<Signature, Row>,
    columns: seq<string>, keys: seq<string>)
    requires FirstSeen(signatures, order) && forall signature <- order :: signature in source
    ensures UpdatesInOrder(signatures, Updates(order, source, target, columns, keys))
    ensures forall u <- Updates(order, source, target, columns, keys) :: u.signature in order
  {
    hide Precedes, DiffColumns, CellsOf;
    if order != [] {
      var rest, last := order[..|order| - 1], order[|order| - 1];
      FirstSeenFront(signatures, order);
      UpdatesKeepOrder(signatures, rest, source, target, columns, keys);
      assert order == rest + [last];
      forall u | u in Updates(rest, source, target, columns, keys)
        ensures Precedes(signatures, u.signature, last)
      {
        LastPreceded(signatures, order, u.signature);
      }
      hide FirstSeen;
    }
  }

  lemma {:induction false} UpdatesAre(
    order: seq<Signature>, source: map<Signature, Row>, target: map<Signature, Row>, columns: seq<string>,
    keys: seq<string>)
    requires forall signature <- order :: signature in source
    ensures forall u <- Updates(order, source, target, columns, keys) ::
      && u.signature in source && u.signature in target
      && u.source_row == source[u.signature] && u.target_row == target[u.signature]
      && u.key == CellsOf(u.source_row, keys) && u.diff_columns != []
      && Picks(columns, Differing(u.source_row, u.target_row, columns), u.diff_columns)
  {
    if order != [] {
      var rest, last := order[..|order| - 1], order[|order| - 1];
      UpdatesAre(rest, source, target, columns, keys);
      if last in target { DiffColumnsArePicked(source[last], target[last], columns); }
      hide DiffColumns, Picks, CellsOf, Differing;
    }
  }

  lemma KeyedAreDifferences(
    source: OrderedMap<Signature, Row>, target: OrderedMap<Signature, Row>, columns: seq<string>, keys: seq<string>)
    requires source.Sound() && target.Sound()
    ensures KeyedDifferences(source.entries, target.entries, columns, keys, KeyedDiff(source, target, columns, keys))
  {
    KeyedPatchGivesSource(source, target, columns, keys);
    MissingAre(source.order, source.entries, target.entries);
    MissingAre(target.order, target.entries, source.entries);
    UpdatesAre(source.order, source.entries, target.entries, columns, keys);
    hide TurnsInto, Missing, Updates, Picks, CellsOf, Differing, Cell;
  }

  // ---- By whole rows ----

  /** Rows that cannot be told apart by the columns, a missing cell counting as null; without columns, equal rows. */
  predicate Agree(row: Row, other: Row, columns: seq<string>) {
    if columns == [] then row == other
    else
      forall column <- columns ::
        (if column in row then row[column] else Null) == if column in other then other[column] else Null
  }

  lemma SignaturesTell(row: Row, other: Row, columns: seq<string>)
    ensures SignatureOf(row, columns) == SignatureOf(other, columns) <==> Agree(row, other, columns)
  {
    if columns != [] {
      var a, b := CellsOf(row, columns), CellsOf(other, columns);
      if a == b {
        forall column | column in columns
          ensures (if column in row then row[column] else Null) == if column in other then other[column] else Null
        {
          var i :| 0 <= i < |columns| && columns[i] == column;
          assert a[i] == b[i];
        }
      } else {
        var i :| 0 <= i < |columns| && a[i] != b[i];
        assert columns[i] in columns;
      }
      hide CellsOf;
    }
  }

  function Marks(rows: seq<Row>, row: Row, columns: seq<string>): (marks: seq<bool>)
    ensures |marks| == |rows| && forall i :: 0 <= i < |rows| ==> marks[i] == Agree(rows[i], row, columns)
  {
    seq(|rows|, i requires 0 <= i < |rows| => Agree(rows[i], row, columns))
  }

  /** The rows that agree with one, in order. */
  function Agreeing(rows: seq<Row>, row: Row, columns: seq<string>): (r: seq<Row>)
    ensures Picks(rows, Marks(rows, row, columns), r)
  {
    hide Picks;
    if rows == [] then
      PicksNone<Row>();
      []
    else
      var n := |rows| - 1;
      var rest, agrees := Agreeing(rows[..n], row, columns), Agree(rows[n], row, columns);
      PicksLast(rows[..n], Marks(rows[..n], row, columns), rest, rows[n], agrees);
      assert rows == rows[..n] + [rows[n]];
      assert Marks(rows, row, columns) == Marks(rows[..n], row, columns) + [agrees];
      if agrees then rest + [rows[n]] else rest
  }

  function RowsOf(samples: seq<RowSample>): (rows: seq<Row>)
    ensures |rows| == |samples| && forall i :: 0 <= i < |samples| ==> rows[i] == samples[i].row
  {
    seq(|samples|, i requires 0 <= i < |samples| => samples[i].row)
  }

  /** Of the rows that agree, those are reported that one side has beyond the number of the other. */
  ghost predicate IsSurplus(rows: seq<Row>, other: seq<Row>, columns: seq<string>, samples: seq<RowSample>) {
    && (forall sample <- samples :: sample.signature == SignatureOf(sample.row, columns))
    && InOrder(Signatures(rows, columns), samples)
    && forall row: Row ::
         Agreeing(RowsOf(samples), row, columns)
         == Beyond(Agreeing(rows, row, columns), |Agreeing(other, row, columns)|)
  }

  function GroupOf(m: OrderedMap<Signature, seq<Row>>, s: Signature): seq<Row> {
    if s in m.entries then m.entries[s] else []
  }

  lemma {:induction false} GroupsAgree(rows: seq<Row>, row: Row, columns: seq<string>)
    ensures GroupOf(Grouped(rows, columns), SignatureOf(row, columns)) == Agreeing(rows, row, columns)
  {
    if rows != [] {
      GroupsAgree(rows[..|rows| - 1], row, columns);
      SignaturesTell(rows[|rows| - 1], row, columns);
      hide SignatureOf, Agree;
    }
  }

  lemma {:induction false} GroupsFirstSeen(rows: seq<Row>, columns: seq<string>)
    ensures FirstSeen(Signatures(rows, columns), Grouped(rows, columns).order)
    ensures forall s: Signature :: s in Grouped(rows, columns).order <==> s in Signatures(rows, columns)
  {
    hide SignatureOf;
    if rows != [] {
      var rest, last := rows[..|rows| - 1], SignatureOf(rows[|rows| - 1], columns);
      GroupsFirstSeen(rest, columns);
      LaterSeen(Signatures(rest, columns), Grouped(rest, columns).order, last);
      assert Grouped(rest, columns).Sound();
      hide FirstSeen;
    }
  }

  /** The rows of the samples under one signature. */
  function Under(samples: seq<RowSample>, s: Signature): seq<Row> {
    if samples == [] then []
    else
      var last := samples[|samples| - 1];
      Under(samples[..|samples| - 1], s) + if last.signature == s then [last.row] else []
  }

  lemma {:induction false} UnderTwo(a: seq<RowSample>, b: seq<RowSample>, s: Signature)
    ensures Under(a + b, s) == Under(a, s) + Under(b, s)
  {
    if b == [] {
      assert a + b == a;
    } else {
      assert (a + b)[..|a + b| - 1] == a + b[..|b| - 1];
      UnderTwo(a, b[..|b| - 1], s);
    }
  }

  lemma {:induction false} UnderLabel(tag: Signature, rows: seq<Row>, s: Signature)
    ensures Under(Labelled(tag, rows), s) == if s == tag then rows else []
  {
    if rows != [] {
      UnderLabel(tag, rows[..|rows| - 1], s);
      var rest := Labelled(tag, rows[..|rows| - 1]);
      assert Labelled(tag, rows)[..|rest|] == rest;
      assert rows == rows[..|rows| - 1] + [rows[|rows| - 1]];
    }
  }

  lemma {:induction false} UnderSurplus(
    order: seq<Signature>, groups: map<Signature, seq<Row>>, other: map<Signature, seq<Row>>, s: Signature)
    requires forall signature <- order :: signature in groups
    requires forall i, j :: 0 <= i < j < |order| ==> order[i] != order[j]
    ensures Under(Surplus(order, groups, other), s) == if s in order then Beyond(groups[s], Count(other, s)) else []
  {
    if order != [] {
      var rest, last := order[..|order| - 1], order[|order| - 1];
      UnderSurplus(rest, groups, other, s);
      var rows := Beyond(groups[last], Count(other, last));
      UnderTwo(Surplus(rest, groups, other), Labelled(last, rows), s);
      UnderLabel(last, rows, s);
      LastApart(order, s);
      hide Under, Labelled, Beyond, Count;
    }
  }

  lemma {:induction false} UnderAgrees(samples: seq<RowSample>, row: Row, columns: seq<string>)
    requires forall sample <- samples :: sample.signature == SignatureOf(sample.row, columns)
    ensures Under(samples, SignatureOf(row, columns)) == Agreeing(RowsOf(samples), row, columns)
  {
    if samples != [] {
      var rest, last := samples[..|samples| - 1], samples[|samples| - 1];
      assert samples == rest + [last];
      UnderAgrees(rest, row, columns);
      SignaturesTell(last.row, row, columns);
      assert RowsOf(samples)[..|rest|] == RowsOf(rest);
      hide SignatureOf, Agree;
    }
  }

  lemma {:induction false} LabelledAre(tag: Signature, rows: seq<Row>)
    ensures forall sample <- Labelled(tag, rows) :: sample.signature == tag
  {
    if rows != [] { LabelledAre(tag, rows[..|rows| - 1]); }
  }

  lemma InOrderMore(signatures: seq<Signature>, a: seq<RowSample>, b: seq<RowSample>, last: Signature)
    requires InOrder(signatures, a) && forall sample <- b :: sample.signature == last
    requires forall sample <- a :: Precedes(signatures, sample.signature, last)
    ensures InOrder(signatures, a + b)
  {
    hide Precedes;
  }

  lemma {:induction false} SurplusListed(
    order: seq<Signature>, groups: map<Signature, seq<Row>>, other: map<Signature, seq<Row>>)
    requires forall signature <- order :: signature in groups
    ensures forall sample <- Surplus(order, groups, other) :: sample.signature in order
  {
    if order != [] {
      var rest, last := order[..|order| - 1], order[|order| - 1];
      SurplusListed(rest, groups, other);
      LabelledAre(last, Beyond(groups[last], Count(other, last)));
      assert order == rest + [last];
      hide Labelled, Beyond;
    }
  }

  lemma LastPreceded(signatures: seq<Signature>, order: seq<Signature>, s: Signature)
    requires order != [] && FirstSeen(signatures, order) && s in order[..|order| - 1]
    ensures Precedes(signatures, s, order[|order| - 1])
  {
    var a :| 0 <= a < |order| - 1 && order[a] == s;
  }

  lemma FirstSeenFront(signatures: seq<Signature>, order: seq<Signature>)
    requires order != [] && FirstSeen(signatures, order)
    ensures FirstSeen(signatures, order[..|order| - 1])
  {
    hide Precedes;
  }

  lemma {:induction false} SurplusInOrder(
    signatures: seq<Signature>, order: seq<Signature>, groups: map<Signature, seq<Row>>,
    other: map<Signature, seq<Row>>)
    requires FirstSeen(signatures, order) && forall signature <- order :: signature in groups
    ensures InOrder(signatures, Surplus(order, groups, other))
  {
    if order != [] {
      hide FirstSeen, Precedes, InOrder, Labelled, Beyond;
      var rest, last := order[..|order| - 1], order[|order| - 1];
      FirstSeenFront(signatures, order);
      SurplusInOrder(signatures, rest, groups, other);
      SurplusListed(rest, groups, other);
      var before, rows := Surplus(rest, groups, other), Beyond(groups[last], Count(other, last));
      LabelledAre(last, rows);
      forall sample | sample in before
        ensures Precedes(signatures, sample.signature, last)
      {
        LastPreceded(signatures, order, sample.signature);
      }
      InOrderMore(signatures, before, Labelled(last, rows), last);
    }
  }

  lemma SurplusAgrees(rows: seq<Row>, other: seq<Row>, columns: seq<string>, samples: seq<RowSample>, row: Row)
    requires samples
          == Surplus(Grouped(rows, columns).order, Grouped(rows, columns).entries, Grouped(other, columns).entries)
    requires forall sample <- samples :: sample.signature == SignatureOf(sample.row, columns)
    ensures Agreeing(RowsOf(samples), row, columns)
         == Beyond(Agreeing(rows, row, columns), |Agreeing(other, row, columns)|)
  {
    hide Under, SignatureOf, Surplus, Grouped, Picks;
    var s, mine, theirs := SignatureOf(row, columns), Grouped(rows, columns), Grouped(other, columns);
    UnderSurplus(mine.order, mine.entries, theirs.entries, s);
    UnderAgrees(samples, row, columns);
    GroupsAgree(rows, row, columns);
    GroupsAgree(other, row, columns);
    hide Agreeing, RowsOf;
  }

  lemma SurplusIs(rows: seq<Row>, other: seq<Row>, columns: seq<string>)
    ensures
      var mine, theirs := Grouped(rows, columns), Grouped(other, columns);
      IsSurplus(rows, other, columns, Surplus(mine.order, mine.entries, theirs.entries))
  {
    hide *;
    var mine, theirs := Grouped(rows, columns), Grouped(other, columns);
    SurplusKeepsOrder(rows, other, columns);
    GroupsListed(mine);
    var samples := Surplus(mine.order, mine.entries, theirs.entries);
    forall row: Row
      ensures Agreeing(RowsOf(samples), row, columns)
           == Beyond(Agreeing(rows, row, columns), |Agreeing(other, row, columns)|)
    {
      SurplusAgrees(rows, other, columns, samples, row);
    }
    assert IsSurplus(rows, other, columns, samples) by { SurplusMeans(rows, other, columns, samples); }
  }

  lemma GroupsListed(m: OrderedMap<Signature, seq<Row>>)
    requires m.Sound()
    ensures forall signature <- m.order :: signature in m.entries
  {
  }

  lemma SurplusMeans(rows: seq<Row>, other: seq<Row>, columns: seq<string>, samples: seq<RowSample>)
    requires forall sample <- samples :: sample.signature == SignatureOf(sample.row, columns)
    requires InOrder(Signatures(rows, columns), samples)
    requires forall row: Row ::
      Agreeing(RowsOf(samples), row, columns) == Beyond(Agreeing(rows, row, columns), |Agreeing(other, row, columns)|)
    ensures IsSurplus(rows, other, columns, samples)
  {
    hide InOrder, Signatures, SignatureOf, Picks;
  }

  lemma SurplusKeepsOrder(rows: seq<Row>, other: seq<Row>, columns: seq<string>)
    ensures
      var mine, theirs := Grouped(rows, columns), Grouped(other, columns);
      var samples := Surplus(mine.order, mine.entries, theirs.entries);
      && InOrder(Signatures(rows, columns), samples)
      && forall sample <- samples :: sample.signature == SignatureOf(sample.row, columns)
  {
    hide Signatures, SignatureOf, Surplus, InOrder, FirstSeen;
    var mine, theirs := Grouped(rows, columns), Grouped(other, columns);
    FullRowSamplesAreRows(rows, other, columns);
    GroupsFirstSeen(rows, columns);
    SurplusInOrder(Signatures(rows, columns), mine.order, mine.entries, theirs.entries);
    hide Grouped;
  }

  /**
   * The differences of two tables without a shared key: nothing is updated, and of the rows that agree as many are
   * inserted or deleted as one side has beyond the other, which turns the target into the source.
   */
  ghost predicate FullRowDifferences(
    sourceRows: seq<Row>, targetRows: seq<Row>, columns: seq<string>, diff: Details)
  {
    var inserts, deletes := multiset(SampleSignatures(diff.inserts)), multiset(SampleSignatures(diff.deletes));
    var source, target := multiset(Signatures(sourceRows, columns)), multiset(Signatures(targetRows, columns));
    && diff.updates == []
    && IsSurplus(sourceRows, targetRows, columns, diff.inserts)
    && IsSurplus(targetRows, sourceRows, columns, diff.deletes)
    && deletes <= target && target - deletes + inserts == source
  }

  lemma GroupedAreDifferences(sourceRows: seq<Row>, targetRows: seq<Row>, columns: seq<string>)
    ensures FullRowDifferences(
              sourceRows, targetRows, columns, FullRowDiff(Grouped(sourceRows, columns), Grouped(targetRows, columns)))
  {
    SurplusIs(sourceRows, targetRows, columns);
    SurplusIs(targetRows, sourceRows, columns);
    FullRowPatchGivesSource(sourceRows, targetRows, columns);
    hide IsSurplus, Surplus, Grouped, Signatures, SampleSignatures;
  }

  // ---- One table ----

  /** The first of all differences, up to a limit of each kind. */
  ghost predicate FirstOf(sample: Details, all: Details, limit: nat) {
    && sample.inserts <= all.inserts && (|sample.inserts| == limit || sample.inserts == all.inserts)
    && sample.updates <= all.updates && (|sample.updates| == limit || sample.updates == all.updates)
    && sample.deletes <= all.deletes && (|sample.deletes| == limit || sample.deletes == all.deletes)
    && |sample.inserts| <= limit && |sample.updates| <= limit && |sample.deletes| <= limit
  }

  /** What the result says of the columns of both tables. */
  ghost predicate ColumnsToldRight(source: seq<Field>, target: seq<Field>, result: TableResult) {
    && (result.keyed <==> ShareKey(source, target))
    && (result.keyed ==> Picks(NamesOf(source), KeyMarks(source), result.key_columns))
    && (!result.keyed ==> result.key_columns == [])
    && Picks(NamesOf(source), Among(NamesOf(source), NamesOf(target), true), result.compared_columns)
    && Picks(NamesOf(source), Among(NamesOf(source), NamesOf(target), false), result.target_lacks)
    && Picks(NamesOf(target), Among(NamesOf(target), NamesOf(source), false), result.source_lacks)
  }

  method CompareSingleTable(
    source: seq<Field>, target: seq<Field>, sourceRows: seq<Row>, targetRows: seq<Row>, previewLimit: Option<int>)
    returns (result: TableResult, all: Details)
    ensures ColumnsToldRight(source, target, result)
    ensures result.keyed ==>
      var keys, columns := result.key_columns, result.compared_columns;
      var sourceTable, targetTable := Keyed(sourceRows, keys), Keyed(targetRows, keys);
      && ByKey(sourceRows, keys, sourceTable) && ByKey(targetRows, keys, targetTable)
      && KeyedDifferences(sourceTable.entries, targetTable.entries, columns, keys, all)
      && InOrder(Signatures(sourceRows, keys), all.inserts) && InOrder(Signatures(targetRows, keys), all.deletes)
      && UpdatesInOrder(Signatures(sourceRows, keys), all.updates)
    ensures !result.keyed ==>
      var columns := if result.compared_columns != [] then result.compared_columns else NamesOf(source);
      FullRowDifferences(sourceRows, targetRows, columns, all)
    ensures result.insert_count == |all.inserts| && result.update_count == |all.updates|
    ensures result.delete_count == |all.deletes| && FirstOf(result.samples, all, PreviewLimit(previewLimit))
  {
    hide KeysOf, Join, Common, Lacking, ShareKey, Picks, KeyedDiff, FullRowDiff, Keyed, ByKey, KeyedDifferences,
      FullRowDifferences, InOrder, UpdatesInOrder, Signatures, Grouped;
    var keys, columns := KeysOf(source), Common(NamesOf(source), NamesOf(target));
    var keyed := keys != [] && Join(keys, ",") == Join(KeysOf(target), ",");
    var samples;
    ColumnsArePicked(source, target);
    if keyed {
      all, samples := CompareKeyed(sourceRows, targetRows, columns, keys, PreviewLimit(previewLimit));
      KeyedIsRight(sourceRows, targetRows, columns, keys);
    } else {
      keys := [];
      var signatureColumns := if columns != [] then columns else NamesOf(source);
      all, samples := CompareFullRow(sourceRows, targetRows, signatureColumns, PreviewLimit(previewLimit));
      GroupedAreDifferences(sourceRows, targetRows, signatureColumns);
    }
    result := TableResult(
      keys, columns, keyed, Lacking(NamesOf(source), NamesOf(target)), Lacking(NamesOf(target), NamesOf(source)),
      |all.inserts|, |all.updates|, |all.deletes|, samples);
  }

  lemma ColumnsArePicked(source: seq<Field>, target: seq<Field>)
    ensures
      var mine, theirs, keys := NamesOf(source), NamesOf(target), KeysOf(source);
      && (keys != [] && Join(keys, ",") == Join(KeysOf(target), ",") <==> ShareKey(source, target))
      && Picks(mine, KeyMarks(source), keys)
      && Picks(mine, Among(mine, theirs, true), Common(mine, theirs))
      && Picks(mine, Among(mine, theirs, false), Lacking(mine, theirs))
      && Picks(theirs, Among(theirs, mine, false), Lacking(theirs, mine))
  {
    hide *;
    KeysAreShared(source, target);
    KeysArePicked(source);
    NamesArePicked(NamesOf(source), NamesOf(target));
    NamesArePicked(NamesOf(target), NamesOf(source));
  }

  lemma KeyedIsRight(sourceRows: seq<Row>, targetRows: seq<Row>, columns: seq<string>, keys: seq<string>)
    requires keys != []
    ensures
      var source, target := Keyed(sourceRows, keys), Keyed(targetRows, keys);
      var diff := KeyedDiff(source, target, columns, keys);
      && ByKey(sourceRows, keys, source) && ByKey(targetRows, keys, target)
      && KeyedDifferences(source.entries, target.entries, columns, keys, diff)
      && InOrder(Signatures(sourceRows, keys), diff.inserts) && InOrder(Signatures(targetRows, keys), diff.deletes)
      && UpdatesInOrder(Signatures(sourceRows, keys), diff.updates)
  {
    hide KeyedDifferences, Keyed, Signatures, Missing, Updates, InOrder, FirstSeen, UpdatesInOrder;
    var source, target := Keyed(sourceRows, keys), Keyed(targetRows, keys);
    KeyedIsByKey(sourceRows, keys);
    KeyedIsByKey(targetRows, keys);
    KeyedAreDifferences(source, target, columns, keys);
    MissingInOrder(Signatures(sourceRows, keys), source.order, source.entries, target.entries);
    MissingInOrder(Signatures(targetRows, keys), target.order, target.entries, source.entries);
    UpdatesKeepOrder(Signatures(sourceRows, keys), source.order, source.entries, target.entries, columns, keys);
  }
}
