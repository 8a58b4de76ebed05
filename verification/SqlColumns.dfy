/** Projections built from their items: the columns that the analyser has to find in them. */
module SqlColumns {
  import opened OrderedMaps
  import opened Selections
  import opened SqlAnalysis
  import opened SqlGroups
  import opened SqlNames
  import opened SqlSources
  import opened SqlTokens
  import opened Text

  // ---- Relations under their names and aliases ----

  predicate Aliased(relation: Relation) { relation.alias.Some? && relation.alias.value != "" }

  /** Whether a relation goes by a name in small letters. */
  predicate GoesBy(relation: Relation, key: string) {
    Lower(relation.name) == key || (Aliased(relation) && Lower(relation.alias.value) == key)
  }

  /** All names and aliases in the order of the relations. */
  function AllKeys(relations: seq<Relation>): seq<string> {
    if relations == [] then []
    else
      var last := relations[|relations| - 1];
      var keys := AllKeys(relations[..|relations| - 1]) + [Lower(last.name)];
      if Aliased(last) then keys + [Lower(last.alias.value)] else keys
  }

  function FirstMarks<T(==)>(items: seq<T>): (marks: seq<bool>)
    ensures |marks| == |items| && forall i :: 0 <= i < |items| ==> marks[i] == (items[i] !in items[..i])
  {
    seq(|items|, i requires 0 <= i < |items| => items[i] !in items[..i])
  }

  /** The last relation that goes by a name. */
  ghost predicate LastBy(relations: seq<Relation>, key: string, relation: Relation) {
    exists i :: 0 <= i < |relations| && relations[i] == relation && GoesBy(relation, key)
                && forall j :: i < j < |relations| ==> !GoesBy(relations[j], key)
  }

  /** Every name and alias once, where it first comes up, with the last relation that goes by it. */
  ghost predicate Known(relations: seq<Relation>, keys: seq<string>, named: seq<Relation>) {
    && Picks(AllKeys(relations), FirstMarks(AllKeys(relations)), keys)
    && |named| == |keys| && forall i :: 0 <= i < |keys| ==> LastBy(relations, keys[i], named[i])
  }

  lemma FirstMarksGrow<T>(items: seq<T>, item: T)
    ensures FirstMarks(items + [item]) == FirstMarks(items) + [item !in items]
  {
    var all := items + [item];
    assert forall i :: 0 <= i < |items| ==> all[..i] == items[..i];
    assert all[..|items|] == items;
  }

  lemma PutKeepsFirst<V>(items: seq<string>, m: OrderedMap<string, V>, key: string, value: V)
    requires Picks(items, FirstMarks(items), m.order) && forall k: string :: k in items <==> k in m.entries
    ensures Picks(items + [key], FirstMarks(items + [key]), m.Put(key, value).order)
    ensures forall k: string :: k in items + [key] <==> k in m.Put(key, value).entries
  {
    FirstMarksGrow(items, key);
    PicksLast(items, FirstMarks(items), m.order, key, key !in items);
    hide Picks, FirstMarks;
  }

  lemma {:induction false} MapKeys(relations: seq<Relation>)
    ensures
      var m := RelationMap(relations);
      && Picks(AllKeys(relations), FirstMarks(AllKeys(relations)), m.order)
      && forall k: string :: k in AllKeys(relations) <==> k in m.entries
  {
    hide Picks, FirstMarks, Lower;
    if relations == [] {
      PicksNone<string>();
      assert FirstMarks<string>([]) == [];
    } else {
      var rest, last := relations[..|relations| - 1], relations[|relations| - 1];
      MapKeys(rest);
      PutKeepsFirst(AllKeys(rest), RelationMap(rest), Lower(last.name), last);
      if Aliased(last) {
        PutKeepsFirst(AllKeys(rest) + [Lower(last.name)], RelationMap(rest).Put(Lower(last.name), last),
          Lower(last.alias.value), last);
      }
    }
  }

  lemma LastStaysBy(relations: seq<Relation>, key: string, relation: Relation, last: Relation)
    requires LastBy(relations, key, relation) && !GoesBy(last, key)
    ensures LastBy(relations + [last], key, relation)
  {
    hide GoesBy;
    var i :| 0 <= i < |relations| && relations[i] == relation && GoesBy(relation, key)
             && forall j :: i < j < |relations| ==> !GoesBy(relations[j], key);
    assert (relations + [last])[i] == relation;
  }

  lemma {:induction false} MapValues(relations: seq<Relation>, key: string)
    requires key in RelationMap(relations).entries
    ensures LastBy(relations, key, RelationMap(relations).entries[key])
  {
    hide Lower;
    var n := |relations| - 1;
    var last := relations[n];
    assert relations == relations[..n] + [last];
    if !GoesBy(last, key) {
      MapValues(relations[..n], key);
      LastStaysBy(relations[..n], key, RelationMap(relations[..n]).entries[key], last);
    }
  }

  /** The relations in the order of their keys. */
  function Listed(order: seq<string>, entries: map<string, Relation>): (named: seq<Relation>)
    requires forall key <- order :: key in entries
    ensures |named| == |order| && forall i :: 0 <= i < |order| ==> named[i] == entries[order[i]]
  {
    seq(|order|, i requires 0 <= i < |order| => entries[order[i]])
  }

  lemma OrderIsKnown(relations: seq<Relation>)
    ensures forall key <- RelationMap(relations).order :: key in RelationMap(relations).entries
  {
    MapKeys(relations);
    var m, all := RelationMap(relations), AllKeys(relations);
    forall key | key in m.order
      ensures key in m.entries
    {
      PickedIsThere(all, FirstMarks(all), m.order, key);
    }
  }

  lemma PickedIsThere<T>(items: seq<T>, marks: seq<bool>, picked: seq<T>, item: T)
    requires Picks(items, marks, picked) && item in picked
    ensures item in items
  {
  }

  lemma MapIsKnown(relations: seq<Relation>)
    ensures
      var m := RelationMap(relations);
      && (forall key <- m.order :: key in m.entries)
      && Known(relations, m.order, Listed(m.order, m.entries))
  {
    hide Picks, FirstMarks, LastBy, RelationMap;
    MapKeys(relations);
    OrderIsKnown(relations);
    var m := RelationMap(relations);
    forall i | 0 <= i < |m.order|
      ensures LastBy(relations, m.order[i], m.entries[m.order[i]])
    {
      MapValues(relations, m.order[i]);
    }
  }

  lemma {:induction false} LastByIsOne(relations: seq<Relation>, key: string, a: Relation, b: Relation)
    requires LastBy(relations, key, a) && LastBy(relations, key, b)
    ensures a == b
  {
    hide GoesBy;
  }

  /** What is known is determined by the relations. */
  lemma KnownOnce(relations: seq<Relation>, keys: seq<string>, named: seq<Relation>)
    requires Known(relations, keys, named)
    ensures
      var m := RelationMap(relations);
      && keys == m.order && (forall key <- m.order :: key in m.entries) && named == Listed(m.order, m.entries)
  {
    hide Picks, FirstMarks, LastBy, RelationMap, AllKeys;
    MapIsKnown(relations);
    var m := RelationMap(relations);
    PicksOnce(AllKeys(relations), FirstMarks(AllKeys(relations)), keys, m.order);
    forall i | 0 <= i < |keys|
      ensures named[i] == m.entries[m.order[i]]
    {
      LastByIsOne(relations, keys[i], named[i], m.entries[m.order[i]]);
    }
  }

  // ---- Columns that are given, and what becomes of them ----

  /** A column that an item gives; one that overrides takes the place of an earlier one of its name. */
  datatype Given = Given(column: Column, overrides: bool)

  function KeysOf(given: seq<Given>): (keys: seq<string>)
    ensures |keys| == |given| && forall i :: 0 <= i < |given| ==> keys[i] == Lower(given[i].column.name)
  {
    seq(|given|, i requires 0 <= i < |given| => Lower(given[i].column.name))
  }

  /** The column that stands for a name in the end: the last one that overrides, or else the first. */
  ghost predicate Decides(given: seq<Given>, i: int, key: string) {
    && 0 <= i < |given| && KeysOf(given)[i] == key && (given[i].overrides || key !in KeysOf(given)[..i])
    && forall j :: i < j < |given| && KeysOf(given)[j] == key ==> !given[j].overrides
  }

  /** Each name once, where it first comes up, with the column that stands for it in the end. */
  ghost predicate Merges(given: seq<Given>, columns: seq<Column>) {
    exists keys: seq<string> ::
      && Picks(KeysOf(given), FirstMarks(KeysOf(given)), keys) && |columns| == |keys|
      && forall p :: 0 <= p < |keys| ==> exists i :: Decides(given, i, keys[p]) && columns[p] == given[i].column
  }

  ghost predicate Holds(m: OrderedMap<string, Column>, given: seq<Given>) {
    && Picks(KeysOf(given), FirstMarks(KeysOf(given)), m.order)
    && (forall k: string :: k in KeysOf(given) <==> k in m.entries)
    && forall k <- m.entries :: exists i :: Decides(given, i, k) && m.entries[k] == given[i].column
  }

  lemma KeysGrow(given: seq<Given>, g: Given)
    ensures KeysOf(given + [g]) == KeysOf(given) + [Lower(g.column.name)]
  {
    hide Lower;
  }

  lemma DecidesStill(given: seq<Given>, i: int, key: string, g: Given)
    requires Decides(given, i, key) && (Lower(g.column.name) == key ==> !g.overrides)
    ensures Decides(given + [g], i, key)
  {
    hide Lower;
    KeysGrow(given, g);
    assert KeysOf(given + [g])[..i] == KeysOf(given)[..i];
  }

  lemma DecidesNow(given: seq<Given>, g: Given)
    requires g.overrides || Lower(g.column.name) !in KeysOf(given)
    ensures Decides(given + [g], |given|, Lower(g.column.name))
  {
    hide Lower;
    KeysGrow(given, g);
    assert KeysOf(given + [g])[..|given|] == KeysOf(given);
  }

  lemma Adds(m: OrderedMap<string, Column>, given: seq<Given>, g: Given)
    requires Holds(m, given)
    ensures
      var key := Lower(g.column.name);
      Holds(if !g.overrides && key in m.entries then m else m.Put(key, g.column), given + [g])
  {
    hide Picks, FirstMarks, Lower, Decides, KeysOf;
    var key := Lower(g.column.name);
    var now := if !g.overrides && key in m.entries then m else m.Put(key, g.column);
    KeysGrow(given, g);
    PutKeepsFirst(KeysOf(given), m, key, g.column);
    forall k | k in now.entries
      ensures Decided(given + [g], k, now.entries[k])
    {
      if k == key && (g.overrides || key !in m.entries) {
        NowDecided(given, g);
      } else {
        StaysDecided(given, k, m.entries[k], g);
      }
    }
    DecidedHolds(now, given + [g]);
  }

  ghost predicate Decided(given: seq<Given>, key: string, column: Column) {
    exists i :: Decides(given, i, key) && column == given[i].column
  }

  lemma DecidedHolds(m: OrderedMap<string, Column>, given: seq<Given>)
    requires Picks(KeysOf(given), FirstMarks(KeysOf(given)), m.order)
    requires forall k: string :: k in KeysOf(given) <==> k in m.entries
    requires forall k <- m.entries :: Decided(given, k, m.entries[k])
    ensures Holds(m, given)
  {
    hide Picks, FirstMarks, Decides, KeysOf;
  }

  lemma NowDecided(given: seq<Given>, g: Given)
    requires g.overrides || Lower(g.column.name) !in KeysOf(given)
    ensures Decided(given + [g], Lower(g.column.name), g.column)
  {
    hide Lower, Decides;
    DecidesNow(given, g);
    assert (given + [g])[|given|] == g;
  }

  lemma StaysDecided(given: seq<Given>, key: string, column: Column, g: Given)
    requires exists i :: Decides(given, i, key) && column == given[i].column
    requires Lower(g.column.name) == key ==> !g.overrides
    ensures Decided(given + [g], key, column)
  {
    hide Lower;
    var i :| 0 <= i < |given| && Decides(given, i, key) && column == given[i].column;
    hide Decides;
    DecidesStill(given, i, key, g);
    assert (given + [g])[i] == given[i];
  }

  function NewOnes(columns: seq<Column>): (given: seq<Given>)
    ensures |given| == |columns| && forall i :: 0 <= i < |columns| ==> given[i] == Given(columns[i], false)
  {
    seq(|columns|, i requires 0 <= i < |columns| => Given(columns[i], false))
  }

  lemma {:induction false} NewAreAdded(m: OrderedMap<string, Column>, given: seq<Given>, more: seq<Column>)
    requires Holds(m, given)
    ensures Holds(WithNew(m, more), given + NewOnes(more))
    decreases |more|
  {
    hide Holds, Lower;
    if more == [] {
      assert given + NewOnes(more) == given;
    } else {
      var g := Given(more[0], false);
      Adds(m, given, g);
      var key := Lower(more[0].name);
      NewAreAdded(if key in m.entries then m else m.Put(key, more[0]), given + [g], more[1..]);
      assert given + [g] + NewOnes(more[1..]) == given + NewOnes(more);
    }
  }

  // ---- The items of a projection ----

  /** `*`, `path.*`, a path to a column or to none, an expression with an alias, one with a last name but no alias. */
  datatype Item =
    | StarItem
    | RelationStar(path: seq<SqlToken>, relation: Relation)
    | PathItem(path: seq<SqlToken>, column: Column)
    | UnknownPath(path: seq<SqlToken>)
    | AliasItem(front: seq<SqlToken>, alias: AliasForm)
    | LastNameItem(front: seq<SqlToken>, name: SqlToken, back: seq<SqlToken>)

  const StarMark := SqlToken(PunctuationToken, "*")

  function ItemTokens(item: Item): seq<SqlToken> {
    match item
    case StarItem => [StarMark]
    case RelationStar(path, _) => DottedTokens(path) + [Dot, StarMark]
    case PathItem(path, _) => DottedTokens(path)
    case UnknownPath(path) => DottedTokens(path)
    case AliasItem(front, alias) => front + AliasTokens(alias)
    case LastNameItem(front, name, back) => front + [name] + back
  }

  ghost predicate FirstNamed(columns: seq<Column>, name: string, column: Column) {
    exists i :: 0 <= i < |columns| && columns[i] == column && column.name == name
                && forall j :: 0 <= j < i ==> columns[j].name != name
  }

  ghost predicate KnownAs(keys: seq<string>, named: seq<Relation>, name: string, relation: Relation)
    requires |named| == |keys|
  {
    exists i :: 0 <= i < |keys| && keys[i] == Lower(name) && named[i] == relation
  }

  /** Of all known relations that have a column of this name, the first one, and of its columns the first one. */
  ghost predicate FirstOfAny(named: seq<Relation>, name: string, column: Column) {
    exists i :: 0 <= i < |named| && FirstNamed(named[i].columns, name, column)
                && forall j :: 0 <= j < i ==> forall c <- named[j].columns :: c.name != name
  }

  ghost predicate AreNames(path: seq<SqlToken>) { path != [] && forall token <- path :: IsName(token) }

  /** What the item says can be found, and it is no other kind of item. */
  ghost predicate FineItem(item: Item, keys: seq<string>, named: seq<Relation>)
    requires |named| == |keys|
  {
    match item
    case StarItem => true
    case RelationStar(path, relation) =>
      AreNames(path) && relation.columns != [] &&
      var name := NameOf(path[|path| - 1]);
      name != "" && KnownAs(keys, named, name, relation)
    case PathItem(path, column) =>
      var n := |path|;
      && AreNames(path)
      && (n == 1 ==> FirstOfAny(named, NameOf(path[0]), column))
      && (n > 1 ==> exists relation <- named ::
                      KnownAs(keys, named, NameOf(path[n - 2]), relation)
                      && FirstNamed(relation.columns, NameOf(path[n - 1]), column))
    case UnknownPath(path) =>
      var n := |path|;
      && AreNames(path)
      && (n == 1 ==> forall relation <- named, c <- relation.columns :: c.name != NameOf(path[0]))
      && (n > 1 ==> forall relation ::
            KnownAs(keys, named, NameOf(path[n - 2]), relation) ==>
              forall c <- relation.columns :: c.name != NameOf(path[n - 1]))
    case LastNameItem(front, name, back) =>
      var item := front + [name] + back;
      && IsName(name) && (forall token <- back :: !Named(token)) && NoWhole(item)
      && (back == [] ==> front != [] && front[|front| - 1].text == ".")
      && (forall k :: 0 <= k < |item| ==> !(TextAt(item, k, ".") && TextAt(item, k + 1, "*")))
      && (forall k :: 0 <= k < |item| && item[k].Normalized() == "as" ==> !IsIdentifierAt(item, k + 1))
    case AliasItem(front, alias) =>
      && front != [] && (forall k :: 0 <= k < |front| ==> !(TextAt(front, k, ".") && TextAt(front, k + 1, "*")))
      && match alias
         case NoAlias => false
         case AsAlias(word, token) =>
           IsName(word) && word.Normalized() == "as" && IsName(token) && NameOf(token) != ""
         case PlainAlias(token) =>
           && IsName(token) && NameOf(token) != ""
           && front[|front| - 1].text != "." && front[|front| - 1].Normalized() != "as"
           && forall k :: 0 <= k < |front| && front[k].Normalized() == "as" ==> !IsIdentifierAt(front, k + 1)
  }

  /** Not a name and a dot in turn, up to a last name. */
  ghost predicate NoWhole(item: seq<SqlToken>) {
    |item| % 2 == 0 || exists k :: 0 <= k < |item| && (if k % 2 == 0 then !Named(item[k]) else item[k].text != ".")
  }

  function ColumnsOf(named: seq<Relation>): seq<Column> {
    if named == [] then [] else named[0].columns + ColumnsOf(named[1..])
  }

  /** All columns of all relations or of one, the column of a path, or a column under the alias. */
  function GivenBy(item: Item, named: seq<Relation>): seq<Given> {
    match item
    case StarItem => NewOnes(ColumnsOf(named))
    case RelationStar(_, relation) => NewOnes(relation.columns)
    case PathItem(_, column) => [Given(column, true)]
    case UnknownPath(path) =>
      if path == [] then [] else [Given(Column(NameOf(path[|path| - 1]), "projection"), true)]
    case LastNameItem(_, name, _) => [Given(Column(NameOf(name), "projection"), true)]
    case AliasItem(_, NoAlias) => []
    case AliasItem(_, PlainAlias(token)) => [Given(Column(NameOf(token), "projection"), true)]
    case AliasItem(_, AsAlias(_, token)) => [Given(Column(NameOf(token), "projection"), true)]
  }

  // ---- Looking columns up ----

  lemma {:induction false} NamedIsFirst(columns: seq<Column>, name: string, column: Column)
    requires FirstNamed(columns, name, column)
    ensures ColumnNamed(columns, name) == Some(column)
  {
    var i :| 0 <= i < |columns| && columns[i] == column && column.name == name
             && forall j :: 0 <= j < i ==> columns[j].name != name;
    if i > 0 {
      assert columns[0].name != name;
      assert columns[1..][i - 1] == column;
      NamedIsFirst(columns[1..], name, column);
    }
  }

  lemma {:induction false} NoneIsNamed(columns: seq<Column>, name: string)
    requires forall c <- columns :: c.name != name
    ensures ColumnNamed(columns, name) == None
  {
    if columns != [] { NoneIsNamed(columns[1..], name); }
  }

  lemma {:induction false} AnyIsFirst(
    order: seq<string>, entries: map<string, Relation>, named: seq<Relation>, name: string, column: Column)
    requires (forall key <- order :: key in entries) && named == Listed(order, entries)
    requires FirstOfAny(named, name, column)
    ensures ColumnInAny(order, entries, name) == Some(column)
  {
    var i :| 0 <= i < |named| && FirstNamed(named[i].columns, name, column)
             && forall j :: 0 <= j < i ==> forall c <- named[j].columns :: c.name != name;
    hide FirstNamed, ColumnNamed;
    assert order[0] in order;
    if i == 0 {
      NamedIsFirst(named[0].columns, name, column);
    } else {
      NoneIsNamed(named[0].columns, name);
      assert named[1..] == Listed(order[1..], entries);
      assert named[1..][i - 1] == named[i];
      assert forall j :: 0 <= j < i - 1 ==> named[1..][j] == named[j + 1];
      AnyIsFirst(order[1..], entries, named[1..], name, column);
    }
  }

  lemma {:induction false} AllAreColumns(order: seq<string>, entries: map<string, Relation>)
    requires forall key <- order :: key in entries
    ensures AllColumns(order, entries) == ColumnsOf(Listed(order, entries))
  {
    if order != [] {
      assert order[0] in order;
      AllAreColumns(order[1..], entries);
      assert Listed(order, entries)[1..] == Listed(order[1..], entries);
    }
  }

  // ---- One item ----

  lemma PathStopsAtStar(path: seq<SqlToken>, more: seq<SqlToken>)
    requires AreNames(path) && EndsPath(more)
    ensures
      var item := DottedTokens(path) + more;
      var found := QualifiedNameAt(item, 0);
      && found.Some? && found.value.next_index == |DottedTokens(path)|
      && |found.value.identifiers| == |path|
      && forall k :: 0 <= k < |path| ==> found.value.identifiers[k] == NameOf(path[k])
  {
    var item := DottedTokens(path) + more;
    assert item[0..] == item;
    var names := DottedAreRead(item, 0, path, more);
  }

  lemma {:induction false} NoAliasIn(item: seq<SqlToken>, end: nat)
    requires end <= |item|
    requires forall k :: 0 <= k < end && item[k].Normalized() == "as" ==> !IsIdentifierAt(item, k + 1)
    ensures AliasAfterAs(item, end) == None
  {
    hide SqlToken.Normalized;
    if end > 0 { NoAliasIn(item, end - 1); }
  }

  /** In a path every name is followed by a dot or nothing. */
  lemma {:induction false} PathPlace(path: seq<SqlToken>, k: nat)
    requires path != [] && k < 2 * |path| - 1
    ensures |DottedTokens(path)| == 2 * |path| - 1
    ensures DottedTokens(path)[k] == if k % 2 == 0 then path[k / 2] else Dot
  {
    if |path| > 1 {
      PathPlace(path[1..], if k >= 2 then k - 2 else 0);
      assert DottedTokens(path) == [path[0], Dot] + DottedTokens(path[1..]);
      hide DottedTokens;
      if k >= 2 { assert (k - 2) / 2 == k / 2 - 1 && path[1..][k / 2 - 1] == path[k / 2]; }
    }
  }

  lemma PathPlaces(path: seq<SqlToken>)
    requires AreNames(path)
    ensures var item := DottedTokens(path);
      && |item| == 2 * |path| - 1
      && (forall k :: 0 <= k < |item| ==> item[k] == if k % 2 == 0 then path[k / 2] else Dot)
  {
    PathPlace(path, 0);
    hide DottedTokens, IsName;
    var item := DottedTokens(path);
    forall k | 0 <= k < |item|
      ensures item[k] == if k % 2 == 0 then path[k / 2] else Dot
    {
      PathPlace(path, k);
    }
  }

  lemma DotIsNoName()
    ensures Dot.Normalized() != "as" && !Named(Dot)
  {
  }

  lemma PathHasNoAlias(path: seq<SqlToken>)
    requires AreNames(path)
    ensures ProjectionAlias(DottedTokens(path)) == None
  {
    hide Unquote, SqlToken.Normalized;
    PathPlaces(path);
    DotIsNoName();
    var item := DottedTokens(path);
    NoAliasIn(item, |item|);
  }

  ghost predicate Names(keys: seq<string>, named: seq<Relation>, relations: OrderedMap<string, Relation>) {
    && keys == relations.order && (forall key <- relations.order :: key in relations.entries)
    && named == Listed(relations.order, relations.entries) && forall key <- relations.entries :: key in relations.order
  }

  lemma {:induction false} MapListsAll(relations: seq<Relation>)
    ensures forall key <- RelationMap(relations).entries :: key in RelationMap(relations).order
  {
    hide Lower;
    if relations != [] { MapListsAll(relations[..|relations| - 1]); }
  }

  lemma KnownIsThere(
    keys: seq<string>, named: seq<Relation>, relations: OrderedMap<string, Relation>, name: string,
    relation: Relation)
    requires Names(keys, named, relations) && KnownAs(keys, named, name, relation)
    ensures Lower(name) in relations.entries && relations.entries[Lower(name)] == relation
  {
    hide Lower;
    var i :| 0 <= i < |keys| && keys[i] == Lower(name) && named[i] == relation;
    assert keys[i] in relations.order;
  }

  lemma PathResolves(
    path: seq<SqlToken>, column: Column, keys: seq<string>, named: seq<Relation>,
    relations: OrderedMap<string, Relation>)
    requires Names(keys, named, relations) && FineItem(PathItem(path, column), keys, named)
    ensures WildcardColumns(DottedTokens(path), relations) == []
    ensures InferredColumn(DottedTokens(path), relations) == Some(column)
  {
    hide Lower, Unquote, ProjectionAlias, KnownAs, FirstNamed, FirstOfAny, IsName, ResolvedColumn, WildcardColumns,
      DottedTokens;
    var n := |path|;
    PathIsLookedUp(path, relations);
    if n == 1 {
      AnyIsFirst(keys, relations.entries, named, NameOf(path[0]), column);
    } else {
      var relation :| relation in named && KnownAs(keys, named, NameOf(path[n - 2]), relation)
                      && FirstNamed(relation.columns, NameOf(path[n - 1]), column);
      KnownIsThere(keys, named, relations, NameOf(path[n - 2]), relation);
      NamedIsFirst(relation.columns, NameOf(path[n - 1]), column);
    }
  }

  lemma {:induction false} NamedInNone(
    order: seq<string>, entries: map<string, Relation>, named: seq<Relation>, name: string)
    requires (forall key <- order :: key in entries) && named == Listed(order, entries)
    requires forall relation <- named, c <- relation.columns :: c.name != name
    ensures ColumnInAny(order, entries, name) == None
  {
    hide ColumnNamed;
    if order != [] {
      assert order[0] in order && named[0] in named;
      NoneIsNamed(named[0].columns, name);
      assert named[1..] == Listed(order[1..], entries);
      NamedInNone(order[1..], entries, named[1..], name);
    }
  }

  lemma {:induction false} LastNamed(item: seq<SqlToken>, front: seq<SqlToken>, name: SqlToken, back: seq<SqlToken>)
    requires item == front + [name] + back && Named(name) && forall token <- back :: !Named(token)
    ensures LastIdentifier(item) == Some(NameOf(name))
    decreases |back|
  {
    hide Unquote;
    if back == [] {
      assert item[|item| - 1] == name;
    } else {
      var last := back[|back| - 1];
      assert last in back && item[|item| - 1] == last;
      assert item[..|item| - 1] == front + [name] + back[..|back| - 1];
      assert forall token <- back[..|back| - 1] :: token in back;
      LastNamed(item[..|item| - 1], front, name, back[..|back| - 1]);
    }
  }

  lemma {:induction false} DotsAlternate(tokens: seq<SqlToken>, i: nat, k: nat)
    requires i <= |tokens| && DottedFrom(tokens, i).next_index == |tokens| && i <= k < |tokens|
    ensures (|tokens| - i) % 2 == 0
    ensures if (k - i) % 2 == 0 then tokens[k].text == "." else Named(tokens[k])
    decreases |tokens| - i
  {
    hide Unquote;
    if i < |tokens| && tokens[i].text == "." && IsIdentifierAt(tokens, i + 1) {
      if i + 2 < |tokens| {
        DotsAlternate(tokens, i + 2, if k >= i + 2 then k else i + 2);
      }
    }
  }

  lemma NoWholeIsRead(item: seq<SqlToken>)
    requires item != [] && NoWhole(item)
    ensures QualifiedNameAt(item, 0).Some? ==> QualifiedNameAt(item, 0).value.next_index != |item|
  {
    hide Unquote;
    if QualifiedNameAt(item, 0).Some? && QualifiedNameAt(item, 0).value.next_index == |item| {
      if |item| > 1 { DotsAlternate(item, 1, 1); }
      var k :| 0 <= k < |item| && (if k % 2 == 0 then !Named(item[k]) else item[k].text != ".");
      assert k > 0;
      DotsAlternate(item, 1, k);
    }
  }

  lemma PathLastName(path: seq<SqlToken>)
    requires AreNames(path)
    ensures LastIdentifier(DottedTokens(path)) == Some(NameOf(path[|path| - 1]))
  {
    var name := path[|path| - 1];
    PathPlace(path, 2 * |path| - 2);
    assert name in path && (2 * |path| - 2) / 2 == |path| - 1;
    NamesAreNamed(name);
    hide DottedTokens, IsName, Unquote;
  }

  /** What a path resolves to: the first column of its name in any relation, or in the relation that it names. */
  lemma PathIsLookedUp(path: seq<SqlToken>, relations: OrderedMap<string, Relation>)
    requires AreNames(path)
    ensures WildcardColumns(DottedTokens(path), relations) == []
    ensures
      var n := |path|;
      ResolvedColumn(DottedTokens(path), relations)
      == if n == 1 then ColumnInAny(relations.order, relations.entries, NameOf(path[0]))
         else
           var key := Lower(NameOf(path[n - 2]));
           if key in relations.entries then ColumnNamed(relations.entries[key].columns, NameOf(path[n - 1])) else None
  {
    hide Lower, Unquote, QualifiedNameAt, IsName, AllColumns, ColumnInAny, ColumnNamed;
    var item := DottedTokens(path);
    PathPlaces(path);
    PathStopsAtStar(path, []);
    assert item + [] == item;
    assert path[0] in path;
    NamesAreNoStars(path[0]);
    hide DottedTokens;
  }

  lemma UnknownPathGives(
    path: seq<SqlToken>, keys: seq<string>, named: seq<Relation>, relations: OrderedMap<string, Relation>)
    requires Names(keys, named, relations) && FineItem(UnknownPath(path), keys, named)
    ensures path != [] && WildcardColumns(DottedTokens(path), relations) == []
    ensures InferredColumn(DottedTokens(path), relations) == Some(Column(NameOf(path[|path| - 1]), "projection"))
  {
    hide Lower, Unquote, ProjectionAlias, KnownAs, AllColumns, LastIdentifier, ResolvedColumn, DottedTokens,
      WildcardColumns;
    PathIsLookedUp(path, relations);
    PathHasNoAlias(path);
    PathLastName(path);
    if |path| == 1 {
      NamedInNone(keys, relations.entries, named, NameOf(path[0]));
    } else {
      UnknownColumn(path, keys, named, relations);
    }
  }

  lemma NamesAreNamed(token: SqlToken)
    requires IsName(token)
    ensures Named(token)
  {
  }

  lemma UnknownColumn(
    path: seq<SqlToken>, keys: seq<string>, named: seq<Relation>, relations: OrderedMap<string, Relation>)
    requires Names(keys, named, relations) && FineItem(UnknownPath(path), keys, named) && |path| > 1
    ensures
      var key, name := Lower(NameOf(path[|path| - 2])), NameOf(path[|path| - 1]);
      key in relations.entries ==> ColumnNamed(relations.entries[key].columns, name) == None
  {
    hide Lower, Unquote, IsName;
    var key, name := Lower(NameOf(path[|path| - 2])), NameOf(path[|path| - 1]);
    if key in relations.entries && key in relations.order {
      var i :| 0 <= i < |keys| && keys[i] == key;
      assert KnownAs(keys, named, NameOf(path[|path| - 2]), named[i]);
      NoneIsNamed(relations.entries[key].columns, name);
    }
  }

  lemma LastNameGives(
    front: seq<SqlToken>, name: SqlToken, back: seq<SqlToken>, keys: seq<string>, named: seq<Relation>,
    relations: OrderedMap<string, Relation>)
    requires |named| == |keys| && FineItem(LastNameItem(front, name, back), keys, named)
    ensures
      var item := front + [name] + back;
      && WildcardColumns(item, relations) == [] && ProjectionAlias(item) == None
      && InferredColumn(item, relations) == Some(Column(NameOf(name), "projection"))
  {
    hide Lower, Unquote, QualifiedNameAt, AllColumns, SqlToken.Normalized, ColumnInAny, ColumnNamed, LastIdentifier,
      NoWhole;
    var item := front + [name] + back;
    var n := |item|;
    NoAliasIn(item, n);
    NoWholeIsRead(item);
    LastNamed(item, front, name, back);
    if back == [] {
      assert item[n - 1] == name && item[n - 2] == front[|front| - 1];
    } else {
      assert item[n - 1] == back[|back| - 1] && back[|back| - 1] in back;
    }
    NamesAreNoStars(name);
  }

  lemma NamesAreNoStars(token: SqlToken)
    requires IsName(token)
    ensures token.text != "*"
  {
  }

  lemma StarGives(relations: OrderedMap<string, Relation>)
    requires forall key <- relations.order :: key in relations.entries
    ensures WildcardColumns([StarMark], relations) == ColumnsOf(Listed(relations.order, relations.entries))
    ensures InferredColumn([StarMark], relations) == None
  {
    AllAreColumns(relations.order, relations.entries);
    assert AliasAfterAs([StarMark], 1) == None by { StarIsNoAs(); assert AliasAfterAs([StarMark], 0) == None; }
    assert LastIdentifier([StarMark]) == None by { assert [StarMark][..0] == []; }
  }

  lemma StarIsNoAs()
    ensures StarMark.Normalized() != "as"
  {
  }

  lemma RelationStarGives(
    path: seq<SqlToken>, relation: Relation, keys: seq<string>, named: seq<Relation>,
    relations: OrderedMap<string, Relation>)
    requires Names(keys, named, relations) && FineItem(RelationStar(path, relation), keys, named)
    ensures WildcardColumns(DottedTokens(path) + [Dot, StarMark], relations) == relation.columns
  {
    hide Lower, Unquote, QualifiedNameAt, KnownAs, IsName, AllColumns, DottedTokens, Names;
    var item, n := DottedTokens(path) + [Dot, StarMark], |DottedTokens(path)|;
    PathPlaces(path);
    assert item[n] == Dot && item[n + 1] == StarMark && |item| > 1;
    PathStopsAtStar(path, [Dot, StarMark]);
    KnownIsThere(keys, named, relations, NameOf(path[|path| - 1]), relation);
  }

  /** What is read as a path ends before what cannot go on with it. */
  lemma {:induction false} DotsStand(tokens: seq<SqlToken>, i: nat)
    requires i <= |tokens|
    ensures
      var next := DottedFrom(tokens, i).next_index;
      next == |tokens| > i ==> next >= i + 2 && tokens[next - 2].text == "."
    decreases |tokens| - i
  {
    hide Unquote;
    if i < |tokens| && tokens[i].text == "." && IsIdentifierAt(tokens, i + 1) { DotsStand(tokens, i + 2); }
  }

  lemma NoWholePath(item: seq<SqlToken>)
    requires |item| >= 2 && item[|item| - 2].text != "."
    ensures QualifiedNameAt(item, 0).Some? ==> QualifiedNameAt(item, 0).value.next_index != |item|
  {
    hide Unquote;
    DotsStand(item, 1);
  }

  lemma AliasIsProjected(front: seq<SqlToken>, alias: AliasForm, keys: seq<string>, named: seq<Relation>)
    requires |named| == |keys| && FineItem(AliasItem(front, alias), keys, named)
    ensures ProjectionAlias(front + AliasTokens(alias)) == Some(NameOf(alias.token)) && NameOf(alias.token) != ""
    ensures
      var item := front + AliasTokens(alias);
      |item| >= 2 && item[|item| - 2].text != "." && (|item| == 2 ==> item[1].text != "*")
  {
    hide Unquote, Lower, SqlToken.Normalized;
    var item := front + AliasTokens(alias);
    var n := |item|;
    assert item[n - 1] == alias.token;
    if alias.AsAlias? {
      assert item[n - 2] == alias.word;
      assert AliasAfterAs(item, n - 1) == Some(NameOf(alias.token));
      NoAliasAtEnd(item);
    } else {
      assert item[n - 2] == front[n - 2];
      assert forall k :: 0 <= k < |front| ==> item[k] == front[k];
      forall k | 0 <= k < n - 1 && item[k].Normalized() == "as"
        ensures !IsIdentifierAt(item, k + 1)
      {
        assert front[k].Normalized() == "as";
        assert k + 1 < |front| || k == n - 2;
      }
      NoAliasIn(item, n - 1);
      NoAliasAtEnd(item);
    }
  }

  lemma NoAliasAtEnd(item: seq<SqlToken>)
    requires item != []
    ensures AliasAfterAs(item, |item|) == AliasAfterAs(item, |item| - 1)
  {
    hide Unquote, SqlToken.Normalized;
  }

  lemma AliasGives(
    front: seq<SqlToken>, alias: AliasForm, keys: seq<string>, named: seq<Relation>,
    relations: OrderedMap<string, Relation>)
    requires |named| == |keys| && FineItem(AliasItem(front, alias), keys, named)
    ensures WildcardColumns(front + AliasTokens(alias), relations) == []
    ensures InferredColumn(front + AliasTokens(alias), relations)
         == Some(Column(NameOf(alias.token), "projection"))
  {
    hide Unquote, Lower, QualifiedNameAt, ProjectionAlias, AllColumns, SqlToken.Normalized, ColumnInAny, ColumnNamed;
    var item := front + AliasTokens(alias);
    AliasIsProjected(front, alias, keys, named);
    NoWholePath(item);
    NoStarInside(front, alias, keys, named);
  }

  lemma NoStarInside(front: seq<SqlToken>, alias: AliasForm, keys: seq<string>, named: seq<Relation>)
    requires |named| == |keys| && FineItem(AliasItem(front, alias), keys, named)
    ensures var item := front + AliasTokens(alias);
      forall k :: 0 <= k < |item| ==> !(TextAt(item, k, ".") && TextAt(item, k + 1, "*"))
  {
    hide Unquote, Lower, SqlToken.Normalized;
    var item := front + AliasTokens(alias);
    forall k | 0 <= k < |item|
      ensures !(TextAt(item, k, ".") && TextAt(item, k + 1, "*"))
    {
      if k + 1 < |front| {
        assert item[k] == front[k] && item[k + 1] == front[k + 1];
        assert !(TextAt(front, k, ".") && TextAt(front, k + 1, "*"));
      } else if k + 1 < |item| {
        assert item[k + 1] == AliasTokens(alias)[k + 1 - |front|];
      }
    }
  }

  // ---- The whole projection ----

  /** Nothing in the tokens divides or ends a projection outside parentheses, which are all closed. */
  ghost predicate Closed(tokens: seq<SqlToken>) {
    && tokens != [] && Balanced(tokens) && Undivided(tokens, ",")
    && forall k :: 0 <= k < |tokens| && Excess(tokens, 0, k) == 0 ==> tokens[k].Normalized() != "from"
  }

  function ItemsTokens(items: seq<Item>): seq<SqlToken> {
    if items == [] then []
    else if |items| == 1 then ItemTokens(items[0])
    else ItemTokens(items[0]) + ([Comma] + ItemsTokens(items[1..]))
  }

  function TextsOf(items: seq<Item>): (texts: seq<seq<SqlToken>>)
    ensures |texts| == |items| && forall i :: 0 <= i < |items| ==> texts[i] == ItemTokens(items[i])
  {
    seq(|items|, i requires 0 <= i < |items| => ItemTokens(items[i]))
  }

  /** The columns that all items give, in order. */
  function AllGiven(items: seq<Item>, named: seq<Relation>): seq<Given> {
    if items == [] then []
    else AllGiven(items[..|items| - 1], named) + GivenBy(items[|items| - 1], named)
  }

  lemma {:induction false} DepthIsExcess(tokens: seq<SqlToken>, k: nat)
    requires Balanced(tokens) && k <= |tokens|
    ensures Depth(tokens, k) == Excess(tokens, 0, k)
  {
    if k > 0 {
      DepthIsExcess(tokens, k - 1);
      assert Excess(tokens, 0, k) >= 0;
    }
  }

  lemma {:induction false} GroupGoesOn(tokens: seq<SqlToken>, start: nat, item: seq<SqlToken>, k: nat)
    requires start + |item| <= |tokens| && tokens[start..start + |item|] == item && k <= |item|
    requires Undivided(item, ",") && Depth(tokens, start) == 0
    ensures GroupsFrom(tokens, start, start, ",") == GroupsFrom(tokens, start, start + k, ",")
  {
    if k > 0 {
      GroupGoesOn(tokens, start, item, k - 1);
      DepthOfSlice(tokens, start, start + |item|, k - 1);
      assert item[k - 1] == tokens[start + k - 1];
      assert !DelimitsAt(item, k - 1, ",");
    }
  }

  lemma DepthAfter(tokens: seq<SqlToken>, start: nat, item: seq<SqlToken>)
    requires start + |item| <= |tokens| && tokens[start..start + |item|] == item
    requires Balanced(item) && Depth(tokens, start) == 0
    ensures Depth(tokens, start + |item|) == 0
  {
    DepthOfSlice(tokens, start, start + |item|, |item|);
    DepthIsExcess(item, |item|);
    BalancedEnds(item);
  }

  lemma TextsGrow(items: seq<Item>)
    requires items != []
    ensures TextsOf(items) == [ItemTokens(items[0])] + TextsOf(items[1..])
  {
    hide ItemTokens;
  }

  lemma CommaBetween(a: seq<SqlToken>, b: seq<SqlToken>, rest: seq<SqlToken>)
    ensures a + ([Comma] + b) + rest == a + ([Comma] + (b + rest))
    ensures |a + ([Comma] + b)| == |a| + 1 + |b|
  {
  }

  lemma FirstTexts(items: seq<Item>, rest: seq<SqlToken>)
    requires items != []
    ensures ItemsTokens(items) + rest
         == ItemTokens(items[0]) + if |items| == 1 then rest else [Comma] + (ItemsTokens(items[1..]) + rest)
    ensures |ItemsTokens(items)| == |ItemTokens(items[0])| + if |items| == 1 then 0 else 1 + |ItemsTokens(items[1..])|
  {
    CommaBetween(ItemTokens(items[0]), ItemsTokens(items[1..]), rest);
    hide ItemTokens;
  }

  /** Items with commas between them are split into the items. */
  lemma {:induction false} ItemsAreSplit(tokens: seq<SqlToken>, start: nat, items: seq<Item>)
    requires items != [] && (forall item <- items :: Closed(ItemTokens(item)))
    requires start <= |tokens| && tokens[start..] == ItemsTokens(items) && Depth(tokens, start) == 0
    ensures GroupsFrom(tokens, start, start, ",") == TextsOf(items)
    decreases |items|
  {
    hide Closed, ItemTokens, Depth, GroupsFrom;
    assert items[0] in items;
    var first := ItemTokens(items[0]);
    FirstIsClosed(first);
    var next := start + |first|;
    if |items| == 1 {
      assert tokens[start..] == first + [];
      Stands(tokens, start, first, []);
      assert tokens[start..next] == first;
      GroupGoesOn(tokens, start, first, |first|);
      LastGroup(tokens, start);
      assert TextsOf(items) == [first];
    } else {
      TextsGrow(items);
      Stands(tokens, start, first, [Comma] + ItemsTokens(items[1..]));
      assert tokens[start..next] == first;
      GroupGoesOn(tokens, start, first, |first|);
      DepthAfter(tokens, start, first);
      assert tokens[next] == tokens[next..][0] == Comma;
      assert tokens[next + 1..] == tokens[next..][1..] == ItemsTokens(items[1..]);
      CommaDivides(tokens, start, next);
      assert forall item <- items[1..] :: item in items;
      ItemsAreSplit(tokens, next + 1, items[1..]);
    }
  }

  lemma FirstIsClosed(tokens: seq<SqlToken>)
    requires Closed(tokens)
    ensures Balanced(tokens) && Undivided(tokens, ",") && tokens != []
  {
  }

  lemma LastGroup(tokens: seq<SqlToken>, start: nat)
    requires start <= |tokens|
    ensures GroupsFrom(tokens, start, |tokens|, ",") == [tokens[start..]]
  {
  }

  lemma CommaDivides(tokens: seq<SqlToken>, start: nat, k: nat)
    requires start <= k < |tokens| && tokens[k] == Comma && Depth(tokens, k) == 0
    ensures Depth(tokens, k + 1) == 0
    ensures GroupsFrom(tokens, start, k, ",") == [tokens[start..k]] + GroupsFrom(tokens, k + 1, k + 1, ",")
  {
  }

  lemma NoFromHere(tokens: seq<SqlToken>, i: nat, nesting: nat)
    requires i < |tokens| && nesting + Weight(tokens[i]) >= 0 && (nesting == 0 ==> tokens[i].Normalized() != "from")
    ensures TopLevelWord(tokens, i, nesting, "from")
         == TopLevelWord(tokens, i + 1, nesting + Weight(tokens[i]), "from")
  {
    hide SqlToken.Normalized;
  }

  lemma ClosedAt(tokens: seq<SqlToken>, k: nat)
    requires Closed(tokens) && k < |tokens|
    ensures Excess(tokens, 0, k) >= 0 && Excess(tokens, 0, k + 1) == Excess(tokens, 0, k) + Weight(tokens[k]) >= 0
    ensures Excess(tokens, 0, k) == 0 ==> tokens[k].Normalized() != "from"
  {
    hide SqlToken.Normalized, Undivided;
    assert Excess(tokens, 0, k + 1) >= 0;
  }

  /** No `from` is found before the end of what is closed. */
  lemma {:induction false} FromIsLater(tokens: seq<SqlToken>, start: nat, item: seq<SqlToken>, k: nat)
    requires start + |item| <= |tokens| && tokens[start..start + |item|] == item && k <= |item| && Closed(item)
    ensures Excess(item, 0, k) >= 0
    ensures TopLevelWord(tokens, start, 0, "from") == TopLevelWord(tokens, start + k, Excess(item, 0, k), "from")
  {
    hide TopLevelWord, Closed, SqlToken.Normalized;
    if k > 0 {
      FromIsLater(tokens, start, item, k - 1);
      assert item[k - 1] == tokens[start + k - 1];
      ClosedAt(item, k - 1);
      NoFromHere(tokens, start + k - 1, Excess(item, 0, k - 1));
    }
  }

  lemma ItemBeforeFrom(tokens: seq<SqlToken>, start: nat, item: seq<SqlToken>, rest: seq<SqlToken>)
    requires start <= |tokens| && tokens[start..] == item + rest && Closed(item)
    ensures start + |item| <= |tokens| && tokens[start + |item|..] == rest
    ensures TopLevelWord(tokens, start, 0, "from") == TopLevelWord(tokens, start + |item|, 0, "from")
  {
    hide TopLevelWord, Closed, Excess;
    FirstIsClosed(item);
    BalancedEnds(item);
    Stands(tokens, start, item, rest);
    assert tokens[start..start + |item|] == item;
    FromIsLater(tokens, start, item, |item|);
  }

  lemma {:induction false} ItemsBeforeFrom(tokens: seq<SqlToken>, start: nat, items: seq<Item>, rest: seq<SqlToken>)
    requires items != [] && (forall item <- items :: Closed(ItemTokens(item)))
    requires start <= |tokens| && tokens[start..] == ItemsTokens(items) + rest
    ensures start + |ItemsTokens(items)| <= |tokens|
    ensures TopLevelWord(tokens, start, 0, "from")
         == TopLevelWord(tokens, start + |ItemsTokens(items)|, 0, "from")
    decreases |items|
  {
    hide *;
    assert items[0] in items;
    FirstTexts(items, rest);
    var first := ItemTokens(items[0]);
    if |items| == 1 {
      ItemBeforeFrom(tokens, start, first, rest);
    } else {
      var more, next := ItemsTokens(items[1..]) + rest, start + |first|;
      ItemBeforeFrom(tokens, start, first, [Comma] + more);
      MoreFollow(tokens, start, first, more);
      assert tokens[next] == tokens[next..][0] == Comma;
      CommaIsNoFrom(tokens, next);
      assert forall item <- items[1..] :: item in items;
      ItemsBeforeFrom(tokens, next + 1, items[1..], rest);
    }
  }

  lemma CommaIsNoFrom(tokens: seq<SqlToken>, i: nat)
    requires i < |tokens| && tokens[i] == Comma
    ensures TopLevelWord(tokens, i, 0, "from") == TopLevelWord(tokens, i + 1, 0, "from")
  {
  }

  lemma ItemIsAdded(
    m: OrderedMap<string, Column>, given: seq<Given>, item: Item, relations: OrderedMap<string, Relation>,
    keys: seq<string>, named: seq<Relation>)
    requires Holds(m, given) && Names(keys, named, relations) && FineItem(item, keys, named)
    ensures Holds(WithItem(m, ItemTokens(item), relations), given + GivenBy(item, named))
  {
    hide Holds, WildcardColumns, InferredColumn, ProjectionAlias, Lower, WithNew, DottedTokens, ColumnsOf;
    match item
    case StarItem =>
      StarGives(relations);
      if ColumnsOf(named) != [] {
        NewAreAdded(m, given, ColumnsOf(named));
      } else {
        assert given + NewOnes([]) == given;
      }
    case RelationStar(path, relation) =>
      RelationStarGives(path, relation, keys, named, relations);
      NewAreAdded(m, given, relation.columns);
    case PathItem(path, column) =>
      PathResolves(path, column, keys, named, relations);
      PathHasNoAlias(path);
      DottedStart(path);
      Adds(m, given, Given(column, true));
    case UnknownPath(path) =>
      UnknownPathGives(path, keys, named, relations);
      PathHasNoAlias(path);
      DottedStart(path);
      Adds(m, given, Given(Column(NameOf(path[|path| - 1]), "projection"), true));
    case LastNameItem(front, name, back) =>
      LastNameGives(front, name, back, keys, named, relations);
      Adds(m, given, Given(Column(NameOf(name), "projection"), true));
    case AliasItem(front, alias) =>
      AliasGives(front, alias, keys, named, relations);
      AliasIsProjected(front, alias, keys, named);
      Adds(m, given, Given(Column(NameOf(alias.token), "projection"), true));
  }

  lemma {:induction false} ItemsAreAdded(
    items: seq<Item>, relations: OrderedMap<string, Relation>, keys: seq<string>, named: seq<Relation>)
    requires Names(keys, named, relations) && forall item <- items :: FineItem(item, keys, named)
    ensures Holds(WithItems(OrderedMap([], map[]), TextsOf(items), relations), AllGiven(items, named))
  {
    hide Holds, WithItem, Names, FineItem, GivenBy;
    if items == [] {
      NothingHeld();
    } else {
      var rest, last := items[..|items| - 1], items[|items| - 1];
      ItemsAreAdded(rest, relations, keys, named);
      assert TextsOf(items)[..|items| - 1] == TextsOf(rest);
      ItemIsAdded(WithItems(OrderedMap([], map[]), TextsOf(rest), relations), AllGiven(rest, named), last, relations,
        keys, named);
    }
  }

  lemma NothingHeld()
    ensures Holds(OrderedMap([], map[]), [])
  {
    PicksNone<string>();
    assert KeysOf([]) == [] && FirstMarks<string>([]) == [];
  }

  lemma {:induction false} ValuesAre(order: seq<string>, entries: map<string, Column>)
    requires forall key <- order :: key in entries
    ensures |Values(order, entries)| == |order|
    ensures forall i :: 0 <= i < |order| ==> Values(order, entries)[i] == entries[order[i]]
  {
    if order != [] {
      assert order[0] in order;
      ValuesAre(order[1..], entries);
    }
  }

  lemma HeldMerges(m: OrderedMap<string, Column>, given: seq<Given>)
    requires Holds(m, given)
    ensures Merges(given, Values(m.order, m.entries))
  {
    hide Picks, FirstMarks, Decides, KeysOf, Values;
    forall key | key in m.order
      ensures key in m.entries
    {
      PickedIsThere(KeysOf(given), FirstMarks(KeysOf(given)), m.order, key);
    }
    ValuesAre(m.order, m.entries);
  }

  lemma SelectIsFound(tokens: seq<SqlToken>, start: nat)
    requires start < |tokens| && !Parenthesis(tokens[start]) && tokens[start].Normalized() == "select"
    ensures TopLevelWord(tokens, start, 0, "select") == Some(start)
  {
    hide SqlToken.Normalized;
  }

  lemma FromIsFound(tokens: seq<SqlToken>, end: nat)
    requires end <= |tokens|
    requires end < |tokens| ==> !Parenthesis(tokens[end]) && tokens[end].Normalized() == "from"
    ensures TopLevelWord(tokens, end, 0, "from") == if end < |tokens| then Some(end) else None
  {
    hide SqlToken.Normalized;
  }

  /**
   * The columns of a projection between `select` and `from` are exactly those that its items give: all columns of all
   * relations or of one, the column that a path leads to, or a column under its alias. Each name is there once, where
   * it first comes up; a star keeps an earlier column of its name, a path or an alias takes its place.
   */
  lemma EveryItemIsProjected(
    tokens: seq<SqlToken>, start: nat, select: SqlToken, items: seq<Item>, rest: seq<SqlToken>,
    relations: seq<Relation>, keys: seq<string>, named: seq<Relation>)
    requires start <= |tokens| && tokens[start..] == [select] + ItemsTokens(items) + rest
    requires !Parenthesis(select) && select.Normalized() == "select"
    requires rest != [] ==> !Parenthesis(rest[0]) && rest[0].Normalized() == "from"
    requires items != [] && Known(relations, keys, named)
    requires forall item <- items :: FineItem(item, keys, named) && Closed(ItemTokens(item))
    ensures Merges(AllGiven(items, named), Projection(tokens, start, relations))
  {
    hide *;
    var list := ItemsTokens(items);
    assert tokens[start..] == [select] + (list + rest);
    Stands(tokens, start, [select], list + rest);
    assert tokens[start + 0] == select;
    SelectIsFound(tokens, start);
    ItemsBeforeFrom(tokens, start + 1, items, rest);
    Stands(tokens, start + 1, list, rest);
    var end := start + 1 + |list|;
    if end < |tokens| { assert tokens[end] == tokens[end..][0]; }
    FromIsFound(tokens, end);
    assert tokens[start + 1..end] == list;
    assert list[0..] == list;
    DepthAtStart(list);
    ItemsAreSplit(list, 0, items);
    KnownNames(relations, keys, named);
    ItemsAreAdded(items, RelationMap(relations), keys, named);
    var m := WithItems(OrderedMap([], map[]), TextsOf(items), RelationMap(relations));
    HeldMerges(m, AllGiven(items, named));
    ProjectionIs(tokens, start, end, relations);
  }

  lemma DepthAtStart(tokens: seq<SqlToken>)
    ensures Depth(tokens, 0) == 0
  {
  }

  lemma KnownNames(relations: seq<Relation>, keys: seq<string>, named: seq<Relation>)
    requires Known(relations, keys, named)
    ensures Names(keys, named, RelationMap(relations))
  {
    hide Known, Listed, RelationMap;
    KnownOnce(relations, keys, named);
    MapListsAll(relations);
  }

  lemma ProjectionIs(tokens: seq<SqlToken>, start: nat, end: nat, relations: seq<Relation>)
    requires start < end <= |tokens| && TopLevelWord(tokens, start, 0, "select") == Some(start)
    requires TopLevelWord(tokens, start + 1, 0, "from") == if end < |tokens| then Some(end) else None
    ensures
      var items := GroupsFrom(tokens[start + 1..end], 0, 0, ",");
      var m := WithItems(OrderedMap([], map[]), items, RelationMap(relations));
      Projection(tokens, start, relations) == Values(m.order, m.entries)
  {
    hide TopLevelWord, GroupsFrom, WithItems, RelationMap, Values;
  }
}
