/** The editor's statement analyser: common table expressions, relations and projected columns, nested to any depth. */
module SqlAnalysis {
  import opened OrderedMaps
  import opened SqlGroups
  import opened SqlNames
  import opened SqlTokens
  import opened Text

  datatype Column = Column(name: string, data_type: string)

  datatype Origin = FromTable | FromCte | FromSubquery

  datatype Relation = Relation(
    origin: Origin, name: string, database: Option<string>, alias: Option<string>, columns: seq<Column>)

  datatype CatalogTable = CatalogTable(database: string, name: string, columns: seq<Column>)

  /** What names are looked up in: the tables by lower-case database and table name, and the current database. */
  datatype Scope = Scope(catalog: map<string, map<string, CatalogTable>>, database: Option<string>)

  datatype Analysis = Analysis(ctes: seq<Relation>, relations: seq<Relation>, projection: seq<Column>)

  const MAX_DEPTH: nat := 4

  // ---- Looking at single tokens ----

  predicate TextAt(tokens: seq<SqlToken>, i: nat, text: string) { i < |tokens| && tokens[i].text == text }

  predicate WordAt(tokens: seq<SqlToken>, i: nat, word: string) { i < |tokens| && tokens[i].Normalized() == word }

  predicate StopsJoins(word: string) {
    word in {
      "where", "group", "having", "order", "limit", "offset", "fetch", "union", "intersect", "except", "returning" }
  }

  predicate StopsAlias(word: string) {
    word in {
      "where", "group", "having", "order", "limit", "offset", "fetch", "for", "join", "left", "right", "inner", "outer",
      "cross", "on", "union", "intersect", "except", "using" }
  }

  datatype Alias = Alias(name: string, next_index: nat)

  function AliasAt(tokens: seq<SqlToken>, start: nat): (r: Option<Alias>)
    ensures r.Some? ==> start < r.value.next_index <= |tokens|
  {
    if WordAt(tokens, start, "as") && IsIdentifierAt(tokens, start + 1) then
      Some(Alias(Unquote(tokens[start + 1].text), start + 2))
    else if IsIdentifierAt(tokens, start) && !StopsAlias(Lower(Unquote(tokens[start].text))) then
      Some(Alias(Unquote(tokens[start].text), start + 1))
    else None
  }

  datatype NameList = NameList(names: seq<string>, next_index: nat)

  /** The names at the first level of a list in parentheses, `nesting` deep before `index`. */
  function NamesFrom(tokens: seq<SqlToken>, index: nat, nesting: nat): (r: NameList)
    requires index <= |tokens|
    ensures index <= r.next_index <= |tokens|
    decreases |tokens| - index
  {
    if index == |tokens| || nesting == 0 then NameList([], index)
    else if tokens[index].text == "(" then NamesFrom(tokens, index + 1, nesting + 1)
    else if tokens[index].text == ")" then NamesFrom(tokens, index + 1, nesting - 1)
    else
      var rest := NamesFrom(tokens, index + 1, nesting);
      if nesting == 1 && IsIdentifierAt(tokens, index) then
        NameList([Unquote(tokens[index].text)] + rest.names, rest.next_index)
      else rest
  }

  method ReadIdentifierList(tokens: seq<SqlToken>, start: nat) returns (r: NameList)
    requires start < |tokens|
    ensures r == NamesFrom(tokens, start + 1, 1)
  {
    hide Unquote;
    var names := [];
    var index := start + 1;
    var nesting := 1;
    while index < |tokens| && nesting > 0
      invariant start < index <= |tokens| && nesting >= 0
      invariant
        var rest := NamesFrom(tokens, index, nesting);
        NamesFrom(tokens, start + 1, 1) == NameList(names + rest.names, rest.next_index)
    {
      if tokens[index].text == "(" {
        nesting := nesting + 1;
      } else if tokens[index].text == ")" {
        nesting := nesting - 1;
      } else if nesting == 1 && IsIdentifierAt(tokens, index) {
        ghost var rest := NamesFrom(tokens, index + 1, nesting).names;
        assert names + ([Unquote(tokens[index].text)] + rest) == names + [Unquote(tokens[index].text)] + rest;
        names := names + [Unquote(tokens[index].text)];
      }
      index := index + 1;
    }
    assert names + [] == names;
    r := NameList(names, index);
  }

  function Derived(names: seq<string>, dataType: string): seq<Column> {
    if names == [] then [] else [Column(names[0], dataType)] + Derived(names[1..], dataType)
  }

  // ---- Names of relations ----

  function CatalogTableOf(identifiers: seq<string>, scope: Scope): Option<CatalogTable> {
    if identifiers == [] || (|identifiers| == 1 && (scope.database.None? || scope.database.value == "")) then None
    else
      var database :=
        Lower(if |identifiers| == 1 then scope.database.value else identifiers[|identifiers| - 2]);
      var table := Lower(identifiers[|identifiers| - 1]);
      if database in scope.catalog && table in scope.catalog[database] then Some(scope.catalog[database][table])
      else None
  }

  /** The common table expression with a lower-case name; the later of two with one name counts. */
  function CteNamed(ctes: seq<Relation>, name: string): Option<Relation> {
    if ctes == [] then None
    else if Lower(ctes[|ctes| - 1].name) == name then Some(ctes[|ctes| - 1])
    else CteNamed(ctes[..|ctes| - 1], name)
  }

  function RelationOf(identifiers: seq<string>, alias: Option<string>, scope: Scope, ctes: seq<Relation>)
    : Option<Relation>
  {
    var cte := if |identifiers| == 1 then CteNamed(ctes, Lower(identifiers[0])) else None;
    if cte.Some? then Some(cte.value.(alias := alias))
    else
      match CatalogTableOf(identifiers, scope)
      case None => None
      case Some(table) => Some(Relation(FromTable, table.name, Some(table.database), alias, table.columns))
  }

  // ---- Projected columns ----

  /** The first top-level token that is a word, from `index` on and `nesting` deep there. */
  function TopLevelWord(tokens: seq<SqlToken>, index: nat, nesting: nat, word: string): (r: Option<nat>)
    requires index <= |tokens|
    ensures r.Some? ==> index <= r.value < |tokens|
    decreases |tokens| - index
  {
    if index == |tokens| then None
    else if tokens[index].text == "(" then TopLevelWord(tokens, index + 1, nesting + 1, word)
    else if tokens[index].text == ")" then
      TopLevelWord(tokens, index + 1, if nesting > 0 then nesting - 1 else 0, word)
    else if nesting == 0 && tokens[index].Normalized() == word then Some(index)
    else TopLevelWord(tokens, index + 1, nesting, word)
  }

  method FindTopLevelWord(tokens: seq<SqlToken>, start: nat, word: string) returns (r: Option<nat>)
    requires start <= |tokens|
    ensures r == TopLevelWord(tokens, start, 0, word)
  {
    var nesting := 0;
    for index := start to |tokens|
      invariant nesting >= 0 && TopLevelWord(tokens, index, nesting, word) == TopLevelWord(tokens, start, 0, word)
    {
      var token := tokens[index];
      if token.text == "(" {
        nesting := nesting + 1;
      } else if token.text == ")" {
        nesting := if nesting > 0 then nesting - 1 else 0;
      } else if nesting == 0 && token.Normalized() == word {
        return Some(index);
      }
    }
    r := None;
  }

  function RelationMap(relations: seq<Relation>): OrderedMap<string, Relation> {
    if relations == [] then OrderedMap([], map[])
    else
      var last := relations[|relations| - 1];
      var named := RelationMap(relations[..|relations| - 1]).Put(Lower(last.name), last);
      if last.alias.Some? && last.alias.value != "" then named.Put(Lower(last.alias.value), last) else named
  }

  /** The columns of the relations in a map, in order. */
  function AllColumns(order: seq<string>, entries: map<string, Relation>): seq<Column> {
    if order == [] then []
    else (if order[0] in entries then entries[order[0]].columns else []) + AllColumns(order[1..], entries)
  }

  function ColumnNamed(columns: seq<Column>, name: string): Option<Column> {
    if columns == [] then None
    else if columns[0].name == name then Some(columns[0])
    else ColumnNamed(columns[1..], name)
  }

  function ColumnInAny(order: seq<string>, entries: map<string, Relation>, name: string): Option<Column> {
    if order == [] then None
    else
      var found := if order[0] in entries then ColumnNamed(entries[order[0]].columns, name) else None;
      if found.Some? then found else ColumnInAny(order[1..], entries, name)
  }

  /** The name after the last `as` that a name follows, before `end`. */
  function AliasAfterAs(item: seq<SqlToken>, end: nat): Option<string>
    requires end <= |item|
  {
    if end == 0 then None
    else if item[end - 1].Normalized() == "as" && IsIdentifierAt(item, end) then Some(Unquote(item[end].text))
    else AliasAfterAs(item, end - 1)
  }

  function ProjectionAlias(item: seq<SqlToken>): Option<string> {
    var n := |item|;
    var named := AliasAfterAs(item, n);
    if named.Some? then named
    else if n >= 2 && IsIdentifierAt(item, n - 1) && item[n - 2].text != "." && item[n - 2].Normalized() != "as" then
      Some(Unquote(item[n - 1].text))
    else None
  }

  function WildcardColumns(item: seq<SqlToken>, relations: OrderedMap<string, Relation>): seq<Column> {
    if |item| == 1 && item[0].text == "*" then AllColumns(relations.order, relations.entries)
    else
      match QualifiedNameAt(item, 0)
      case None => []
      case Some(path) =>
        var name := path.identifiers[|path.identifiers| - 1];
        if TextAt(item, path.next_index, ".") && TextAt(item, path.next_index + 1, "*") && name != ""
           && Lower(name) in relations.entries then relations.entries[Lower(name)].columns
        else []
  }

  function ResolvedColumn(item: seq<SqlToken>, relations: OrderedMap<string, Relation>): Option<Column> {
    match QualifiedNameAt(item, 0)
    case None => None
    case Some(path) =>
      var n := |path.identifiers|;
      if path.next_index != |item| then None
      else if n == 1 then ColumnInAny(relations.order, relations.entries, path.identifiers[0])
      else if Lower(path.identifiers[n - 2]) in relations.entries then
        ColumnNamed(relations.entries[Lower(path.identifiers[n - 2])].columns, path.identifiers[n - 1])
      else None
  }

  function LastIdentifier(item: seq<SqlToken>): Option<string> {
    if item == [] then None
    else if IsIdentifierAt(item, |item| - 1) then Some(Unquote(item[|item| - 1].text))
    else LastIdentifier(item[..|item| - 1])
  }

  /** The column of one projected item that is not a wildcard. */
  function InferredColumn(item: seq<SqlToken>, relations: OrderedMap<string, Relation>): Option<Column> {
    var alias := ProjectionAlias(item);
    var resolved := ResolvedColumn(item, relations);
    if resolved.Some? then resolved
    else if alias.Some? && alias.value != "" then Some(Column(alias.value, "projection"))
    else match LastIdentifier(item) case None => None case Some(name) => Some(Column(name, "projection"))
  }

  function WithNew(columns: OrderedMap<string, Column>, more: seq<Column>): OrderedMap<string, Column>
    decreases |more|
  {
    if more == [] then columns
    else
      var c := more[0];
      WithNew(if Lower(c.name) in columns.entries then columns else columns.Put(Lower(c.name), c), more[1..])
  }

  function WithItem(
    columns: OrderedMap<string, Column>, item: seq<SqlToken>, relations: OrderedMap<string, Relation>)
    : OrderedMap<string, Column>
  {
    if item == [] then columns
    else
      var wildcard := WildcardColumns(item, relations);
      if wildcard != [] then WithNew(columns, wildcard)
      else
        match InferredColumn(item, relations)
        case None => columns
        case Some(c) =>
          var alias := ProjectionAlias(item);
          columns.Put(Lower(c.name), if alias.Some? then c.(name := alias.value) else c)
  }

  function WithItems(
    columns: OrderedMap<string, Column>, items: seq<seq<SqlToken>>, relations: OrderedMap<string, Relation>)
    : OrderedMap<string, Column>
  {
    if items == [] then columns
    else WithItem(WithItems(columns, items[..|items| - 1], relations), items[|items| - 1], relations)
  }

  function Values(order: seq<string>, entries: map<string, Column>): seq<Column> {
    if order == [] then []
    else (if order[0] in entries then [entries[order[0]]] else []) + Values(order[1..], entries)
  }

  function Projection(tokens: seq<SqlToken>, start: nat, relations: seq<Relation>): seq<Column>
    requires start <= |tokens|
  {
    match TopLevelWord(tokens, start, 0, "select")
    case None => []
    case Some(select) =>
      var from := TopLevelWord(tokens, select + 1, 0, "from");
      var end := if from.Some? then from.value else |tokens|;
      var items := GroupsFrom(tokens[select + 1..end], 0, 0, ",");
      var columns := WithItems(OrderedMap([], map[]), items, RelationMap(relations));
      Values(columns.order, columns.entries)
  }

  method ParseProjectionColumns(tokens: seq<SqlToken>, start: nat, relations: seq<Relation>)
    returns (projection: seq<Column>)
    requires start <= |tokens|
    ensures projection == Projection(tokens, start, relations)
  {
    hide WithItem, RelationMap, Values, GroupsFrom, TopLevelWord;
    var select := FindTopLevelWord(tokens, start, "select");
    if select.None? {
      return [];
    }
    var from := FindTopLevelWord(tokens, select.value + 1, "from");
    var end := if from.Some? then from.value else |tokens|;
    var items := SplitTopLevelTokens(tokens[select.value + 1..end], ",");
    var named := RelationMap(relations);
    var columns: OrderedMap<string, Column> := OrderedMap([], map[]);
    for k := 0 to |items|
      invariant columns == WithItems(OrderedMap([], map[]), items[..k], named)
    {
      assert items[..k + 1][..k] == items[..k];
      columns := WithItem(columns, items[k], named);
    }
    assert items[..|items|] == items;
    projection := Values(columns.order, columns.entries);
  }

  // ---- Statements inside statements ----

  datatype Ctes = Ctes(ctes: seq<Relation>, next_index: nat)

  datatype Found = Found(relation: Relation, next_index: nat)

  datatype FoundList = FoundList(relations: seq<Relation>, next_index: nat)

  /** The analysis, cut off below depth 4 or, for comparison, never. */
  function Analyzed(tokens: seq<SqlToken>, scope: Scope, depth: nat, cut: bool): Analysis
    decreases |tokens|, 4
  {
    if (cut && depth > MAX_DEPTH) || tokens == [] then Analysis([], [], [])
    else
      var ctes := CtesOf(tokens, scope, depth, cut);
      var relations := RelationsFrom(tokens, ctes.next_index, 0, scope, ctes.ctes, depth, cut);
      Analysis(ctes.ctes, relations, Projection(tokens, ctes.next_index, relations))
  }

  function CtesOf(tokens: seq<SqlToken>, scope: Scope, depth: nat, cut: bool): (r: Ctes)
    requires tokens != []
    ensures r.next_index <= |tokens|
    decreases |tokens|, 3
  {
    if !WordAt(tokens, 0, "with") then Ctes([], 0)
    else CtesFrom(tokens, if WordAt(tokens, 1, "recursive") then 2 else 1, scope, depth, cut)
  }

  /** Where the query of an expression starts, after its name and column list. */
  function ColumnsAt(tokens: seq<SqlToken>, index: nat): (r: NameList)
    requires index <= |tokens|
    ensures index <= r.next_index <= |tokens|
  {
    if TextAt(tokens, index, "(") then NamesFrom(tokens, index + 1, 1) else NameList([], index)
  }

  function CteOf(name: string, columns: seq<string>, query: Analysis): Relation {
    Relation(FromCte, name, None, None, if columns != [] then Derived(columns, "cte") else query.projection)
  }

  function CtesFrom(tokens: seq<SqlToken>, index: nat, scope: Scope, depth: nat, cut: bool): (r: Ctes)
    requires index <= |tokens|
    ensures index <= r.next_index <= |tokens|
    decreases |tokens|, 2, |tokens| - index
  {
    if !IsIdentifierAt(tokens, index) then Ctes([], index)
    else
      var columns := ColumnsAt(tokens, index + 1);
      var as_ := columns.next_index;
      if !WordAt(tokens, as_, "as") || !TextAt(tokens, as_ + 1, "(") then Ctes([], as_)
      else
        var subquery := ParenthesizedAt(tokens, as_ + 1);
        var cte := CteOf(Unquote(tokens[index].text), columns.names, Analyzed(subquery.inner, scope, depth + 1, cut));
        if TextAt(tokens, subquery.next_index, ",") then
          var rest := CtesFrom(tokens, subquery.next_index + 1, scope, depth, cut);
          Ctes([cte] + rest.ctes, rest.next_index)
        else Ctes([cte], subquery.next_index)
  }

  function RelationsFrom(
    tokens: seq<SqlToken>, index: nat, nesting: nat, scope: Scope, ctes: seq<Relation>, depth: nat, cut: bool)
    : seq<Relation>
    requires index <= |tokens|
    decreases |tokens|, 2, |tokens| - index
  {
    if index == |tokens| then []
    else if tokens[index].text == "(" then RelationsFrom(tokens, index + 1, nesting + 1, scope, ctes, depth, cut)
    else if tokens[index].text == ")" then
      RelationsFrom(tokens, index + 1, if nesting > 0 then nesting - 1 else 0, scope, ctes, depth, cut)
    else if nesting == 0 && (WordAt(tokens, index, "from") || WordAt(tokens, index, "join")) then
      var list := RelationListFrom(tokens, index + 1, scope, ctes, depth, cut);
      list.relations + RelationsFrom(tokens, list.next_index, nesting, scope, ctes, depth, cut)
    else if nesting == 0 && StopsJoins(tokens[index].Normalized()) then []
    else RelationsFrom(tokens, index + 1, nesting, scope, ctes, depth, cut)
  }

  /** Relations with a comma between each two. */
  function RelationListFrom(
    tokens: seq<SqlToken>, index: nat, scope: Scope, ctes: seq<Relation>, depth: nat, cut: bool): (r: FoundList)
    requires index <= |tokens|
    ensures index <= r.next_index <= |tokens|
    decreases |tokens|, 1, |tokens| - index
  {
    match RelationAt(tokens, index, scope, ctes, depth, cut)
    case None => FoundList([], index)
    case Some(found) =>
      if TextAt(tokens, found.next_index, ",") then
        var rest := RelationListFrom(tokens, found.next_index + 1, scope, ctes, depth, cut);
        FoundList([found.relation] + rest.relations, rest.next_index)
      else FoundList([found.relation], found.next_index)
  }

  function SubqueryOf(alias: Option<Alias>, query: Analysis): Relation {
    Relation(FromSubquery, if alias.Some? then alias.value.name else "subquery", None,
      if alias.Some? then Some(alias.value.name) else None, query.projection)
  }

  function RelationAt(
    tokens: seq<SqlToken>, start: nat, scope: Scope, ctes: seq<Relation>, depth: nat, cut: bool): (r: Option<Found>)
    requires start <= |tokens|
    ensures r.Some? ==> start < r.value.next_index <= |tokens|
    decreases |tokens|, 0
  {
    if start == |tokens| then None
    else if tokens[start].text == "(" then
      var subquery := ParenthesizedAt(tokens, start);
      var alias := AliasAt(tokens, subquery.next_index);
      Some(Found(
        SubqueryOf(alias, Analyzed(subquery.inner, scope, depth + 1, cut)),
        if alias.Some? then alias.value.next_index else subquery.next_index))
    else
      match QualifiedNameAt(tokens, start)
      case None => None
      case Some(path) =>
        var alias := AliasAt(tokens, path.next_index);
        match RelationOf(path.identifiers, if alias.Some? then Some(alias.value.name) else None, scope, ctes)
        case None => None
        case Some(relation) =>
          Some(Found(relation, if alias.Some? then alias.value.next_index else path.next_index))
  }

  // ---- The parsers ----

  method AnalyzeSqlTokens(tokens: seq<SqlToken>, scope: Scope, depth: nat) returns (r: Analysis)
    ensures r == Analyzed(tokens, scope, depth, true)
    decreases |tokens|, 4
  {
    if depth > MAX_DEPTH || tokens == [] {
      return Analysis([], [], []);
    }
    hide CtesOf, RelationsFrom, Projection;
    var ctes := ParseCtes(tokens, scope, depth);
    var relations := ParseRelations(tokens, ctes.next_index, scope, ctes.ctes, depth);
    var projection := ParseProjectionColumns(tokens, ctes.next_index, relations);
    r := Analysis(ctes.ctes, relations, projection);
  }

  method ParseCtes(tokens: seq<SqlToken>, scope: Scope, depth: nat) returns (r: Ctes)
    requires tokens != []
    ensures r == CtesOf(tokens, scope, depth, true)
    decreases |tokens|, 3
  {
    hide *;
    CtesStart(tokens, scope, depth);
    if !WordAt(tokens, 0, "with") {
      return Ctes([], 0);
    }
    var ctes: seq<Relation> := [];
    var index := 1;
    if WordAt(tokens, index, "recursive") {
      index := index + 1;
    }
    while index < |tokens|
      invariant index <= |tokens|
      invariant
        var rest := CtesFrom(tokens, index, scope, depth, true);
        CtesOf(tokens, scope, depth, true) == Ctes(ctes + rest.ctes, rest.next_index)
      decreases |tokens| - index
    {
      CtesStep(tokens, index, scope, depth, true);
      if !IsIdentifierAt(tokens, index) {
        assert ctes + [] == ctes;
        return Ctes(ctes, index);
      }
      var name := Unquote(tokens[index].text);
      index := index + 1;
      var columns := ReadColumns(tokens, index);
      index := columns.next_index;
      if !WordAt(tokens, index, "as") || !TextAt(tokens, index + 1, "(") {
        assert ctes + [] == ctes;
        return Ctes(ctes, index);
      }
      OpensAt(tokens, index + 1);
      var subquery := ReadParenthesizedTokens(tokens, index + 1);
      var query := AnalyzeSqlTokens(subquery.inner, scope, depth + 1);
      var cte := CteOf(name, columns.names, query);
      index := subquery.next_index;
      if !TextAt(tokens, index, ",") {
        return Ctes(ctes + [cte], index);
      }
      OpensAt(tokens, index);
      index := index + 1;
      assert ctes + ([cte] + CtesFrom(tokens, index, scope, depth, true).ctes)
          == ctes + [cte] + CtesFrom(tokens, index, scope, depth, true).ctes;
      ctes := ctes + [cte];
    }
    CtesEnd(tokens, scope, depth);
    assert ctes + [] == ctes;
    r := Ctes(ctes, index);
  }

  lemma OpensAt(tokens: seq<SqlToken>, i: nat)
    ensures TextAt(tokens, i, "(") ==> i < |tokens| && tokens[i].text == "("
    ensures TextAt(tokens, i, ",") ==> i < |tokens|
    ensures WordAt(tokens, i, "recursive") ==> i < |tokens|
  {
  }

  lemma CtesStart(tokens: seq<SqlToken>, scope: Scope, depth: nat)
    requires tokens != []
    ensures CtesOf(tokens, scope, depth, true)
         == if !WordAt(tokens, 0, "with") then Ctes([], 0)
            else
              var rest := CtesFrom(tokens, if WordAt(tokens, 1, "recursive") then 2 else 1, scope, depth, true);
              Ctes([] + rest.ctes, rest.next_index)
    ensures WordAt(tokens, 1, "recursive") ==> |tokens| >= 2
  {
    hide CtesFrom;
    if WordAt(tokens, 0, "with") {
      var rest := CtesFrom(tokens, if WordAt(tokens, 1, "recursive") then 2 else 1, scope, depth, true);
      assert [] + rest.ctes == rest.ctes;
    }
  }

  lemma CtesEnd(tokens: seq<SqlToken>, scope: Scope, depth: nat)
    ensures CtesFrom(tokens, |tokens|, scope, depth, true) == Ctes([], |tokens|)
  {
  }

  method ReadColumns(tokens: seq<SqlToken>, index: nat) returns (r: NameList)
    requires index <= |tokens|
    ensures r == ColumnsAt(tokens, index)
  {
    if TextAt(tokens, index, "(") {
      r := ReadIdentifierList(tokens, index);
    } else {
      r := NameList([], index);
    }
  }

  lemma CtesStep(tokens: seq<SqlToken>, index: nat, scope: Scope, depth: nat, cut: bool)
    requires index < |tokens|
    ensures CtesFrom(tokens, index, scope, depth, cut)
         == if !IsIdentifierAt(tokens, index) then Ctes([], index)
            else
              var columns := ColumnsAt(tokens, index + 1);
              var as_ := columns.next_index;
              if !WordAt(tokens, as_, "as") || !TextAt(tokens, as_ + 1, "(") then Ctes([], as_)
              else
                var subquery := ParenthesizedAt(tokens, as_ + 1);
                var cte := CteOf(Unquote(tokens[index].text), columns.names,
                             Analyzed(subquery.inner, scope, depth + 1, cut));
                if TextAt(tokens, subquery.next_index, ",") then
                  var rest := CtesFrom(tokens, subquery.next_index + 1, scope, depth, cut);
                  Ctes([cte] + rest.ctes, rest.next_index)
                else Ctes([cte], subquery.next_index)
  {
    hide Unquote, CteOf, NamesFrom, InnerEnd, Analyzed, ColumnsAt;
  }

  method ReadRelation(tokens: seq<SqlToken>, start: nat, scope: Scope, ctes: seq<Relation>, depth: nat)
    returns (r: Option<Found>)
    requires start <= |tokens|
    ensures r == RelationAt(tokens, start, scope, ctes, depth, true)
    decreases |tokens|, 0
  {
    hide Unquote, AliasAt, InnerEnd, Analyzed, RelationOf, QualifiedNameAt;
    if start == |tokens| {
      return None;
    }
    if tokens[start].text == "(" {
      var subquery := ReadParenthesizedTokens(tokens, start);
      var alias := AliasAt(tokens, subquery.next_index);
      var query := AnalyzeSqlTokens(subquery.inner, scope, depth + 1);
      return Some(Found(
        SubqueryOf(alias, query), if alias.Some? then alias.value.next_index else subquery.next_index));
    }
    var path := ReadQualifiedIdentifier(tokens, start);
    if path.None? {
      return None;
    }
    var alias := AliasAt(tokens, path.value.next_index);
    var relation := RelationOf(
      path.value.identifiers, if alias.Some? then Some(alias.value.name) else None, scope, ctes);
    if relation.None? {
      return None;
    }
    r := Some(Found(relation.value, if alias.Some? then alias.value.next_index else path.value.next_index));
  }

  /** The relations after one `from` or `join`. */
  method ReadRelationList(tokens: seq<SqlToken>, start: nat, scope: Scope, ctes: seq<Relation>, depth: nat)
    returns (r: FoundList)
    requires start <= |tokens|
    ensures r == RelationListFrom(tokens, start, scope, ctes, depth, true)
    decreases |tokens|, 1
  {
    hide *;
    var relations: seq<Relation> := [];
    var index := start;
    ghost var whole := RelationListFrom(tokens, start, scope, ctes, depth, true);
    assert [] + whole.relations == whole.relations;
    while true
      invariant start <= index <= |tokens|
      invariant
        var rest := RelationListFrom(tokens, index, scope, ctes, depth, true);
        whole == FoundList(relations + rest.relations, rest.next_index)
      decreases |tokens| - index
    {
      RelationListStep(tokens, index, scope, ctes, depth);
      var found := ReadRelation(tokens, index, scope, ctes, depth);
      if found.None? {
        assert relations + [] == relations;
        return FoundList(relations, index);
      }
      ghost var before := relations;
      relations := relations + [found.value.relation];
      index := found.value.next_index;
      if !TextAt(tokens, index, ",") {
        return FoundList(relations, index);
      }
      OpensAt(tokens, index);
      index := index + 1;
      ghost var rest := RelationListFrom(tokens, index, scope, ctes, depth, true).relations;
      assert before + ([found.value.relation] + rest) == relations + rest;
    }
  }

  lemma RelationListStep(tokens: seq<SqlToken>, index: nat, scope: Scope, ctes: seq<Relation>, depth: nat)
    requires index <= |tokens|
    ensures RelationListFrom(tokens, index, scope, ctes, depth, true)
         == match RelationAt(tokens, index, scope, ctes, depth, true)
            case None => FoundList([], index)
            case Some(found) =>
              if TextAt(tokens, found.next_index, ",") then
                var rest := RelationListFrom(tokens, found.next_index + 1, scope, ctes, depth, true);
                FoundList([found.relation] + rest.relations, rest.next_index)
              else FoundList([found.relation], found.next_index)
  {
    hide RelationAt;
  }

  method ParseRelations(tokens: seq<SqlToken>, start: nat, scope: Scope, ctes: seq<Relation>, depth: nat)
    returns (relations: seq<Relation>)
    requires start <= |tokens|
    ensures relations == RelationsFrom(tokens, start, 0, scope, ctes, depth, true)
    decreases |tokens|, 2
  {
    hide RelationListFrom;
    relations := [];
    var index := start;
    var nesting := 0;
    while index < |tokens|
      invariant start <= index <= |tokens| && nesting >= 0
      invariant relations + RelationsFrom(tokens, index, nesting, scope, ctes, depth, true)
             == RelationsFrom(tokens, start, 0, scope, ctes, depth, true)
      decreases |tokens| - index
    {
      var token := tokens[index];
      if token.text == "(" {
        nesting := nesting + 1;
        index := index + 1;
      } else if token.text == ")" {
        nesting := if nesting > 0 then nesting - 1 else 0;
        index := index + 1;
      } else if nesting == 0 && (token.Normalized() == "from" || token.Normalized() == "join") {
        var list := ReadRelationList(tokens, index + 1, scope, ctes, depth);
        ghost var rest := RelationsFrom(tokens, list.next_index, nesting, scope, ctes, depth, true);
        assert relations + (list.relations + rest) == relations + list.relations + rest;
        relations := relations + list.relations;
        index := list.next_index;
      } else if nesting == 0 && StopsJoins(token.Normalized()) {
        assert relations + [] == relations;
        return;
      } else {
        index := index + 1;
      }
    }
    assert relations + [] == relations;
  }

  // ---- How deep the analysis goes ----

  /** Nowhere are more than `n` parentheses open that were opened after some point. */
  ghost predicate NestedAtMost(tokens: seq<SqlToken>, n: int) {
    forall i, j :: 0 <= i <= j <= |tokens| ==> Excess(tokens, i, j) <= n
  }

  /** What is read between parentheses is nested one level less. */
  lemma InnerIsShallower(tokens: seq<SqlToken>, start: nat, n: int)
    requires start < |tokens| && tokens[start].text == "(" && NestedAtMost(tokens, n)
    ensures NestedAtMost(ParenthesizedAt(tokens, start).inner, n - 1)
  {
    ParenthesizedIsMatched(tokens, start);
    var inner := ParenthesizedAt(tokens, start).inner;
    var end := start + 1 + |inner|;
    assert tokens[start + 1..end] == inner;
    hide InnerEnd, ParenthesizedAt;
    forall i, j | 0 <= i <= j <= |inner|
      ensures Excess(inner, i, j) <= n - 1
    {
      ExcessOfSlice(tokens, start + 1, end, i, j);
      ExcessSplits(tokens, start, start + 1 + i, start + 1 + j);
      assert Excess(tokens, start, start + 1 + i) > 0;
      assert Excess(tokens, start, start + 1 + j) <= n;
    }
  }

  /** The cut-off below depth 4 does not show as long as at most four levels of parentheses are nested. */
  lemma {:induction false} CutDoesNotShow(tokens: seq<SqlToken>, scope: Scope, depth: nat)
    requires depth <= MAX_DEPTH && NestedAtMost(tokens, MAX_DEPTH - depth)
    ensures Analyzed(tokens, scope, depth, true) == Analyzed(tokens, scope, depth, false)
    decreases |tokens|, 4
  {
    hide CtesFrom, RelationsFrom, Projection, NestedAtMost;
    if tokens != [] {
      CtesNotCut(tokens, if WordAt(tokens, 1, "recursive") then 2 else 1, scope, depth);
      var ctes := CtesOf(tokens, scope, depth, true);
      RelationsNotCut(tokens, ctes.next_index, 0, scope, ctes.ctes, depth);
    }
  }

  lemma SubqueryIsNested(tokens: seq<SqlToken>, start: nat, n: int)
    requires TextAt(tokens, start, "(") && NestedAtMost(tokens, n)
    ensures n >= 1
  {
    assert Excess(tokens, start, start + 1) == Excess(tokens, start, start) + 1;
  }

  lemma {:induction false} SubqueryNotCut(tokens: seq<SqlToken>, start: nat, scope: Scope, depth: nat)
    requires depth <= MAX_DEPTH && NestedAtMost(tokens, MAX_DEPTH - depth)
    requires TextAt(tokens, start, "(")
    ensures var inner := ParenthesizedAt(tokens, start).inner;
      Analyzed(inner, scope, depth + 1, true) == Analyzed(inner, scope, depth + 1, false)
    decreases |tokens|, 0, 0
  {
    hide Analyzed, NestedAtMost, InnerEnd;
    SubqueryIsNested(tokens, start, MAX_DEPTH - depth);
    InnerIsShallower(tokens, start, MAX_DEPTH - depth);
    CutDoesNotShow(ParenthesizedAt(tokens, start).inner, scope, depth + 1);
  }

  lemma {:induction false} CtesNotCut(tokens: seq<SqlToken>, index: nat, scope: Scope, depth: nat)
    requires depth <= MAX_DEPTH && NestedAtMost(tokens, MAX_DEPTH - depth) && tokens != []
    ensures index <= |tokens| ==>
      CtesFrom(tokens, index, scope, depth, true) == CtesFrom(tokens, index, scope, depth, false)
    decreases |tokens|, 2, |tokens| - index
  {
    hide Analyzed, CteOf, ColumnsAt, NestedAtMost, InnerEnd, ParenthesizedAt, CtesFrom, Unquote;
    if index > |tokens| {
    } else if !IsIdentifierAt(tokens, index) {
      NoCtes(tokens, index, scope, depth, true);
      NoCtes(tokens, index, scope, depth, false);
    } else {
      CtesStep(tokens, index, scope, depth, true);
      CtesStep(tokens, index, scope, depth, false);
      var as_ := ColumnsAt(tokens, index + 1).next_index;
      if WordAt(tokens, as_, "as") && TextAt(tokens, as_ + 1, "(") {
        var subquery := ParenthesizedAt(tokens, as_ + 1);
        SubqueryNotCut(tokens, as_ + 1, scope, depth);
        if TextAt(tokens, subquery.next_index, ",") {
          CtesNotCut(tokens, subquery.next_index + 1, scope, depth);
        }
      }
    }
  }

  lemma {:induction false} RelationNotCut(
    tokens: seq<SqlToken>, start: nat, scope: Scope, ctes: seq<Relation>, depth: nat)
    requires depth <= MAX_DEPTH && NestedAtMost(tokens, MAX_DEPTH - depth) && start <= |tokens|
    ensures RelationAt(tokens, start, scope, ctes, depth, true) == RelationAt(tokens, start, scope, ctes, depth, false)
    decreases |tokens|, 0, 1
  {
    hide Analyzed, AliasAt, SubqueryOf, NestedAtMost, InnerEnd, QualifiedNameAt, RelationOf;
    if TextAt(tokens, start, "(") {
      SubqueryNotCut(tokens, start, scope, depth);
    }
  }

  lemma {:induction false} RelationListNotCut(
    tokens: seq<SqlToken>, index: nat, scope: Scope, ctes: seq<Relation>, depth: nat)
    requires depth <= MAX_DEPTH && NestedAtMost(tokens, MAX_DEPTH - depth) && index <= |tokens|
    ensures RelationListFrom(tokens, index, scope, ctes, depth, true)
         == RelationListFrom(tokens, index, scope, ctes, depth, false)
    decreases |tokens|, 1, |tokens| - index
  {
    hide RelationAt, NestedAtMost;
    RelationNotCut(tokens, index, scope, ctes, depth);
    var found := RelationAt(tokens, index, scope, ctes, depth, true);
    if found.Some? && TextAt(tokens, found.value.next_index, ",") {
      RelationListNotCut(tokens, found.value.next_index + 1, scope, ctes, depth);
    }
  }

  lemma {:induction false} RelationsNotCut(
    tokens: seq<SqlToken>, index: nat, nesting: nat, scope: Scope, ctes: seq<Relation>, depth: nat)
    requires depth <= MAX_DEPTH && NestedAtMost(tokens, MAX_DEPTH - depth) && index <= |tokens|
    ensures RelationsFrom(tokens, index, nesting, scope, ctes, depth, true)
         == RelationsFrom(tokens, index, nesting, scope, ctes, depth, false)
    decreases |tokens|, 2, |tokens| - index
  {
    hide RelationListFrom, NestedAtMost;
    if index < |tokens| {
      if tokens[index].text == "(" {
        RelationsNotCut(tokens, index + 1, nesting + 1, scope, ctes, depth);
      } else if tokens[index].text == ")" {
        RelationsNotCut(tokens, index + 1, if nesting > 0 then nesting - 1 else 0, scope, ctes, depth);
      } else if nesting == 0 && (WordAt(tokens, index, "from") || WordAt(tokens, index, "join")) {
        RelationListNotCut(tokens, index + 1, scope, ctes, depth);
        var list := RelationListFrom(tokens, index + 1, scope, ctes, depth, true);
        RelationsNotCut(tokens, list.next_index, nesting, scope, ctes, depth);
      } else if !(nesting == 0 && StopsJoins(tokens[index].Normalized())) {
        RelationsNotCut(tokens, index + 1, nesting, scope, ctes, depth);
      }
    }
  }

  // ---- What the relations are ----

  /** The analysis of what stands between the parentheses that open at some token. */
  function Nested(tokens: seq<SqlToken>, start: nat, scope: Scope, depth: nat, cut: bool): Analysis
    requires TextAt(tokens, start, "(")
  {
    Analyzed(ParenthesizedAt(tokens, start).inner, scope, depth + 1, cut)
  }

  /** A subquery of the statement, with the columns that its own analysis projects. */
  ghost predicate IsSubquery(relation: Relation, tokens: seq<SqlToken>, scope: Scope, depth: nat, cut: bool) {
    exists start: nat ::
      TextAt(tokens, start, "(")
      && relation == SubqueryOf(AliasAt(tokens, ParenthesizedAt(tokens, start).next_index),
                                Nested(tokens, start, scope, depth, cut))
  }

  /** The common table expression whose name stands at a token. */
  predicate IsCteAt(cte: Relation, tokens: seq<SqlToken>, index: nat, scope: Scope, depth: nat, cut: bool) {
    IsIdentifierAt(tokens, index) &&
    var columns := ColumnsAt(tokens, index + 1);
    && WordAt(tokens, columns.next_index, "as") && TextAt(tokens, columns.next_index + 1, "(")
    && cte == CteOf(Unquote(tokens[index].text), columns.names,
                    Nested(tokens, columns.next_index + 1, scope, depth, cut))
  }

  /** A common table expression of the statement, with its listed columns or those that its own analysis projects. */
  ghost predicate IsCte(cte: Relation, tokens: seq<SqlToken>, scope: Scope, depth: nat, cut: bool) {
    exists index: nat :: IsCteAt(cte, tokens, index, scope, depth, cut)
  }

  /** A relation that a name may stand for: a catalog table with its columns, an aliased expression, a subquery. */
  ghost predicate IsKnown(
    relation: Relation, tokens: seq<SqlToken>, scope: Scope, ctes: seq<Relation>, depth: nat, cut: bool)
  {
    match relation.origin
    case FromTable =>
      exists database, table ::
        && database in scope.catalog && table in scope.catalog[database]
        && var t := scope.catalog[database][table];
           relation == Relation(FromTable, t.name, Some(t.database), relation.alias, t.columns)
    case FromCte => exists cte <- ctes :: relation == cte.(alias := relation.alias)
    case FromSubquery => IsSubquery(relation, tokens, scope, depth, cut)
  }

  lemma {:induction false} CteNamedIsCte(ctes: seq<Relation>, name: string)
    ensures var r := CteNamed(ctes, name); r.Some? ==> r.value in ctes && Lower(r.value.name) == name
  {
    if ctes != [] { CteNamedIsCte(ctes[..|ctes| - 1], name); }
  }

  lemma NamedIsKnown(
    identifiers: seq<string>, alias: Option<string>, tokens: seq<SqlToken>, scope: Scope, ctes: seq<Relation>,
    depth: nat, cut: bool)
    requires forall cte <- ctes :: cte.origin == FromCte
    ensures var r := RelationOf(identifiers, alias, scope, ctes);
      r.Some? ==> IsKnown(r.value, tokens, scope, ctes, depth, cut)
  {
    if |identifiers| == 1 { CteNamedIsCte(ctes, Lower(identifiers[0])); }
  }

  lemma {:induction false} CtesAreCtes(tokens: seq<SqlToken>, index: nat, scope: Scope, depth: nat, cut: bool)
    requires index <= |tokens|
    ensures forall cte <- CtesFrom(tokens, index, scope, depth, cut).ctes ::
      cte.origin == FromCte && IsCte(cte, tokens, scope, depth, cut)
    decreases |tokens| - index
  {
    hide CtesFrom, ColumnsAt, ParenthesizedAt, Analyzed, Derived, Unquote, SqlToken.Normalized;
    if IsIdentifierAt(tokens, index) {
      CtesStep(tokens, index, scope, depth, cut);
      var columns := ColumnsAt(tokens, index + 1);
      var as_ := columns.next_index;
      if WordAt(tokens, as_, "as") && TextAt(tokens, as_ + 1, "(") {
        var subquery := ParenthesizedAt(tokens, as_ + 1);
        var cte := CteOf(Unquote(tokens[index].text), columns.names, Analyzed(subquery.inner, scope, depth + 1, cut));
        assert IsCteAt(cte, tokens, index, scope, depth, cut);
        if TextAt(tokens, subquery.next_index, ",") {
          CtesAreCtes(tokens, subquery.next_index + 1, scope, depth, cut);
        }
        hide CteOf, IsCteAt;
      }
    } else {
      NoCtes(tokens, index, scope, depth, cut);
    }
  }

  lemma NoCtes(tokens: seq<SqlToken>, index: nat, scope: Scope, depth: nat, cut: bool)
    requires index <= |tokens| && !IsIdentifierAt(tokens, index)
    ensures CtesFrom(tokens, index, scope, depth, cut) == Ctes([], index)
  {
  }

  lemma RelationIsKnown(
    tokens: seq<SqlToken>, start: nat, scope: Scope, ctes: seq<Relation>, depth: nat, cut: bool)
    requires start <= |tokens| && forall cte <- ctes :: cte.origin == FromCte
    ensures var r := RelationAt(tokens, start, scope, ctes, depth, cut);
      r.Some? ==> IsKnown(r.value.relation, tokens, scope, ctes, depth, cut)
  {
    hide Analyzed, AliasAt, RelationOf, InnerEnd, QualifiedNameAt;
    if TextAt(tokens, start, "(") {
      assert Nested(tokens, start, scope, depth, cut)
          == Analyzed(ParenthesizedAt(tokens, start).inner, scope, depth + 1, cut);
    } else if start < |tokens| && QualifiedNameAt(tokens, start).Some? {
      var path := QualifiedNameAt(tokens, start).value;
      var alias := AliasAt(tokens, path.next_index);
      NamedIsKnown(path.identifiers, if alias.Some? then Some(alias.value.name) else None, tokens, scope, ctes,
        depth, cut);
    }
  }

  lemma {:induction false} RelationListIsKnown(
    tokens: seq<SqlToken>, index: nat, scope: Scope, ctes: seq<Relation>, depth: nat, cut: bool)
    requires index <= |tokens| && forall cte <- ctes :: cte.origin == FromCte
    ensures forall r <- RelationListFrom(tokens, index, scope, ctes, depth, cut).relations ::
      IsKnown(r, tokens, scope, ctes, depth, cut)
    decreases |tokens| - index
  {
    hide RelationAt, IsKnown;
    RelationIsKnown(tokens, index, scope, ctes, depth, cut);
    var found := RelationAt(tokens, index, scope, ctes, depth, cut);
    if found.Some? && TextAt(tokens, found.value.next_index, ",") {
      RelationListIsKnown(tokens, found.value.next_index + 1, scope, ctes, depth, cut);
    }
  }

  lemma {:induction false} RelationsFromAreKnown(
    tokens: seq<SqlToken>, index: nat, nesting: nat, scope: Scope, ctes: seq<Relation>, depth: nat, cut: bool)
    requires index <= |tokens| && forall cte <- ctes :: cte.origin == FromCte
    ensures forall r <- RelationsFrom(tokens, index, nesting, scope, ctes, depth, cut) ::
      IsKnown(r, tokens, scope, ctes, depth, cut)
    decreases |tokens| - index
  {
    hide RelationListFrom, IsKnown;
    if index < |tokens| {
      if tokens[index].text == "(" {
        RelationsFromAreKnown(tokens, index + 1, nesting + 1, scope, ctes, depth, cut);
      } else if tokens[index].text == ")" {
        RelationsFromAreKnown(tokens, index + 1, if nesting > 0 then nesting - 1 else 0, scope, ctes, depth, cut);
      } else if nesting == 0 && (WordAt(tokens, index, "from") || WordAt(tokens, index, "join")) {
        RelationListIsKnown(tokens, index + 1, scope, ctes, depth, cut);
        var list := RelationListFrom(tokens, index + 1, scope, ctes, depth, cut);
        RelationsFromAreKnown(tokens, list.next_index, nesting, scope, ctes, depth, cut);
      } else if !(nesting == 0 && StopsJoins(tokens[index].Normalized())) {
        RelationsFromAreKnown(tokens, index + 1, nesting, scope, ctes, depth, cut);
      }
    }
  }

  /**
   * Every relation of an analysis is a catalog table, one of its own common table expressions, or a subquery; and the
   * columns of the latter two are those listed, or those that the analysis of their own query projects.
   */
  lemma RelationsAreKnown(tokens: seq<SqlToken>, scope: Scope, depth: nat, cut: bool)
    ensures var a := Analyzed(tokens, scope, depth, cut);
      && (forall cte <- a.ctes :: cte.origin == FromCte && IsCte(cte, tokens, scope, depth, cut))
      && (forall r <- a.relations :: IsKnown(r, tokens, scope, a.ctes, depth, cut))
  {
    hide CtesFrom, RelationsFrom, Projection, IsKnown, IsCte;
    if tokens != [] {
      if WordAt(tokens, 0, "with") {
        CtesAreCtes(tokens, if WordAt(tokens, 1, "recursive") then 2 else 1, scope, depth, cut);
      }
      var ctes := CtesOf(tokens, scope, depth, cut);
      RelationsFromAreKnown(tokens, ctes.next_index, 0, scope, ctes.ctes, depth, cut);
    }
  }
}
