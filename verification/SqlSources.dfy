/** Statements built from their parts: the relations that the analyser has to find in them. */
module SqlSources {
  import opened SqlAnalysis
  import opened SqlDepth
  import opened SqlGroups
  import opened SqlNames
  import opened SqlTokens
  import opened Text

  // ---- The parts of a statement ----

  datatype AliasForm = NoAlias | PlainAlias(token: SqlToken) | AsAlias(word: SqlToken, token: SqlToken)

  /** What stands after `from`, `join` or a comma: a path to a catalog table, the name of an expression, a subquery. */
  datatype Source =
    | TableSource(path: seq<SqlToken>, table: CatalogTable, alias: AliasForm)
    | CteSource(name: SqlToken, cte: Relation, alias: AliasForm)
    | QuerySource(inner: seq<SqlToken>, alias: AliasForm)

  /** A statement outside parentheses: other tokens, whole pairs of parentheses, and lists of sources. */
  datatype Part = Other(token: SqlToken) | Group(inner: seq<SqlToken>) | Sources(word: SqlToken, sources: seq<Source>)

  const Comma := SqlToken(PunctuationToken, ",")

  const ClauseWords := {
    "where", "group", "having", "order", "limit", "offset", "fetch", "union", "intersect", "except" }
  const JoinWords := { "for", "join", "left", "right", "inner", "outer", "cross", "on", "using" }

  function DottedTokens(path: seq<SqlToken>): seq<SqlToken> {
    if path == [] then [] else if |path| == 1 then path else [path[0], Dot] + DottedTokens(path[1..])
  }

  function AliasTokens(alias: AliasForm): seq<SqlToken> {
    match alias
    case NoAlias => []
    case PlainAlias(token) => [token]
    case AsAlias(word, token) => [word, token]
  }

  function NameTokens(source: Source): seq<SqlToken> {
    match source
    case TableSource(path, _, _) => DottedTokens(path)
    case CteSource(name, _, _) => [name]
    case QuerySource(inner, _) => [OpenMark] + inner + [CloseMark]
  }

  function SourceTokens(source: Source): seq<SqlToken> { NameTokens(source) + AliasTokens(source.alias) }

  function ListTokens(sources: seq<Source>): seq<SqlToken> {
    if sources == [] then []
    else if |sources| == 1 then SourceTokens(sources[0])
    else SourceTokens(sources[0]) + [Comma] + ListTokens(sources[1..])
  }

  function PartTokens(part: Part): seq<SqlToken> {
    match part
    case Other(token) => [token]
    case Group(inner) => [OpenMark] + inner + [CloseMark]
    case Sources(word, sources) => [word] + ListTokens(sources)
  }

  function StatementTokens(parts: seq<Part>): seq<SqlToken> {
    if parts == [] then [] else PartTokens(parts[0]) + StatementTokens(parts[1..])
  }

  // ---- What is well formed ----

  predicate Named(token: SqlToken) { token.kind == IdentifierToken || token.kind == WordToken }

  /** A name or word; no token of these kinds is a mark. */
  predicate IsName(token: SqlToken) { Named(token) && token.text !in {"(", ")", ",", ".", "*"} }

  function NameOf(token: SqlToken): string { Unquote(token.text) }

  predicate Parenthesis(token: SqlToken) { token.text == "(" || token.text == ")" }

  predicate FineAlias(alias: AliasForm) {
    match alias
    case NoAlias => true
    case PlainAlias(token) =>
      IsName(token) && token.Normalized() != "as" && Lower(NameOf(token)) !in ClauseWords + JoinWords
    case AsAlias(word, token) => IsName(word) && word.Normalized() == "as" && IsName(token)
  }

  /** The table is the one that the path names, in the current database when it names none. */
  ghost predicate LeadsTo(path: seq<SqlToken>, table: CatalogTable, scope: Scope, ctes: seq<Relation>) {
    var n := |path|;
    && n > 0 && (forall token <- path :: IsName(token))
    && (n == 1 ==> scope.database.Some? && scope.database.value != ""
                   && forall cte <- ctes :: Lower(cte.name) != Lower(NameOf(path[0])))
    && var database := Lower(if n == 1 then scope.database.value else NameOf(path[n - 2]));
       var name := Lower(NameOf(path[n - 1]));
       database in scope.catalog && name in scope.catalog[database] && scope.catalog[database][name] == table
  }

  /** The expression is the last one of that name, in whatever case. */
  ghost predicate LastNamed(ctes: seq<Relation>, name: string, cte: Relation) {
    exists i :: 0 <= i < |ctes| && ctes[i] == cte && Lower(cte.name) == Lower(name)
                && forall j :: i < j < |ctes| ==> Lower(ctes[j].name) != Lower(name)
  }

  ghost predicate FineSource(source: Source, scope: Scope, ctes: seq<Relation>) {
    && FineAlias(source.alias)
    && match source
       case TableSource(path, table, _) => LeadsTo(path, table, scope, ctes)
       case CteSource(name, cte, _) => IsName(name) && LastNamed(ctes, NameOf(name), cte)
       case QuerySource(inner, _) => Balanced(inner)
  }

  /** What may stand after the last source of a list: nothing that goes on with it. */
  predicate Ends(source: Source, rest: seq<SqlToken>) {
    rest != [] ==>
      && rest[0].text != "," && rest[0].text != "."
      && (source.alias.NoAlias? ==>
            rest[0].Normalized() != "as" && (Named(rest[0]) ==> Lower(NameOf(rest[0])) in ClauseWords + JoinWords))
  }

  ghost predicate FineStatement(parts: seq<Part>, tail: seq<SqlToken>, scope: Scope, ctes: seq<Relation>) {
    if parts == [] then
      tail != [] ==>
        && !Parenthesis(tail[0]) && tail[0].Normalized() !in {"from", "join"}
        && tail[0].Normalized() in ClauseWords + {"returning"}
    else
      && FineStatement(parts[1..], tail, scope, ctes)
      && match parts[0]
         case Other(token) =>
           !Parenthesis(token) && token.Normalized() !in ClauseWords + {"from", "join", "returning"}
         case Group(inner) => Balanced(inner)
         case Sources(word, sources) =>
           && !Parenthesis(word) && word.Normalized() in {"from", "join"}
           && sources != [] && (forall source <- sources :: FineSource(source, scope, ctes))
           && Ends(sources[|sources| - 1], StatementTokens(parts[1..]) + tail)
  }

  // ---- What is to be found ----

  function AliasName(alias: AliasForm): Option<string> {
    match alias
    case NoAlias => None
    case PlainAlias(token) => Some(NameOf(token))
    case AsAlias(_, token) => Some(NameOf(token))
  }

  /** The relation of a source: the table's columns, the expression's, or those that the subquery projects. */
  function Meant(source: Source, scope: Scope, depth: nat, cut: bool): Relation {
    var alias := AliasName(source.alias);
    match source
    case TableSource(_, table, _) => Relation(FromTable, table.name, Some(table.database), alias, table.columns)
    case CteSource(_, cte, _) => Relation(cte.origin, cte.name, cte.database, alias, cte.columns)
    case QuerySource(inner, _) =>
      Relation(FromSubquery, if alias.Some? then alias.value else "subquery", None, alias,
        Analyzed(inner, scope, depth + 1, cut).projection)
  }

  function AllMeant(sources: seq<Source>, scope: Scope, depth: nat, cut: bool): (r: seq<Relation>)
    ensures |r| == |sources| && forall i :: 0 <= i < |sources| ==> r[i] == Meant(sources[i], scope, depth, cut)
  {
    seq(|sources|, i requires 0 <= i < |sources| => Meant(sources[i], scope, depth, cut))
  }

  /** All sources of a statement, in their order. */
  function SourcesOf(parts: seq<Part>): seq<Source> {
    if parts == [] then []
    else (if parts[0].Sources? then parts[0].sources else []) + SourcesOf(parts[1..])
  }

  // ---- One source ----

  lemma StopWordsAre(word: string)
    ensures StopsAlias(word) <==> word in ClauseWords + JoinWords
    ensures StopsJoins(word) <==> word in ClauseWords + {"returning"}
  {
  }

  lemma AliasIsRead(tokens: seq<SqlToken>, i: nat, source: Source, rest: seq<SqlToken>)
    requires i <= |tokens| && tokens[i..] == AliasTokens(source.alias) + rest
    requires FineAlias(source.alias) && (Ends(source, rest) || (rest != [] && rest[0] == Comma))
    ensures AliasAt(tokens, i)
         == match source.alias
            case NoAlias => None
            case PlainAlias(token) => Some(Alias(NameOf(token), i + 1))
            case AsAlias(_, token) => Some(Alias(NameOf(token), i + 2))
  {
    var form := source.alias;
    hide Lower, Unquote, StopsAlias;
    match form
    case NoAlias =>
      if rest != [] {
        assert tokens[i] == tokens[i..][0];
        StopWordsAre(Lower(Unquote(tokens[i].text)));
      }
    case PlainAlias(token) =>
      assert tokens[i] == tokens[i..][0];
      StopWordsAre(Lower(Unquote(token.text)));
    case AsAlias(word, token) =>
      assert tokens[i] == tokens[i..][0] && tokens[i + 1] == tokens[i..][1];
  }

  /** What stands at a place, and what comes after it. */
  lemma Stands(tokens: seq<SqlToken>, i: nat, a: seq<SqlToken>, b: seq<SqlToken>)
    requires i <= |tokens| && tokens[i..] == a + b
    ensures i + |a| + |b| == |tokens| && tokens[i + |a|..] == b
    ensures forall k :: 0 <= k < |a| ==> tokens[i + k] == a[k]
  {
    assert |tokens[i..]| == |a| + |b|;
    assert forall k :: 0 <= k < |a| + |b| ==> tokens[i + k] == (a + b)[k];
  }

  lemma OneNameIsRead(tokens: seq<SqlToken>, i: nat)
    requires i < |tokens| && Named(tokens[i])
    requires TextAt(tokens, i + 1, ".") ==> i + 2 < |tokens| && !Named(tokens[i + 2])
    ensures QualifiedNameAt(tokens, i) == Some(QualifiedName([NameOf(tokens[i])], i + 1))
  {
    hide Unquote;
    assert DottedFrom(tokens, i + 1) == QualifiedName([], i + 1);
    assert [NameOf(tokens[i])] + [] == [NameOf(tokens[i])];
  }

  lemma NameThenDot(tokens: seq<SqlToken>, i: nat)
    requires i + 2 < |tokens| && Named(tokens[i]) && tokens[i + 1] == Dot && Named(tokens[i + 2])
    ensures
      var more := QualifiedNameAt(tokens, i + 2);
      && more.Some?
      && QualifiedNameAt(tokens, i)
         == Some(QualifiedName([NameOf(tokens[i])] + more.value.identifiers, more.value.next_index))
  {
    hide Unquote;
  }

  /** No dot with a name after it. */
  predicate EndsPath(rest: seq<SqlToken>) {
    rest != [] && rest[0].text == "." ==> |rest| > 1 && !Named(rest[1])
  }

  lemma {:induction false} DottedAreRead(tokens: seq<SqlToken>, i: nat, path: seq<SqlToken>, rest: seq<SqlToken>)
    returns (names: seq<string>)
    requires path != [] && (forall token <- path :: IsName(token)) && EndsPath(rest)
    requires i <= |tokens| && tokens[i..] == DottedTokens(path) + rest
    ensures QualifiedNameAt(tokens, i) == Some(QualifiedName(names, i + |DottedTokens(path)|))
    ensures |names| == |path| && forall k :: 0 <= k < |path| ==> names[k] == NameOf(path[k])
    decreases |path|
  {
    hide Unquote, QualifiedNameAt;
    Stands(tokens, i, DottedTokens(path), rest);
    DottedStart(path);
    assert tokens[i + 0] == path[0];
    assert path[0] in path;
    if |path| == 1 {
      if rest != [] { assert tokens[i + 1] == tokens[i + 1..][0]; }
      if |rest| > 1 { assert tokens[i + 2] == tokens[i + 1..][1]; }
      OneNameIsRead(tokens, i);
      names := [NameOf(path[0])];
    } else {
      assert path[1] in path && DottedTokens(path) == [path[0], Dot] + DottedTokens(path[1..]);
      DottedStart(path[1..]);
      assert tokens[i..] == [path[0], Dot] + (DottedTokens(path[1..]) + rest);
      hide DottedTokens;
      Stands(tokens, i, [path[0], Dot], DottedTokens(path[1..]) + rest);
      assert tokens[i + 2] == tokens[i + 2..][0];
      var more := DottedAreRead(tokens, i + 2, path[1..], rest);
      NameThenDot(tokens, i);
      names := [NameOf(path[0])] + more;
    }
  }

  lemma {:induction false} LastNamedIs(ctes: seq<Relation>, name: string, cte: Relation)
    requires LastNamed(ctes, name, cte)
    ensures CteNamed(ctes, Lower(name)) == Some(cte)
  {
    hide Lower;
    var n := |ctes| - 1;
    if Lower(ctes[n].name) != Lower(name) {
      var i :| 0 <= i < |ctes| && ctes[i] == cte && Lower(cte.name) == Lower(name)
               && forall j :: i < j < |ctes| ==> Lower(ctes[j].name) != Lower(name);
      assert ctes[..n][i] == cte;
      LastNamedIs(ctes[..n], name, cte);
    }
  }

  lemma {:induction false} NoneNamed(ctes: seq<Relation>, name: string)
    requires forall cte <- ctes :: Lower(cte.name) != name
    ensures CteNamed(ctes, name) == None
  {
    hide Lower;
    if ctes != [] { NoneNamed(ctes[..|ctes| - 1], name); }
  }

  lemma PathIsMeant(
    path: seq<SqlToken>, names: seq<string>, table: CatalogTable, scope: Scope, ctes: seq<Relation>,
    alias: Option<string>)
    requires LeadsTo(path, table, scope, ctes)
    requires |names| == |path| && forall k :: 0 <= k < |path| ==> names[k] == NameOf(path[k])
    ensures RelationOf(names, alias, scope, ctes)
         == Some(Relation(FromTable, table.name, Some(table.database), alias, table.columns))
  {
    hide Lower, Unquote;
    if |path| == 1 { NoneNamed(ctes, Lower(names[0])); }
  }

  lemma GroupStands(tokens: seq<SqlToken>, i: nat, inner: seq<SqlToken>, rest: seq<SqlToken>)
    requires i <= |tokens| && tokens[i..] == [OpenMark] + inner + [CloseMark] + rest
    ensures
      var end := i + 1 + |inner|;
      && end < |tokens| && tokens[i] == OpenMark && tokens[i + 1..end] == inner && tokens[end] == CloseMark
      && tokens[end + 1..] == rest
  {
    var whole := [OpenMark] + inner + [CloseMark] + rest;
    assert |tokens| == i + |whole|;
    assert forall k :: 0 <= k < |whole| ==> tokens[i + k] == tokens[i..][k];
    assert forall k :: 0 <= k < |inner| ==> whole[1 + k] == inner[k];
    assert whole[1 + |inner|] == CloseMark;
  }

  lemma OpensGroup(tokens: seq<SqlToken>, i: nat, inner: seq<SqlToken>, rest: seq<SqlToken>)
    requires Balanced(inner) && i <= |tokens| && tokens[i..] == [OpenMark] + inner + [CloseMark] + rest
    ensures i < |tokens| && tokens[i].text == "("
    ensures ParenthesizedAt(tokens, i) == Parenthesized(inner, i + |inner| + 2)
  {
    hide Excess, Balanced;
    GroupStands(tokens, i, inner, rest);
    BalancedIsPassed(tokens, i + 1, inner, 1, |inner|);
    BalancedEnds(inner);
    assert InnerEnd(tokens, i + 1 + |inner|, 1) == i + 1 + |inner|;
  }

  lemma BalancedEnds(inner: seq<SqlToken>)
    requires Balanced(inner)
    ensures Excess(inner, 0, |inner|) == 0
  {
  }

  /** Where the name of a source ends, its alias begins. */
  lemma AliasComesNext(tokens: seq<SqlToken>, i: nat, source: Source, rest: seq<SqlToken>)
    requires i <= |tokens| && tokens[i..] == SourceTokens(source) + rest
    ensures
      var after, j := AliasTokens(source.alias) + rest, i + |NameTokens(source)|;
      && tokens[i..] == NameTokens(source) + after && j <= |tokens| && tokens[j..] == after
      && |SourceTokens(source)| == |NameTokens(source)| + |AliasTokens(source.alias)|
  {
    hide NameTokens, AliasTokens;
    var after, j := AliasTokens(source.alias) + rest, i + |NameTokens(source)|;
    assert tokens[i..] == NameTokens(source) + after;
    assert |tokens| == i + |NameTokens(source)| + |after|;
    assert tokens[j..] == tokens[i..][|NameTokens(source)|..] == after;
  }

  /** What follows the name of a source does not go on with it. */
  lemma NameEnds(source: Source, rest: seq<SqlToken>)
    requires FineAlias(source.alias) && (Ends(source, rest) || (rest != [] && rest[0] == Comma))
    ensures var after := AliasTokens(source.alias) + rest; after != [] ==> after[0].text != "."
  {
    hide Lower, Unquote;
  }

  lemma PathIsRead(
    tokens: seq<SqlToken>, i: nat, path: seq<SqlToken>, after: seq<SqlToken>, scope: Scope, ctes: seq<Relation>,
    depth: nat, cut: bool)
    returns (names: seq<string>)
    requires path != [] && (forall token <- path :: IsName(token)) && (after != [] ==> after[0].text != ".")
    requires i <= |tokens| && tokens[i..] == DottedTokens(path) + after
    ensures |names| == |path| && forall k :: 0 <= k < |path| ==> names[k] == NameOf(path[k])
    ensures
      var alias := AliasAt(tokens, i + |DottedTokens(path)|);
      RelationAt(tokens, i, scope, ctes, depth, cut)
      == match RelationOf(names, if alias.Some? then Some(alias.value.name) else None, scope, ctes)
         case None => None
         case Some(relation) =>
           Some(Found(relation, if alias.Some? then alias.value.next_index else i + |DottedTokens(path)|))
  {
    hide Lower, Unquote, RelationOf, AliasAt;
    DottedStart(path);
    assert tokens[i] == tokens[i..][0];
    assert path[0] in path;
    names := DottedAreRead(tokens, i, path, after);
    hide DottedTokens, QualifiedNameAt;
  }

  lemma TableIsRead(
    tokens: seq<SqlToken>, i: nat, source: Source, rest: seq<SqlToken>, scope: Scope, ctes: seq<Relation>, depth: nat,
    cut: bool)
    requires i <= |tokens| && tokens[i..] == SourceTokens(source) + rest && source.TableSource?
    requires FineSource(source, scope, ctes) && (Ends(source, rest) || (rest != [] && rest[0] == Comma))
    ensures RelationAt(tokens, i, scope, ctes, depth, cut)
         == Some(Found(Meant(source, scope, depth, cut), i + |SourceTokens(source)|))
  {
    hide RelationAt, Lower, Unquote, LeadsTo, Ends, DottedTokens, AliasAt, RelationOf;
    var TableSource(path, table, alias) := source;
    AliasComesNext(tokens, i, source, rest);
    AliasIsRead(tokens, i + |NameTokens(source)|, source, rest);
    NameEnds(source, rest);
    PathHasNames(path, table, scope, ctes);
    var names := PathIsRead(tokens, i, path, AliasTokens(alias) + rest, scope, ctes, depth, cut);
    PathIsMeant(path, names, table, scope, ctes, AliasName(alias));
  }

  lemma CteIsRead(
    tokens: seq<SqlToken>, i: nat, source: Source, rest: seq<SqlToken>, scope: Scope, ctes: seq<Relation>, depth: nat,
    cut: bool)
    requires i <= |tokens| && tokens[i..] == SourceTokens(source) + rest && source.CteSource?
    requires FineSource(source, scope, ctes) && (Ends(source, rest) || (rest != [] && rest[0] == Comma))
    ensures RelationAt(tokens, i, scope, ctes, depth, cut)
         == Some(Found(Meant(source, scope, depth, cut), i + |SourceTokens(source)|))
  {
    hide RelationAt, Lower, Unquote, LastNamed, Ends, AliasAt;
    var CteSource(name, cte, alias) := source;
    AliasComesNext(tokens, i, source, rest);
    AliasIsRead(tokens, i + |NameTokens(source)|, source, rest);
    NameEnds(source, rest);
    assert DottedTokens([name]) == [name];
    var names := PathIsRead(tokens, i, [name], AliasTokens(alias) + rest, scope, ctes, depth, cut);
    assert names == [NameOf(name)];
    LastNamedIs(ctes, NameOf(name), cte);
  }

  lemma SubqueryIsRead(
    tokens: seq<SqlToken>, i: nat, inner: seq<SqlToken>, after: seq<SqlToken>, scope: Scope, ctes: seq<Relation>,
    depth: nat, cut: bool)
    requires Balanced(inner) && i <= |tokens| && tokens[i..] == [OpenMark] + inner + [CloseMark] + after
    ensures
      var alias := AliasAt(tokens, i + |inner| + 2);
      RelationAt(tokens, i, scope, ctes, depth, cut)
      == Some(Found(SubqueryOf(alias, Analyzed(inner, scope, depth + 1, cut)),
           if alias.Some? then alias.value.next_index else i + |inner| + 2))
  {
    hide Analyzed, Balanced, AliasAt, ParenthesizedAt, SubqueryOf;
    OpensGroup(tokens, i, inner, after);
  }

  lemma QueryIsRead(
    tokens: seq<SqlToken>, i: nat, source: Source, rest: seq<SqlToken>, scope: Scope, ctes: seq<Relation>, depth: nat,
    cut: bool)
    requires i <= |tokens| && tokens[i..] == SourceTokens(source) + rest && source.QuerySource?
    requires FineSource(source, scope, ctes) && (Ends(source, rest) || (rest != [] && rest[0] == Comma))
    ensures RelationAt(tokens, i, scope, ctes, depth, cut)
         == Some(Found(Meant(source, scope, depth, cut), i + |SourceTokens(source)|))
  {
    hide Lower, Unquote, Analyzed, Balanced, Ends, AliasAt, RelationAt;
    var QuerySource(inner, alias) := source;
    AliasComesNext(tokens, i, source, rest);
    AliasIsRead(tokens, i + |NameTokens(source)|, source, rest);
    SubqueryIsRead(tokens, i, inner, AliasTokens(alias) + rest, scope, ctes, depth, cut);
  }

  /** One source is read to its end, as the relation that it means. */
  lemma SourceIsRead(
    tokens: seq<SqlToken>, i: nat, source: Source, rest: seq<SqlToken>, scope: Scope, ctes: seq<Relation>, depth: nat,
    cut: bool)
    requires i <= |tokens| && tokens[i..] == SourceTokens(source) + rest
    requires FineSource(source, scope, ctes) && (Ends(source, rest) || (rest != [] && rest[0] == Comma))
    ensures RelationAt(tokens, i, scope, ctes, depth, cut)
         == Some(Found(Meant(source, scope, depth, cut), i + |SourceTokens(source)|))
  {
    hide *;
    match source
    case TableSource(_, _, _) => TableIsRead(tokens, i, source, rest, scope, ctes, depth, cut);
    case CteSource(_, _, _) => CteIsRead(tokens, i, source, rest, scope, ctes, depth, cut);
    case QuerySource(_, _) => QueryIsRead(tokens, i, source, rest, scope, ctes, depth, cut);
  }

  lemma PathHasNames(path: seq<SqlToken>, table: CatalogTable, scope: Scope, ctes: seq<Relation>)
    requires LeadsTo(path, table, scope, ctes)
    ensures path != [] && forall token <- path :: IsName(token)
  {
  }

  lemma DottedStart(path: seq<SqlToken>)
    requires path != []
    ensures DottedTokens(path) != [] && DottedTokens(path)[0] == path[0]
  {
  }

  // ---- Lists of sources ----

  lemma CommaFollows(
    tokens: seq<SqlToken>, i: nat, source: Source, more: seq<SqlToken>, scope: Scope, ctes: seq<Relation>, depth: nat,
    cut: bool)
    requires i <= |tokens| && tokens[i..] == SourceTokens(source) + [Comma] + more
    requires FineSource(source, scope, ctes)
    ensures
      var next := i + |SourceTokens(source)|;
      && next < |tokens| && tokens[next + 1..] == more
      && var list := RelationListFrom(tokens, next + 1, scope, ctes, depth, cut);
         RelationListFrom(tokens, i, scope, ctes, depth, cut)
         == FoundList([Meant(source, scope, depth, cut)] + list.relations, list.next_index)
  {
    hide SourceTokens, FineSource, Meant, RelationAt;
    var next := i + |SourceTokens(source)|;
    assert |tokens| == i + |SourceTokens(source)| + 1 + |more|;
    assert tokens[next] == tokens[i..][|SourceTokens(source)|] == Comma;
    assert tokens[next + 1..] == tokens[i..][|SourceTokens(source)| + 1..] == more;
    assert tokens[i..] == SourceTokens(source) + ([Comma] + more);
    SourceIsRead(tokens, i, source, [Comma] + more, scope, ctes, depth, cut);
  }

  lemma FirstOfMany(sources: seq<Source>, rest: seq<SqlToken>, scope: Scope, depth: nat, cut: bool)
    requires |sources| > 1
    ensures ListTokens(sources) + rest == SourceTokens(sources[0]) + [Comma] + (ListTokens(sources[1..]) + rest)
    ensures |ListTokens(sources)| == |SourceTokens(sources[0])| + 1 + |ListTokens(sources[1..])|
    ensures AllMeant(sources, scope, depth, cut)
         == [Meant(sources[0], scope, depth, cut)] + AllMeant(sources[1..], scope, depth, cut)
  {
    hide SourceTokens, Meant;
  }

  lemma OnlyOne(sources: seq<Source>, scope: Scope, depth: nat, cut: bool)
    requires |sources| == 1
    ensures ListTokens(sources) == SourceTokens(sources[0])
    ensures AllMeant(sources, scope, depth, cut) == [Meant(sources[0], scope, depth, cut)]
  {
    hide SourceTokens, Meant;
  }

  lemma {:induction false} ListIsRead(
    tokens: seq<SqlToken>, i: nat, sources: seq<Source>, rest: seq<SqlToken>, scope: Scope, ctes: seq<Relation>,
    depth: nat, cut: bool)
    requires i <= |tokens| && tokens[i..] == ListTokens(sources) + rest
    requires sources != [] && (forall source <- sources :: FineSource(source, scope, ctes))
    requires Ends(sources[|sources| - 1], rest)
    ensures i + |ListTokens(sources)| <= |tokens|
    ensures RelationListFrom(tokens, i, scope, ctes, depth, cut)
         == FoundList(AllMeant(sources, scope, depth, cut), i + |ListTokens(sources)|)
    decreases |sources|
  {
    hide *;
    var first := sources[0];
    assert first in sources;
    if |sources| == 1 {
      OnlyOne(sources, scope, depth, cut);
      OneIsListed(tokens, i, first, rest, scope, ctes, depth, cut);
    } else {
      FirstOfMany(sources, rest, scope, depth, cut);
      CommaFollows(tokens, i, first, ListTokens(sources[1..]) + rest, scope, ctes, depth, cut);
      assert forall source <- sources[1..] :: source in sources;
      ListIsRead(tokens, i + |SourceTokens(first)| + 1, sources[1..], rest, scope, ctes, depth, cut);
    }
  }

  lemma ListEnds(tokens: seq<SqlToken>, next: nat, source: Source, rest: seq<SqlToken>)
    requires next <= |tokens| && tokens[next..] == rest && Ends(source, rest)
    ensures !TextAt(tokens, next, ",")
  {
    if rest != [] { assert tokens[next] == tokens[next..][0]; }
  }

  lemma OneIsListed(
    tokens: seq<SqlToken>, i: nat, source: Source, rest: seq<SqlToken>, scope: Scope, ctes: seq<Relation>, depth: nat,
    cut: bool)
    requires i <= |tokens| && tokens[i..] == SourceTokens(source) + rest
    requires FineSource(source, scope, ctes) && Ends(source, rest)
    ensures i + |SourceTokens(source)| <= |tokens|
    ensures RelationListFrom(tokens, i, scope, ctes, depth, cut)
         == FoundList([Meant(source, scope, depth, cut)], i + |SourceTokens(source)|)
  {
    hide SourceTokens, FineSource, Meant, RelationAt, Ends;
    SourceIsRead(tokens, i, source, rest, scope, ctes, depth, cut);
    var next := i + |SourceTokens(source)|;
    assert |tokens| == next + |rest|;
    assert tokens[next..] == tokens[i..][|SourceTokens(source)|..] == rest;
    ListEnds(tokens, next, source, rest);
  }

  // ---- Statements ----

  /** A pair of parentheses is passed over, at any depth. */
  lemma {:induction false} BalancedIsSkipped(
    tokens: seq<SqlToken>, i: nat, inner: seq<SqlToken>, k: nat, nesting: nat, scope: Scope, ctes: seq<Relation>,
    depth: nat, cut: bool)
    requires i + |inner| <= |tokens| && tokens[i..i + |inner|] == inner && Balanced(inner)
    requires k <= |inner| && nesting > 0
    ensures Excess(inner, 0, k) >= 0
    ensures RelationsFrom(tokens, i, nesting, scope, ctes, depth, cut)
         == RelationsFrom(tokens, i + k, nesting + Excess(inner, 0, k), scope, ctes, depth, cut)
    decreases k
  {
    if k > 0 {
      BalancedIsSkipped(tokens, i, inner, k - 1, nesting, scope, ctes, depth, cut);
      assert inner[k - 1] == tokens[i + k - 1];
      hide RelationListFrom;
      NestedStep(tokens, i + k - 1, nesting + Excess(inner, 0, k - 1), scope, ctes, depth, cut);
    }
  }

  lemma NestedStep(
    tokens: seq<SqlToken>, i: nat, nesting: nat, scope: Scope, ctes: seq<Relation>, depth: nat, cut: bool)
    requires i < |tokens| && nesting > 0
    ensures nesting + Weight(tokens[i]) >= 0
    ensures RelationsFrom(tokens, i, nesting, scope, ctes, depth, cut)
         == RelationsFrom(tokens, i + 1, nesting + Weight(tokens[i]), scope, ctes, depth, cut)
  {
    hide RelationListFrom;
  }

  lemma GroupIsSkipped(
    tokens: seq<SqlToken>, i: nat, inner: seq<SqlToken>, rest: seq<SqlToken>, scope: Scope, ctes: seq<Relation>,
    depth: nat, cut: bool)
    requires i <= |tokens| && tokens[i..] == [OpenMark] + inner + [CloseMark] + rest && Balanced(inner)
    ensures i + |inner| + 2 <= |tokens|
    ensures RelationsFrom(tokens, i, 0, scope, ctes, depth, cut)
         == RelationsFrom(tokens, i + |inner| + 2, 0, scope, ctes, depth, cut)
  {
    hide RelationListFrom, Excess, Balanced;
    GroupStands(tokens, i, inner, rest);
    BalancedEnds(inner);
    BalancedIsSkipped(tokens, i + 1, inner, |inner|, 1, scope, ctes, depth, cut);
    NestedStep(tokens, i + 1 + |inner|, 1, scope, ctes, depth, cut);
  }

  lemma OtherIsSkipped(
    tokens: seq<SqlToken>, i: nat, scope: Scope, ctes: seq<Relation>, depth: nat, cut: bool)
    requires i < |tokens| && !Parenthesis(tokens[i])
    requires tokens[i].Normalized() !in ClauseWords + {"from", "join", "returning"}
    ensures RelationsFrom(tokens, i, 0, scope, ctes, depth, cut)
         == RelationsFrom(tokens, i + 1, 0, scope, ctes, depth, cut)
  {
    hide RelationListFrom, SqlToken.Normalized, StopsJoins;
    StopWordsAre(tokens[i].Normalized());
  }

  lemma ClauseEnds(tokens: seq<SqlToken>, i: nat, scope: Scope, ctes: seq<Relation>, depth: nat, cut: bool)
    requires i < |tokens| && !Parenthesis(tokens[i]) && tokens[i].Normalized() !in {"from", "join"}
    requires tokens[i].Normalized() in ClauseWords + {"returning"}
    ensures RelationsFrom(tokens, i, 0, scope, ctes, depth, cut) == []
  {
    hide RelationListFrom, SqlToken.Normalized, StopsJoins;
    StopWordsAre(tokens[i].Normalized());
  }

  lemma SourcesAreRead(
    tokens: seq<SqlToken>, i: nat, word: SqlToken, sources: seq<Source>, rest: seq<SqlToken>, scope: Scope,
    ctes: seq<Relation>, depth: nat, cut: bool)
    requires i <= |tokens| && tokens[i..] == [word] + ListTokens(sources) + rest
    requires !Parenthesis(word) && word.Normalized() in {"from", "join"}
    requires sources != [] && (forall source <- sources :: FineSource(source, scope, ctes))
    requires Ends(sources[|sources| - 1], rest)
    ensures i + 1 + |ListTokens(sources)| <= |tokens|
    ensures RelationsFrom(tokens, i, 0, scope, ctes, depth, cut)
         == AllMeant(sources, scope, depth, cut)
            + RelationsFrom(tokens, i + 1 + |ListTokens(sources)|, 0, scope, ctes, depth, cut)
  {
    hide RelationListFrom, SqlToken.Normalized, ListTokens, FineSource, AllMeant, Ends;
    assert tokens[i] == tokens[i..][0] == word;
    assert tokens[i + 1..] == tokens[i..][1..] == ListTokens(sources) + rest;
    ListIsRead(tokens, i + 1, sources, rest, scope, ctes, depth, cut);
  }

  lemma MeantInTwo(a: seq<Source>, b: seq<Source>, scope: Scope, depth: nat, cut: bool)
    ensures AllMeant(a + b, scope, depth, cut) == AllMeant(a, scope, depth, cut) + AllMeant(b, scope, depth, cut)
  {
    hide Meant;
  }

  lemma PartStands(tokens: seq<SqlToken>, i: nat, parts: seq<Part>, tail: seq<SqlToken>)
    requires parts != [] && i <= |tokens| && tokens[i..] == StatementTokens(parts) + tail
    ensures
      var more, next := StatementTokens(parts[1..]) + tail, i + |PartTokens(parts[0])|;
      tokens[i..] == PartTokens(parts[0]) + more && next <= |tokens| && tokens[next..] == more
  {
    hide PartTokens;
    assert StatementTokens(parts) + tail == PartTokens(parts[0]) + (StatementTokens(parts[1..]) + tail);
    hide StatementTokens;
    Stands(tokens, i, PartTokens(parts[0]), StatementTokens(parts[1..]) + tail);
  }

  /** The sources of the first part are found, and then those of the rest. */
  lemma PartIsRead(
    tokens: seq<SqlToken>, i: nat, parts: seq<Part>, tail: seq<SqlToken>, scope: Scope, ctes: seq<Relation>,
    depth: nat, cut: bool)
    requires parts != [] && i <= |tokens| && tokens[i..] == StatementTokens(parts) + tail
    requires FineStatement(parts, tail, scope, ctes)
    ensures i + |PartTokens(parts[0])| <= |tokens|
    ensures RelationsFrom(tokens, i, 0, scope, ctes, depth, cut)
         == AllMeant(if parts[0].Sources? then parts[0].sources else [], scope, depth, cut)
            + RelationsFrom(tokens, i + |PartTokens(parts[0])|, 0, scope, ctes, depth, cut)
  {
    hide RelationsFrom, AllMeant, FineSource, Ends, SqlToken.Normalized, Balanced, ListTokens, StatementTokens;
    PartStands(tokens, i, parts, tail);
    var more := StatementTokens(parts[1..]) + tail;
    match parts[0]
    case Other(token) =>
      assert tokens[i] == tokens[i..][0];
      OtherIsSkipped(tokens, i, scope, ctes, depth, cut);
    case Group(inner) => GroupIsSkipped(tokens, i, inner, more, scope, ctes, depth, cut);
    case Sources(word, sources) => SourcesAreRead(tokens, i, word, sources, more, scope, ctes, depth, cut);
  }

  /** From every place of a statement on, exactly its sources are found, in order and once. */
  lemma {:induction false} PartsAreRead(
    tokens: seq<SqlToken>, i: nat, parts: seq<Part>, tail: seq<SqlToken>, scope: Scope, ctes: seq<Relation>,
    depth: nat, cut: bool)
    requires i <= |tokens| && tokens[i..] == StatementTokens(parts) + tail && FineStatement(parts, tail, scope, ctes)
    ensures RelationsFrom(tokens, i, 0, scope, ctes, depth, cut) == AllMeant(SourcesOf(parts), scope, depth, cut)
    decreases |parts|
  {
    hide RelationsFrom, AllMeant, FineSource, Ends, SqlToken.Normalized, Balanced, PartTokens;
    if parts == [] {
      if tail == [] {
        NothingLeft(tokens, scope, ctes, depth, cut);
      } else {
        assert tokens[i] == tokens[i..][0];
        ClauseEnds(tokens, i, scope, ctes, depth, cut);
      }
      assert AllMeant([], scope, depth, cut) == [];
    } else {
      PartStands(tokens, i, parts, tail);
      PartIsRead(tokens, i, parts, tail, scope, ctes, depth, cut);
      PartsAreRead(tokens, i + |PartTokens(parts[0])|, parts[1..], tail, scope, ctes, depth, cut);
      MeantInTwo(if parts[0].Sources? then parts[0].sources else [], SourcesOf(parts[1..]), scope, depth, cut);
    }
  }

  lemma NothingLeft(tokens: seq<SqlToken>, scope: Scope, ctes: seq<Relation>, depth: nat, cut: bool)
    ensures RelationsFrom(tokens, |tokens|, 0, scope, ctes, depth, cut) == []
  {
  }

  // ---- Common table expressions ----

  /** `name (columns) as (query)`, with or without the list of columns. */
  datatype Expression = Expression(name: SqlToken, columns: Option<seq<SqlToken>>, as_: SqlToken, inner: seq<SqlToken>)

  function ColumnTokens(columns: seq<SqlToken>): seq<SqlToken> {
    if columns == [] then [] else if |columns| == 1 then columns else [columns[0], Comma] + ColumnTokens(columns[1..])
  }

  function ExpressionTokens(e: Expression): seq<SqlToken> {
    [e.name]
    + (if e.columns.Some? then [OpenMark] + ColumnTokens(e.columns.value) + [CloseMark] else [])
    + ([e.as_] + ([OpenMark] + e.inner + [CloseMark]))
  }

  function ExpressionsTokens(es: seq<Expression>): seq<SqlToken> {
    if es == [] then []
    else if |es| == 1 then ExpressionTokens(es[0])
    else ExpressionTokens(es[0]) + ([Comma] + ExpressionsTokens(es[1..]))
  }

  ghost predicate FineExpression(e: Expression) {
    && IsName(e.name) && IsName(e.as_) && e.as_.Normalized() == "as" && Balanced(e.inner)
    && (e.columns.Some? ==> forall column <- e.columns.value :: IsName(column))
  }

  /** The listed columns, or those that the query of the expression projects. */
  function Stated(e: Expression, scope: Scope, depth: nat, cut: bool): Relation {
    Relation(FromCte, NameOf(e.name), None, None,
      if e.columns.Some? && e.columns.value != [] then
        seq(|e.columns.value|, i requires 0 <= i < |e.columns.value| => Column(NameOf(e.columns.value[i]), "cte"))
      else Analyzed(e.inner, scope, depth + 1, cut).projection)
  }

  function AllStated(es: seq<Expression>, scope: Scope, depth: nat, cut: bool): (r: seq<Relation>)
    ensures |r| == |es| && forall i :: 0 <= i < |es| ==> r[i] == Stated(es[i], scope, depth, cut)
  {
    seq(|es|, i requires 0 <= i < |es| => Stated(es[i], scope, depth, cut))
  }

  lemma {:induction false} ColumnsAreRead(tokens: seq<SqlToken>, i: nat, columns: seq<SqlToken>, rest: seq<SqlToken>)
    returns (names: seq<string>)
    requires i <= |tokens| && tokens[i..] == ColumnTokens(columns) + ([CloseMark] + rest)
    requires forall column <- columns :: IsName(column)
    ensures NamesFrom(tokens, i, 1) == NameList(names, i + |ColumnTokens(columns)| + 1)
    ensures |names| == |columns| && forall k :: 0 <= k < |columns| ==> names[k] == NameOf(columns[k])
    decreases |columns|
  {
    hide Unquote, NamesFrom;
    Stands(tokens, i, ColumnTokens(columns), [CloseMark] + rest);
    if columns == [] {
      assert tokens[i] == tokens[i..][0];
      ListCloses(tokens, i);
      names := [];
    } else {
      assert columns[0] in columns;
      assert tokens[i] == tokens[i..][0] == columns[0];
      OneColumn(tokens, i);
      if |columns| == 1 {
        assert tokens[i + 1] == tokens[i + 1..][0] == CloseMark;
        ListCloses(tokens, i + 1);
        names := [NameOf(columns[0])];
      } else {
        assert tokens[i..] == [columns[0], Comma] + (ColumnTokens(columns[1..]) + ([CloseMark] + rest));
        Stands(tokens, i, [columns[0], Comma], ColumnTokens(columns[1..]) + ([CloseMark] + rest));
        assert tokens[i + 1] == Comma;
        CommaIsPassed(tokens, i + 1);
        var more := ColumnsAreRead(tokens, i + 2, columns[1..], rest);
        names := [NameOf(columns[0])] + more;
      }
    }
  }

  lemma ListCloses(tokens: seq<SqlToken>, i: nat)
    requires i < |tokens| && tokens[i] == CloseMark
    ensures NamesFrom(tokens, i, 1) == NameList([], i + 1)
  {
    assert NamesFrom(tokens, i + 1, 0) == NameList([], i + 1);
  }

  lemma OneColumn(tokens: seq<SqlToken>, i: nat)
    requires i < |tokens| && IsName(tokens[i])
    ensures
      var rest := NamesFrom(tokens, i + 1, 1);
      NamesFrom(tokens, i, 1) == NameList([NameOf(tokens[i])] + rest.names, rest.next_index)
  {
    hide Unquote;
  }

  lemma CommaIsPassed(tokens: seq<SqlToken>, i: nat)
    requires i < |tokens| && tokens[i] == Comma
    ensures NamesFrom(tokens, i, 1) == NamesFrom(tokens, i + 1, 1)
  {
    hide Unquote;
  }

  lemma {:induction false} DerivedAre(names: seq<string>, data_type: string)
    ensures |Derived(names, data_type)| == |names|
    ensures forall k :: 0 <= k < |names| ==> Derived(names, data_type)[k] == Column(names[k], data_type)
  {
    if names != [] { DerivedAre(names[1..], data_type); }
  }

  lemma ListedStands(tokens: seq<SqlToken>, i: nat, e: Expression, more: seq<SqlToken>)
    requires e.columns.Some? && i <= |tokens|
    requires tokens[i..] == [e.name, OpenMark] + ColumnTokens(e.columns.value) + [CloseMark, e.as_] + more
    ensures
      var j := i + 2 + |ColumnTokens(e.columns.value)|;
      && j + 2 <= |tokens| && tokens[i] == e.name && tokens[i + 1] == OpenMark && tokens[j + 1] == e.as_
      && tokens[i + 2..] == ColumnTokens(e.columns.value) + ([CloseMark] + ([e.as_] + more))
      && tokens[j + 2..] == more
  {
    var columns := ColumnTokens(e.columns.value);
    hide ColumnTokens;
    var front := [e.name, OpenMark];
    assert tokens[i..] == front + (columns + ([CloseMark] + ([e.as_] + more)));
    Stands(tokens, i, front, columns + ([CloseMark] + ([e.as_] + more)));
    assert tokens[i + 0] == e.name && tokens[i + 1] == OpenMark;
    assert tokens[i + 2..] == (columns + [CloseMark, e.as_]) + more;
    Stands(tokens, i + 2, columns + [CloseMark, e.as_], more);
    assert tokens[i + 2 + (|columns| + 1)] == (columns + [CloseMark, e.as_])[|columns| + 1] == e.as_;
  }

  lemma ExpressionLies(e: Expression, rest: seq<SqlToken>)
    ensures
      var more := [OpenMark] + e.inner + [CloseMark] + rest;
      && ExpressionTokens(e) + rest
         == (if e.columns.Some? then [e.name, OpenMark] + ColumnTokens(e.columns.value) + [CloseMark, e.as_] + more
             else [e.name, e.as_] + more)
      && |ExpressionTokens(e)|
         == (if e.columns.Some? then |ColumnTokens(e.columns.value)| + 4 else 2) + |e.inner| + 2
  {
    hide ColumnTokens;
  }

  lemma ListIsStated(tokens: seq<SqlToken>, i: nat, e: Expression, more: seq<SqlToken>)
    requires e.columns.Some? && i <= |tokens| && FineExpression(e)
    requires tokens[i..] == [e.name, OpenMark] + ColumnTokens(e.columns.value) + [CloseMark, e.as_] + more
    ensures ColumnsAt(tokens, i + 1)
         == NameList(NamesOfAll(e.columns.value), i + 3 + |ColumnTokens(e.columns.value)|)
  {
    hide Unquote, NamesFrom, Balanced, ColumnTokens;
    ListedStands(tokens, i, e, more);
    var names := ColumnsAreRead(tokens, i + 2, e.columns.value, [e.as_] + more);
    assert names == NamesOfAll(e.columns.value);
  }

  /** The list of columns of an expression is read, and its query stands after it. */
  lemma HeadIsStated(tokens: seq<SqlToken>, i: nat, e: Expression, rest: seq<SqlToken>)
    returns (names: seq<string>, as_: nat)
    requires i <= |tokens| && tokens[i..] == ExpressionTokens(e) + rest && FineExpression(e)
    ensures i < as_ < |tokens| && tokens[i] == e.name && tokens[as_] == e.as_
    ensures tokens[as_ + 1..] == [OpenMark] + e.inner + [CloseMark] + rest
    ensures i + |ExpressionTokens(e)| == as_ + 1 + |e.inner| + 2
    ensures ColumnsAt(tokens, i + 1) == NameList(names, as_)
    ensures names == if e.columns.Some? then NamesOfAll(e.columns.value) else []
  {
    hide Unquote, NamesFrom, Balanced, ExpressionTokens, ColumnTokens, NamesOfAll;
    var more := [OpenMark] + e.inner + [CloseMark] + rest;
    ExpressionLies(e, rest);
    if e.columns.Some? {
      hide ColumnsAt, FineExpression;
      ListedStands(tokens, i, e, more);
      ListIsStated(tokens, i, e, more);
      names, as_ := NamesOfAll(e.columns.value), i + 3 + |ColumnTokens(e.columns.value)|;
    } else {
      Stands(tokens, i, [e.name, e.as_], more);
      assert tokens[i + 0] == e.name && tokens[i + 1] == e.as_;
      names, as_ := [], i + 1;
    }
  }

  function NamesOfAll(tokens: seq<SqlToken>): (names: seq<string>)
    ensures |names| == |tokens| && forall i :: 0 <= i < |tokens| ==> names[i] == NameOf(tokens[i])
  {
    seq(|tokens|, i requires 0 <= i < |tokens| => NameOf(tokens[i]))
  }

  lemma StatedIs(e: Expression, names: seq<string>, scope: Scope, depth: nat, cut: bool)
    requires names == if e.columns.Some? then NamesOfAll(e.columns.value) else []
    ensures CteOf(NameOf(e.name), names, Analyzed(e.inner, scope, depth + 1, cut)) == Stated(e, scope, depth, cut)
  {
    hide Analyzed, Unquote;
    DerivedAre(names, "cte");
  }

  /** One expression is read to its end. */
  lemma ExpressionIsRead(
    tokens: seq<SqlToken>, i: nat, e: Expression, rest: seq<SqlToken>, scope: Scope, depth: nat, cut: bool)
    requires i <= |tokens| && tokens[i..] == ExpressionTokens(e) + rest && FineExpression(e)
    ensures i + |ExpressionTokens(e)| <= |tokens|
    ensures
      var next := i + |ExpressionTokens(e)|;
      CtesFrom(tokens, i, scope, depth, cut)
      == if TextAt(tokens, next, ",") then
           var more := CtesFrom(tokens, next + 1, scope, depth, cut);
           Ctes([Stated(e, scope, depth, cut)] + more.ctes, more.next_index)
         else Ctes([Stated(e, scope, depth, cut)], next)
  {
    hide CtesFrom, Unquote, Analyzed, ColumnsAt, Balanced, ParenthesizedAt, ExpressionTokens, CteOf, Stated;
    var names, as_ := HeadIsStated(tokens, i, e, rest);
    OpensGroup(tokens, as_ + 1, e.inner, rest);
    CtesStep(tokens, i, scope, depth, cut);
    StatedIs(e, names, scope, depth, cut);
  }

  lemma FirstStated(es: seq<Expression>, scope: Scope, depth: nat, cut: bool)
    requires es != []
    ensures AllStated(es, scope, depth, cut)
         == [Stated(es[0], scope, depth, cut)] + AllStated(es[1..], scope, depth, cut)
  {
    hide Stated;
  }

  lemma FirstExpression(es: seq<Expression>, rest: seq<SqlToken>)
    requires es != []
    ensures ExpressionsTokens(es) + rest
         == ExpressionTokens(es[0])
            + if |es| == 1 then rest else [Comma] + (ExpressionsTokens(es[1..]) + rest)
    ensures |ExpressionsTokens(es)|
         == |ExpressionTokens(es[0])| + if |es| == 1 then 0 else 1 + |ExpressionsTokens(es[1..])|
  {
    hide ExpressionTokens;
  }

  lemma MoreFollow(tokens: seq<SqlToken>, i: nat, first: seq<SqlToken>, rest: seq<SqlToken>)
    requires i <= |tokens| && tokens[i..] == first + ([Comma] + rest)
    ensures i + |first| + 1 <= |tokens| && tokens[i + |first| + 1..] == rest && TextAt(tokens, i + |first|, ",")
  {
    assert first + ([Comma] + rest) == (first + [Comma]) + rest;
    Stands(tokens, i, first + [Comma], rest);
    assert tokens[i + |first|] == (first + [Comma])[|first|];
  }

  lemma NoneFollow(tokens: seq<SqlToken>, i: nat, first: seq<SqlToken>, rest: seq<SqlToken>)
    requires i <= |tokens| && tokens[i..] == first + rest && (rest != [] ==> rest[0].text != ",")
    ensures !TextAt(tokens, i + |first|, ",")
  {
    Stands(tokens, i, first, rest);
    if rest != [] { assert tokens[i + |first|] == tokens[i + |first|..][0]; }
  }

  /** All expressions of a list are read, once and in order. */
  lemma {:induction false} ExpressionsAreRead(
    tokens: seq<SqlToken>, i: nat, es: seq<Expression>, rest: seq<SqlToken>, scope: Scope, depth: nat, cut: bool)
    requires es != [] && (forall e <- es :: FineExpression(e)) && (rest != [] ==> rest[0].text != ",")
    requires i <= |tokens| && tokens[i..] == ExpressionsTokens(es) + rest
    ensures CtesFrom(tokens, i, scope, depth, cut)
         == Ctes(AllStated(es, scope, depth, cut), i + |ExpressionsTokens(es)|)
    decreases |es|
  {
    hide *;
    assert es[0] in es;
    FirstStated(es, scope, depth, cut);
    FirstExpression(es, rest);
    var first := ExpressionTokens(es[0]);
    if |es| == 1 {
      ExpressionIsRead(tokens, i, es[0], rest, scope, depth, cut);
      NoneFollow(tokens, i, first, rest);
      NoneStated(scope, depth, cut);
      assert es[1..] == [];
    } else {
      var more := ExpressionsTokens(es[1..]) + rest;
      ExpressionIsRead(tokens, i, es[0], [Comma] + more, scope, depth, cut);
      MoreFollow(tokens, i, first, more);
      assert forall e <- es[1..] :: e in es;
      ExpressionsAreRead(tokens, i + |first| + 1, es[1..], rest, scope, depth, cut);
    }
  }

  lemma NoneStated(scope: Scope, depth: nat, cut: bool)
    ensures AllStated([], scope, depth, cut) == []
  {
  }

  // ---- The whole statement ----

  /** `with` and its expressions, if there are any. */
  function WithTokens(with_: seq<SqlToken>, es: seq<Expression>): seq<SqlToken> {
    if es == [] then [] else with_ + ExpressionsTokens(es)
  }

  /** `with` or `with recursive`, which no first name may be taken for. */
  ghost predicate FineWith(with_: seq<SqlToken>, es: seq<Expression>, body: seq<SqlToken>) {
    && (forall e <- es :: FineExpression(e))
    && (if es == [] then body != [] && body[0].Normalized() != "with"
        else
          && 1 <= |with_| <= 2 && with_[0].Normalized() == "with" && (body != [] ==> body[0].text != ",")
          && (if |with_| == 2 then with_[1].Normalized() == "recursive"
              else es[0].name.Normalized() != "recursive"))
  }

  lemma ExpressionsStart(es: seq<Expression>)
    requires es != []
    ensures ExpressionsTokens(es) != [] && ExpressionsTokens(es)[0] == es[0].name
  {
    hide ColumnTokens;
    assert ExpressionTokens(es[0])[0] == es[0].name;
  }

  lemma WithIsRead(
    tokens: seq<SqlToken>, with_: seq<SqlToken>, es: seq<Expression>, body: seq<SqlToken>, scope: Scope, depth: nat,
    cut: bool)
    requires tokens == WithTokens(with_, es) + body && FineWith(with_, es, body)
    ensures tokens != []
    ensures CtesOf(tokens, scope, depth, cut)
         == Ctes(AllStated(es, scope, depth, cut), |WithTokens(with_, es)|)
  {
    hide CtesFrom, FineExpression, Stated, ExpressionTokens, ExpressionsTokens, SqlToken.Normalized;
    if es == [] {
      assert tokens == body;
      assert AllStated(es, scope, depth, cut) == [];
    } else {
      ExpressionsStart(es);
      assert tokens == with_ + (ExpressionsTokens(es) + body);
      assert tokens[0..] == tokens;
      Stands(tokens, 0, with_, ExpressionsTokens(es) + body);
      assert tokens[0 + 0] == with_[0];
      if |with_| == 2 {
        assert tokens[0 + 1] == with_[1];
      } else {
        assert tokens[1] == tokens[1..][0] == es[0].name;
      }
      ExpressionsAreRead(tokens, |with_|, es, body, scope, depth, cut);
    }
  }

  /**
   * The converse of RelationsAreKnown: every statement that is built from these parts has exactly its common table
   * expressions, and exactly one relation for each source that stands after `from`, `join` or a comma outside
   * parentheses and before the first clause word that ends them, in order. Each is the table, expression or subquery
   * that was written, under its alias.
   */
  lemma EverySourceIsFound(
    tokens: seq<SqlToken>, with_: seq<SqlToken>, es: seq<Expression>, parts: seq<Part>, tail: seq<SqlToken>,
    scope: Scope, depth: nat, cut: bool)
    requires cut ==> depth <= MAX_DEPTH
    requires tokens == WithTokens(with_, es) + (StatementTokens(parts) + tail)
    requires FineWith(with_, es, StatementTokens(parts) + tail)
    requires FineStatement(parts, tail, scope, AllStated(es, scope, depth, cut))
    ensures Analyzed(tokens, scope, depth, cut).ctes == AllStated(es, scope, depth, cut)
    ensures Analyzed(tokens, scope, depth, cut).relations == AllMeant(SourcesOf(parts), scope, depth, cut)
  {
    hide CtesOf, RelationsFrom, Projection, AllMeant, AllStated, FineStatement, StatementTokens, SourcesOf, FineWith,
      WithTokens;
    var body := StatementTokens(parts) + tail;
    WithIsRead(tokens, with_, es, body, scope, depth, cut);
    assert tokens[0..] == tokens;
    Stands(tokens, 0, WithTokens(with_, es), body);
    PartsAreRead(tokens, |WithTokens(with_, es)|, parts, tail, scope, AllStated(es, scope, depth, cut), depth, cut);
  }
}
