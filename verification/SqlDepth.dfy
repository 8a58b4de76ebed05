/** What the depth limit of the statement analyser hides: statements nested in subqueries, as tokens and as text. */
module SqlDepth {
  import opened OrderedMaps
  import opened SqlAnalysis
  import opened SqlGroups
  import opened SqlNames
  import opened SqlTokens
  import opened Text

  const SelectWord := SqlToken(WordToken, "select")

  const OpenMark := SqlToken(PunctuationToken, "(")

  const CloseMark := SqlToken(PunctuationToken, ")")

  /** `select * from (...)` around a statement. */
  function Around(inner: seq<SqlToken>): seq<SqlToken> {
    [SelectWord, SqlToken(PunctuationToken, "*"), SqlToken(WordToken, "from"), OpenMark] + inner + [CloseMark]
  }

  function AroundTimes(inner: seq<SqlToken>, n: nat): seq<SqlToken> {
    if n == 0 then inner else Around(AroundTimes(inner, n - 1))
  }

  /** What is balanced is passed over on the way to the partner of an opened parenthesis. */
  lemma {:induction false} BalancedIsPassed(
    tokens: seq<SqlToken>, start: nat, inner: seq<SqlToken>, nesting: nat, k: nat)
    requires start + |inner| <= |tokens| && tokens[start..start + |inner|] == inner
    requires Balanced(inner) && nesting > 0 && k <= |inner|
    ensures InnerEnd(tokens, start, nesting) == InnerEnd(tokens, start + k, nesting + Excess(inner, 0, k))
    decreases k
  {
    if k > 0 {
      BalancedIsPassed(tokens, start, inner, nesting, k - 1);
      assert inner[k - 1] == tokens[start + k - 1];
      assert Excess(inner, 0, k - 1) >= 0 && Excess(inner, 0, k) >= 0;
    }
  }

  lemma AroundIsRead(inner: seq<SqlToken>)
    requires Balanced(inner)
    ensures ParenthesizedAt(Around(inner), 3) == Parenthesized(inner, |Around(inner)|)
  {
    var tokens := Around(inner);
    BalancedIsPassed(tokens, 4, inner, 1, |inner|);
    assert tokens[4 + |inner|] == CloseMark;
    assert tokens[4..4 + |inner|] == inner;
  }

  lemma {:induction false} ExcessInFront(front: seq<SqlToken>, tokens: seq<SqlToken>, k: nat)
    requires k <= |tokens|
    ensures Excess(front + tokens, 0, |front| + k) == Excess(front, 0, |front|) + Excess(tokens, 0, k)
    decreases k
  {
    if k == 0 {
      ExcessOfFront(front, tokens, |front|);
    } else {
      ExcessInFront(front, tokens, k - 1);
      assert (front + tokens)[|front| + k - 1] == tokens[k - 1];
    }
  }

  lemma {:induction false} ExcessOfFront(front: seq<SqlToken>, tokens: seq<SqlToken>, k: nat)
    requires k <= |front|
    ensures Excess(front + tokens, 0, k) == Excess(front, 0, k)
    decreases k
  {
    if k > 0 {
      ExcessOfFront(front, tokens, k - 1);
      assert (front + tokens)[k - 1] == front[k - 1];
    }
  }

  const Head := [SelectWord, SqlToken(PunctuationToken, "*"), SqlToken(WordToken, "from"), OpenMark]

  lemma HeadOpensOne()
    ensures Excess(Head, 0, 0) == Excess(Head, 0, 1) == Excess(Head, 0, 2) == Excess(Head, 0, 3) == 0
    ensures Excess(Head, 0, 4) == 1
  {
  }

  lemma AroundIsBalanced(inner: seq<SqlToken>)
    requires Balanced(inner)
    ensures Balanced(Around(inner))
  {
    var tokens := Around(inner);
    assert tokens == Head + (inner + [CloseMark]);
    HeadOpensOne();
    forall k | 0 <= k <= |tokens|
      ensures Excess(tokens, 0, k) >= 0 && (k == |tokens| ==> Excess(tokens, 0, k) == 0)
    {
      if k <= 4 {
        ExcessOfFront(Head, inner + [CloseMark], k);
      } else {
        ExcessInFront(Head, inner + [CloseMark], k - 4);
        if k - 4 <= |inner| {
          ExcessOfFront(inner, [CloseMark], k - 4);
        } else {
          ExcessInFront(inner, [CloseMark], 1);
          assert Excess([CloseMark], 0, 1) == Excess([CloseMark], 0, 0) - 1;
        }
      }
      hide Excess;
    }
  }

  lemma WordsAre()
    ensures Lower("select") == "select" && Lower("from") == "from" && Lower("*") == "*"
    ensures Lower("subquery") == "subquery"
  {
    hide Lower;
    LowerStays("select");
    LowerStays("from");
    LowerStays("*");
    LowerStays("subquery");
  }

  lemma {:induction false} LowerStays(s: string)
    requires forall i :: 0 <= i < |s| ==> !('A' <= s[i] <= 'Z')
    ensures Lower(s) == s
  {
    if s != "" {
      LowerStays(s[1..]);
    }
  }

  lemma AroundRelations(inner: seq<SqlToken>, scope: Scope, depth: nat, cut: bool)
    requires Balanced(inner)
    ensures RelationsFrom(Around(inner), 0, 0, scope, [], depth, cut)
         == [SubqueryOf(None, Analyzed(inner, scope, depth + 1, cut))]
  {
    hide Analyzed, Lower, Unquote, InnerEnd, Balanced;
    var tokens := Around(inner);
    WordsAre();
    AroundIsRead(inner);
    hide ParenthesizedAt;
    var subquery := SubqueryOf(None, Analyzed(inner, scope, depth + 1, cut));
    assert RelationAt(tokens, 3, scope, [], depth, cut) == Some(Found(subquery, |tokens|));
    assert RelationListFrom(tokens, 3, scope, [], depth, cut) == FoundList([subquery], |tokens|);
    assert RelationsFrom(tokens, |tokens|, 0, scope, [], depth, cut) == [];
    hide RelationListFrom, RelationAt;
    assert RelationsFrom(tokens, 2, 0, scope, [], depth, cut) == [subquery];
    assert RelationsFrom(tokens, 1, 0, scope, [], depth, cut) == [subquery];
  }

  const Star := [SqlToken(PunctuationToken, "*")]

  lemma AroundSelects(inner: seq<SqlToken>)
    ensures var tokens := Around(inner);
      && TopLevelWord(tokens, 0, 0, "select") == Some(0) && TopLevelWord(tokens, 1, 0, "from") == Some(2)
      && GroupsFrom(tokens[1..2], 0, 0, ",") == [Star]
  {
    hide Lower, Unquote;
    var tokens := Around(inner);
    WordsAre();
    assert tokens[1..2] == Star && Star[0..1] == Star;
  }

  lemma AllOfOne(query: Analysis)
    ensures var named := RelationMap([SubqueryOf(None, query)]);
      && WildcardColumns(Star, named) == query.projection
  {
    WordsAre();
    hide Lower, Unquote;
    var relations := [SubqueryOf(None, query)];
    var named := RelationMap(relations);
    assert relations[..0] == [] && RelationMap([]) == OrderedMap([], map[]);
    var nobody: seq<string> := [];
    assert nobody + ["subquery"] == ["subquery"];
    assert named == OrderedMap(["subquery"], map["subquery" := relations[0]]);
    assert ["subquery"][1..] == nobody && AllColumns(nobody, named.entries) == [];
    assert AllColumns(["subquery"], named.entries) == query.projection + [] == query.projection;
  }

  lemma OneItem(item: seq<SqlToken>, named: OrderedMap<string, Relation>)
    ensures WithItems(OrderedMap([], map[]), [item], named) == WithItem(OrderedMap([], map[]), item, named)
  {
    hide WithItem;
    assert [item][..0] == [];
  }

  lemma AroundProjection(inner: seq<SqlToken>, query: Analysis)
    requires |query.projection| <= 1
    ensures Projection(Around(inner), 0, [SubqueryOf(None, query)]) == query.projection
  {
    hide Lower, Unquote, WithItem, WithItems, WildcardColumns, Values, RelationMap, TopLevelWord, GroupsFrom;
    var named := RelationMap([SubqueryOf(None, query)]);
    AroundSelects(inner);
    AllOfOne(query);
    StarColumns(Star, named, query.projection);
    OneItem(Star, named);
  }

  lemma StarColumns(star: seq<SqlToken>, named: OrderedMap<string, Relation>, columns: seq<Column>)
    requires star == [SqlToken(PunctuationToken, "*")] && WildcardColumns(star, named) == columns && |columns| <= 1
    ensures var r := WithItem(OrderedMap([], map[]), star, named); Values(r.order, r.entries) == columns
  {
    hide Lower, Unquote, WildcardColumns;
    var none: OrderedMap<string, Column> := OrderedMap([], map[]);
    if columns == [] {
      assert AliasAfterAs(star, 0) == None;
      assert star[..0] == [] && LastIdentifier([]) == None && LastIdentifier(star) == None;
      assert WithItem(none, star, named) == none;
    } else {
      var c := columns[0];
      assert columns == [c] && columns[1..] == [];
      assert WithNew(none, columns) == OrderedMap([Lower(c.name)], map[Lower(c.name) := c]);
    }
  }

  /** A statement that selects all of a subquery with one column has this column. */
  lemma AroundAnalyzed(inner: seq<SqlToken>, scope: Scope, depth: nat, cut: bool)
    requires (cut ==> depth <= MAX_DEPTH) && Balanced(inner)
    requires |Analyzed(inner, scope, depth + 1, cut).projection| <= 1
    ensures var query := Analyzed(inner, scope, depth + 1, cut);
      Analyzed(Around(inner), scope, depth, cut) == Analysis([], [SubqueryOf(None, query)], query.projection)
  {
    var query := Analyzed(inner, scope, depth + 1, cut);
    AroundRelations(inner, scope, depth, cut);
    AroundProjection(inner, query);
    StartsSelecting(Around(inner), scope, depth, cut);
    AnalyzedParts(Around(inner), scope, depth, cut);
    hide Analyzed, RelationsFrom, Projection, CtesOf;
  }

  lemma StartsSelecting(tokens: seq<SqlToken>, scope: Scope, depth: nat, cut: bool)
    requires tokens != [] && tokens[0] == SelectWord
    ensures CtesOf(tokens, scope, depth, cut) == Ctes([], 0)
  {
    WordsAre();
    hide Lower, CtesFrom;
  }

  lemma AnalyzedParts(tokens: seq<SqlToken>, scope: Scope, depth: nat, cut: bool)
    requires tokens != [] && (cut ==> depth <= MAX_DEPTH) && CtesOf(tokens, scope, depth, cut) == Ctes([], 0)
    ensures var relations := RelationsFrom(tokens, 0, 0, scope, [], depth, cut);
      Analyzed(tokens, scope, depth, cut) == Analysis([], relations, Projection(tokens, 0, relations))
  {
    hide RelationsFrom, Projection, CtesOf;
  }

  lemma DeepIsCut(tokens: seq<SqlToken>, scope: Scope, depth: nat)
    requires depth > MAX_DEPTH
    ensures Analyzed(tokens, scope, depth, true) == Analysis([], [], [])
  {
  }

  const Innermost := [SelectWord, SqlToken(WordToken, "a")]

  const NameItem := [SqlToken(WordToken, "a")]

  lemma NoRelationsLeft(scope: Scope, depth: nat, cut: bool)
    ensures RelationsFrom(Innermost, 2, 0, scope, [], depth, cut) == []
  {
    hide RelationListFrom;
  }

  lemma PassedOver(tokens: seq<SqlToken>, i: nat, scope: Scope, depth: nat, cut: bool)
    requires i < |tokens| && tokens[i].text != "(" && tokens[i].text != ")"
    requires tokens[i].Normalized() != "from" && tokens[i].Normalized() != "join" && !StopsJoins(tokens[i].Normalized())
    ensures RelationsFrom(tokens, i, 0, scope, [], depth, cut) == RelationsFrom(tokens, i + 1, 0, scope, [], depth, cut)
  {
    hide RelationListFrom, StopsJoins, SqlToken.Normalized;
  }

  lemma InnermostRelations(scope: Scope, depth: nat, cut: bool)
    ensures RelationsFrom(Innermost, 0, 0, scope, [], depth, cut) == []
  {
    hide Lower, Unquote, RelationListFrom;
    WordsAre();
    LowerStays("a");
    NoRelationsLeft(scope, depth, cut);
    PassedOver(Innermost, 1, scope, depth, cut);
    PassedOver(Innermost, 0, scope, depth, cut);
    hide RelationsFrom;
  }

  lemma NoFromLeft()
    ensures TopLevelWord(Innermost, 1, 0, "from") == None
  {
    hide Lower, Unquote;
    WordsAre();
    LowerStays("a");
    assert TopLevelWord(Innermost, 2, 0, "from") == None;
  }

  lemma InnermostSelects()
    ensures TopLevelWord(Innermost, 0, 0, "select") == Some(0) && TopLevelWord(Innermost, 1, 0, "from") == None
    ensures GroupsFrom(Innermost[1..2], 0, 0, ",") == [NameItem]
  {
    hide Lower, Unquote;
    NoFromLeft();
    WordsAre();
    OneGroup();
    hide GroupsFrom;
    assert Innermost[1..2] == NameItem;
  }

  lemma OneGroup()
    ensures GroupsFrom(NameItem, 0, 0, ",") == [NameItem]
  {
    assert NameItem[0..] == NameItem;
  }

  lemma InnermostProjects(scope: Scope, depth: nat, cut: bool)
    requires cut ==> depth <= MAX_DEPTH
    ensures Analyzed(Innermost, scope, depth, cut).projection == [Column("a", "projection")]
  {
    hide Analyzed, RelationsFrom, Projection, CtesOf, Lower;
    StartsSelecting(Innermost, scope, depth, cut);
    AnalyzedParts(Innermost, scope, depth, cut);
    InnermostRelations(scope, depth, cut);
    InnermostProjection();
  }

  lemma InnermostProjection()
    ensures Projection(Innermost, 0, []) == [Column("a", "projection")]
  {
    hide TopLevelWord, GroupsFrom, WithItem, WithItems, Values, Lower;
    InnermostSelects();
    NameProjected(NameItem);
    OneItem(NameItem, OrderedMap([], map[]));
  }

  lemma PlainUnquoted()
    ensures Unquote("a") == "a"
  {
  }

  lemma NameProjected(item: seq<SqlToken>)
    requires item == [SqlToken(WordToken, "a")]
    ensures var r := WithItem(OrderedMap([], map[]), item, OrderedMap([], map[]));
      Values(r.order, r.entries) == [Column("a", "projection")]
  {
    PlainUnquoted();
    LowerStays("a");
    hide Lower, Unquote;
    assert AliasAfterAs(item, 0) == None;
    assert AliasAfterAs(item, 1) == None;
    assert DottedFrom(item, 1).identifiers == [] && DottedFrom(item, 1).next_index == 1;
    assert ["a"] + [] == ["a"];
    assert QualifiedNameAt(item, 0) == Some(QualifiedName(["a"], 1));
  }

  /** A balanced statement with at most one column, however often it is wrapped, has the column of the innermost. */
  lemma {:induction false} LevelsPassOn(inner: seq<SqlToken>, scope: Scope, depth: nat, cut: bool, n: nat)
    requires Balanced(inner) && |Analyzed(inner, scope, depth + n, cut).projection| <= 1
    ensures Balanced(AroundTimes(inner, n))
    ensures Analyzed(AroundTimes(inner, n), scope, depth, cut).projection
         == Analyzed(inner, scope, depth + n, cut).projection
    decreases n
  {
    hide Analyzed, Balanced;
    if n > 0 {
      LevelsPassOn(inner, scope, depth + 1, cut, n - 1);
      AroundIsBalanced(AroundTimes(inner, n - 1));
      if cut && depth > MAX_DEPTH {
        DeepIsCut(AroundTimes(inner, n), scope, depth);
        DeepIsCut(inner, scope, depth + n);
      } else {
        AroundAnalyzed(AroundTimes(inner, n - 1), scope, depth, cut);
      }
    }
  }

  /** Every balanced statement with one column keeps it in any number of levels, but for the limit of five. */
  lemma CutShows(inner: seq<SqlToken>, scope: Scope, n: nat, column: Column)
    requires Balanced(inner) && n > MAX_DEPTH && Analyzed(inner, scope, n, false).projection == [column]
    ensures Analyzed(AroundTimes(inner, n), scope, 0, true).projection == []
    ensures Analyzed(AroundTimes(inner, n), scope, 0, false).projection == [column]
  {
    hide Analyzed, Balanced;
    DeepIsCut(inner, scope, n);
    LevelsPassOn(inner, scope, 0, true, n);
    LevelsPassOn(inner, scope, 0, false, n);
  }

  // ---- A text for every number of levels ----

  function NestedText(n: nat): string { if n == 0 then "select a" else "select*from(" + NestedText(n - 1) + ")" }

  lemma WordIsRead(text: string, i: nat, word: string)
    requires i + |word| <= |text| && text[i..i + |word|] == word && word != "" && WordStart(word[0])
    requires forall p :: 0 <= p < |word| ==> WordPart(word[p])
    requires i + |word| < |text| ==> !WordPart(text[i + |word|])
    ensures Tokens(text, i) == [SqlToken(WordToken, word)] + Tokens(text, i + |word|)
  {
    forall p | 0 <= p < |word|
      ensures text[i + p] == word[p]
    {
      assert text[i..i + |word|][p] == text[i + p];
    }
    assert forall p :: i < p < i + |word| ==> text[p] == word[p - i];
    WordCut(text, i, i + |word|);
    TokensFrom(text, i, WordToken, i + |word|);
  }

  lemma MarkIsRead(text: string, i: nat)
    requires i < |text| && text[i] in "()*"
    ensures Tokens(text, i) == [SqlToken(PunctuationToken, [text[i]])] + Tokens(text, i + 1)
  {
    assert NextCut(text, i) == Cut(Token(PunctuationToken), i, i + 1);
    assert text[i..i + 1] == [text[i]];
    TokensFrom(text, i, PunctuationToken, i + 1);
  }

  lemma SpaceIsSkipped(text: string, i: nat)
    requires i < |text| && text[i] == ' '
    ensures Tokens(text, i) == Tokens(text, i + 1)
  {
    TokensSkip(text, i, NextCut(text, i));
  }

  lemma PartOfSlice(text: string, i: nat, whole: string, j: nat, k: nat)
    requires i + |whole| <= |text| && text[i..i + |whole|] == whole && j <= k <= |whole|
    ensures text[i + j..i + k] == whole[j..k]
    ensures k < |whole| ==> text[i + k] == whole[k]
  {
    forall p | 0 <= p < |whole|
      ensures text[i + p] == whole[p]
    {
      assert text[i..i + |whole|][p] == text[i + p];
    }
    assert |text[i + j..i + k]| == |whole[j..k]|;
    assert forall p :: 0 <= p < k - j ==> text[i + j..i + k][p] == text[i + (j + p)] == whole[j..k][p];
  }

  lemma HeadWords()
    ensures "select*from("[0..6] == "select" && "select*from("[7..11] == "from"
    ensures "select a"[0..6] == "select" && "select a"[7..8] == "a"
  {
  }

  lemma FourThen(a: SqlToken, b: SqlToken, c: SqlToken, d: SqlToken, rest: seq<SqlToken>)
    ensures [a] + ([b] + ([c] + ([d] + rest))) == [a, b, c, d] + rest
  {
  }

  lemma HeadIsRead(text: string, i: nat)
    requires i + 12 <= |text| && text[i..i + 12] == "select*from("
    ensures Tokens(text, i) == Head + Tokens(text, i + 12)
  {
    hide Tokens;
    HeadWords();
    PartOfSlice(text, i, "select*from(", 0, 6);
    PartOfSlice(text, i, "select*from(", 7, 11);
    WordIsRead(text, i, "select");
    MarkIsRead(text, i + 6);
    WordIsRead(text, i + 7, "from");
    MarkIsRead(text, i + 11);
    FourThen(SelectWord, SqlToken(PunctuationToken, "*"), SqlToken(WordToken, "from"), OpenMark, Tokens(text, i + 12));
  }

  lemma InnermostIsRead(text: string, i: nat)
    requires i + 8 <= |text| && text[i..i + 8] == "select a" && (i + 8 < |text| ==> text[i + 8] == ')')
    ensures Tokens(text, i) == Innermost + Tokens(text, i + 8)
  {
    hide Tokens;
    HeadWords();
    PartOfSlice(text, i, "select a", 0, 6);
    PartOfSlice(text, i, "select a", 7, 8);
    WordIsRead(text, i, "select");
    SpaceIsSkipped(text, i + 6);
    WordIsRead(text, i + 7, "a");
    var rest := Tokens(text, i + 8);
    assert [SelectWord] + ([SqlToken(WordToken, "a")] + rest) == Innermost + rest;
  }

  lemma {:induction false} NestedIsRead(text: string, i: nat, n: nat)
    requires i + |NestedText(n)| <= |text| && text[i..i + |NestedText(n)|] == NestedText(n)
    requires i + |NestedText(n)| < |text| ==> text[i + |NestedText(n)|] == ')'
    ensures Tokens(text, i) == AroundTimes(Innermost, n) + Tokens(text, i + |NestedText(n)|)
    decreases n
  {
    hide Tokens, AroundTimes, NestedText, Around;
    if n == 0 {
      NoLevels();
      InnermostIsRead(text, i);
    } else {
      var inner := |NestedText(n - 1)|;
      NestedParts(text, i, n);
      NestedIsRead(text, i + 12, n - 1);
      NestedStep(text, i, AroundTimes(Innermost, n - 1), i + 12 + inner);
      AroundOnce(n);
    }
  }

  lemma NoLevels()
    ensures NestedText(0) == "select a" && AroundTimes(Innermost, 0) == Innermost
  {
  }

  lemma NestedStep(text: string, i: nat, inner: seq<SqlToken>, end: nat)
    requires i + 12 <= end < |text| && text[i..i + 12] == "select*from(" && text[end] == ')'
    requires Tokens(text, i + 12) == inner + Tokens(text, end)
    ensures Tokens(text, i) == Around(inner) + Tokens(text, end + 1)
  {
    hide Tokens, Around;
    HeadIsRead(text, i);
    MarkIsRead(text, end);
    AroundStarts(inner, Tokens(text, end + 1));
  }

  lemma AroundOnce(n: nat)
    requires n > 0
    ensures AroundTimes(Innermost, n) == Around(AroundTimes(Innermost, n - 1))
  {
  }

  lemma AroundStarts(inner: seq<SqlToken>, rest: seq<SqlToken>)
    ensures Around(inner) + rest == Head + (inner + ([CloseMark] + rest))
  {
  }

  lemma NestedParts(text: string, i: nat, n: nat)
    requires n > 0 && i + |NestedText(n)| <= |text| && text[i..i + |NestedText(n)|] == NestedText(n)
    ensures
      var inner := NestedText(n - 1);
      && |NestedText(n)| == |inner| + 13
      && text[i..i + 12] == "select*from(" && text[i + 12..i + 12 + |inner|] == inner
      && text[i + 12 + |inner|] == ')'
  {
    var whole, inner := NestedText(n), NestedText(n - 1);
    assert whole == "select*from(" + inner + ")";
    hide NestedText;
    PartOfSlice(text, i, whole, 0, 12);
    PartOfSlice(text, i, whole, 12, 12 + |inner|);
    ThreeParts("select*from(", inner, ")");
  }

  lemma ThreeParts(a: string, b: string, c: string)
    requires c != ""
    ensures var whole := a + b + c;
      whole[0..|a|] == a && whole[|a|..|a| + |b|] == b && whole[|a| + |b|] == c[0]
  {
  }

  /** The text of `n` subqueries in each other has its column up to four levels, and loses it from the fifth on. */
  lemma NestedTextIsCut(scope: Scope, n: nat)
    ensures
      var tokens := Tokens(NestedText(n), 0);
      && Analyzed(tokens, scope, 0, true).projection == (if n <= MAX_DEPTH then [Column("a", "projection")] else [])
      && Analyzed(tokens, scope, 0, false).projection == [Column("a", "projection")]
  {
    hide Analyzed, Tokens;
    NestedIsRead(NestedText(n), 0, n);
    NoTokensAtEnd(NestedText(n));
    assert NestedText(n)[0..|NestedText(n)|] == NestedText(n);
    assert AroundTimes(Innermost, n) + [] == AroundTimes(Innermost, n);
    InnermostIsBalanced();
    InnermostProjects(scope, n, false);
    if n > MAX_DEPTH { DeepIsCut(Innermost, scope, n); } else { InnermostProjects(scope, n, true); }
    LevelsPassOn(Innermost, scope, 0, true, n);
    LevelsPassOn(Innermost, scope, 0, false, n);
  }

  lemma InnermostIsBalanced()
    ensures Balanced(Innermost)
  {
    assert Excess(Innermost, 0, 1) == Excess(Innermost, 0, 2) == 0;
  }
}
