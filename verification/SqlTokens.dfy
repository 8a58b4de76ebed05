/** The editor's tokenizer, and its agreement with the other two scanners about what is ordinary text. */
module SqlTokens {
  import opened Text
  import opened SqlScanner

  datatype TokenKind = StringToken | IdentifierToken | WordToken | NumberToken | PunctuationToken | OperatorToken

  /** The source stores `normalized` beside the text; it depends on nothing else. */
  datatype SqlToken = SqlToken(kind: TokenKind, text: string) {
    function Normalized(): string {
      match kind
      case IdentifierToken => Lower(Unquote(text))
      case WordToken => Lower(text)
      case _ => text
    }
  }

  // ---- Unquoting ----

  /** One leading `open` and one trailing `close` dropped, never the same character twice. */
  function StripEnds(s: string, open: char, close: char): string {
    var t := if s != "" && s[0] == open then s[1..] else s;
    if t != "" && t[|t| - 1] == close then t[..|t| - 1] else t
  }

  function Unquote(value: string): string {
    StripEnds(StripEnds(StripEnds(TrimJs(value), '`', '`'), '"', '"'), '[', ']')
  }

  // ---- Character classes and ends of multi-character tokens ----

  predicate WordStart(c: char) { IsLetter(c) || c == '_' }

  predicate WordPart(c: char) { IsLetter(c) || IsDigit(c) || c == '_' || c == '$' }

  predicate NumberPart(c: char) { IsDigit(c) || c == '.' }

  datatype RunClass = WordRun | NumberRun

  predicate PartOf(run: RunClass, c: char) {
    match run
    case WordRun => WordPart(c)
    case NumberRun => NumberPart(c)
  }

  predicate IsPunctuation(c: char) { c in "(),.*;" }

  function LineEnd(text: string, i: nat): (end: nat)
    requires i <= |text|
    ensures i <= end <= |text|
    decreases |text| - i
  {
    if i < |text| && text[i] != '\n' then LineEnd(text, i + 1) else i
  }

  function BlockEnd(text: string, i: nat): (end: nat)
    requires i <= |text|
    ensures i <= end <= |text|
    decreases |text| - i
  {
    if i == |text| then i
    else if text[i] == '*' && CharAt(text, i + 1) == "/" then i + 2
    else BlockEnd(text, i + 1)
  }

  function QuotedEnd(text: string, i: nat, q: char): (end: nat)
    requires i <= |text|
    ensures i <= end <= |text|
    decreases |text| - i
  {
    if i == |text| then i
    else if text[i] == q && CharAt(text, i + 1) == [q] then QuotedEnd(text, i + 2, q)
    else if text[i] == q then i + 1
    else QuotedEnd(text, i + 1, q)
  }

  function RunEnd(text: string, i: nat, run: RunClass): (end: nat)
    requires i <= |text|
    ensures i <= end <= |text|
    ensures forall p :: i <= p < end ==> PartOf(run, text[p])
    ensures end < |text| ==> !PartOf(run, text[end])
    decreases |text| - i
  {
    if i < |text| && PartOf(run, text[i]) then RunEnd(text, i + 1, run) else i
  }

  /** Where the `[...]` starting before `i` ends: after its `]`, or with the text. */
  function BracketEnd(text: string, i: nat): (end: nat)
    requires i <= |text|
    ensures i <= end <= |text|
    decreases |text| - i
  {
    if i == |text| then i
    else if text[i] == ']' then i + 1
    else BracketEnd(text, i + 1)
  }

  // ---- The cut of a text into tokens, spaces and comments ----

  datatype PieceKind = Space | Comment | Token(kind: TokenKind)

  datatype Cut = Cut(kind: PieceKind, start: nat, end: nat)

  function NextCut(text: string, i: nat): (cut: Cut)
    requires i < |text|
    ensures cut.start == i < cut.end <= |text|
  {
    var c, next := text[i], CharAt(text, i + 1);
    if IsJsSpace(c) then Cut(Space, i, i + 1)
    else if c == '-' && next == "-" then Cut(Comment, i, LineEnd(text, i + 2))
    else if c == '#' then Cut(Comment, i, LineEnd(text, i + 1))
    else if c == '/' && next == "*" then Cut(Comment, i, BlockEnd(text, i + 2))
    else if c == '\'' then Cut(Token(StringToken), i, QuotedEnd(text, i + 1, c))
    else if c == '`' then Cut(Token(IdentifierToken), i, QuotedEnd(text, i + 1, c))
    else if c == '"' then Cut(Token(IdentifierToken), i, QuotedEnd(text, i + 1, c))
    else if c == '[' then Cut(Token(IdentifierToken), i, BracketEnd(text, i + 1))
    else if WordStart(c) then Cut(Token(WordToken), i, RunEnd(text, i + 1, WordRun))
    else if IsDigit(c) then Cut(Token(NumberToken), i, RunEnd(text, i + 1, NumberRun))
    else if IsPunctuation(c) then Cut(Token(PunctuationToken), i, i + 1)
    else Cut(Token(OperatorToken), i, i + 1)
  }

  function Cuts(text: string, i: nat): seq<Cut>
    requires i <= |text|
    decreases |text| - i
  {
    if i == |text| then []
    else
      var cut := NextCut(text, i);
      [cut] + Cuts(text, cut.end)
  }

  /** The tokens of the text from position `i` on: its cuts without the spaces and comments. */
  function Tokens(text: string, i: nat): seq<SqlToken>
    requires i <= |text|
    decreases |text| - i
  {
    if i == |text| then []
    else
      var cut := NextCut(text, i);
      (if cut.kind.Token? then [SqlToken(cut.kind.kind, text[i..cut.end])] else []) + Tokens(text, cut.end)
  }

  // ---- The scanning loops ----

  method ReadUntilLineEnd(text: string, start: nat) returns (end: nat)
    requires start <= |text|
    ensures end == LineEnd(text, start)
    ensures start <= end <= |text| && (end < |text| ==> text[end] == '\n') && '\n' !in text[start..end]
  {
    end := start;
    while end < |text| && text[end] != '\n'
      invariant start <= end <= |text| && '\n' !in text[start..end]
      invariant LineEnd(text, end) == LineEnd(text, start)
    {
      end := end + 1;
    }
  }

  method ReadUntilBlockCommentEnd(text: string, start: nat) returns (end: nat)
    requires start <= |text|
    ensures end == BlockEnd(text, start)
  {
    var index := start;
    while index < |text|
      invariant start <= index <= |text|
      invariant BlockEnd(text, index) == BlockEnd(text, start)
    {
      if text[index] == '*' && CharAt(text, index + 1) == "/" {
        return index + 2;
      }
      index := index + 1;
    }
    end := |text|;
  }

  method ReadQuoted(text: string, start: nat, q: char) returns (end: nat)
    requires start < |text|
    ensures end == QuotedEnd(text, start + 1, q)
  {
    var index := start + 1;
    while index < |text|
      invariant start < index <= |text|
      invariant QuotedEnd(text, index, q) == QuotedEnd(text, start + 1, q)
    {
      if text[index] == q && CharAt(text, index + 1) == [q] {
        index := index + 2;
        continue;
      }
      if text[index] == q {
        return index + 1;
      }
      index := index + 1;
    }
    end := |text|;
  }

  method ReadRun(text: string, start: nat, run: RunClass) returns (end: nat)
    requires start <= |text|
    ensures end == RunEnd(text, start, run)
  {
    end := start;
    while end < |text| && PartOf(run, text[end])
      invariant start <= end <= |text|
      invariant RunEnd(text, end, run) == RunEnd(text, start, run)
    {
      end := end + 1;
    }
  }

  method ReadBracketed(text: string, start: nat) returns (end: nat)
    requires start <= |text|
    ensures end == BracketEnd(text, start)
  {
    end := start;
    while end < |text| && text[end] != ']'
      invariant start <= end <= |text|
      invariant BracketEnd(text, end) == BracketEnd(text, start)
    {
      end := end + 1;
    }
    end := if end < |text| then end + 1 else end;
  }

  /** Spaces and comments are skipped before a token is read. */
  predicate StartsToken(text: string, i: nat)
    requires i < |text|
  {
    var c, next := text[i], CharAt(text, i + 1);
    !IsJsSpace(c) && !(c == '-' && next == "-") && c != '#' && !(c == '/' && next == "*")
  }

  method ReadToken(text: string, index: nat) returns (kind: TokenKind, end: nat)
    requires index < |text| && StartsToken(text, index)
    ensures Cut(Token(kind), index, end) == NextCut(text, index)
  {
    var current := text[index];
    if current == '\'' {
      kind := StringToken;
      end := ReadQuoted(text, index, '\'');
    } else if current == '`' {
      kind := IdentifierToken;
      end := ReadQuoted(text, index, '`');
    } else if current == '"' {
      kind := IdentifierToken;
      end := ReadQuoted(text, index, '"');
    } else if current == '[' {
      kind := IdentifierToken;
      end := ReadBracketed(text, index + 1);
    } else if WordStart(current) {
      kind := WordToken;
      end := ReadRun(text, index + 1, WordRun);
    } else if IsDigit(current) {
      kind := NumberToken;
      end := ReadRun(text, index + 1, NumberRun);
    } else if IsPunctuation(current) {
      kind := PunctuationToken;
      end := index + 1;
    } else {
      kind := OperatorToken;
      end := index + 1;
    }
  }

  lemma TokensSkip(text: string, i: nat, cut: Cut)
    requires i < |text| && cut == NextCut(text, i) && !cut.kind.Token?
    ensures Tokens(text, i) == Tokens(text, cut.end)
  {
  }

  lemma TokensTake(text: string, i: nat, cut: Cut, taken: seq<SqlToken>)
    requires i < |text| && cut == NextCut(text, i) && cut.kind.Token?
    ensures taken + Tokens(text, i)
      == (taken + [SqlToken(cut.kind.kind, text[i..cut.end])]) + Tokens(text, cut.end)
  {
  }

  method SkipGap(text: string, index: nat) returns (end: nat)
    requires index < |text| && !StartsToken(text, index)
    ensures !NextCut(text, index).kind.Token? && end == NextCut(text, index).end
  {
    var current, next := text[index], CharAt(text, index + 1);
    if IsJsSpace(current) {
      end := index + 1;
    } else if current == '-' && next == "-" {
      end := ReadUntilLineEnd(text, index + 2);
    } else if current == '#' {
      end := ReadUntilLineEnd(text, index + 1);
    } else {
      end := ReadUntilBlockCommentEnd(text, index + 2);
    }
  }

  method TokenizeSql(text: string) returns (tokens: seq<SqlToken>)
    ensures tokens == Tokens(text, 0)
  {
    tokens := [];
    var index := 0;
    while index < |text|
      invariant index <= |text|
      invariant tokens + Tokens(text, index) == Tokens(text, 0)
      decreases |text| - index
    {
      if StartsToken(text, index) {
        var kind, end := ReadToken(text, index);
        TokensTake(text, index, NextCut(text, index), tokens);
        tokens := tokens + [SqlToken(kind, text[index..end])];
        index := end;
      } else {
        var end := SkipGap(text, index);
        TokensSkip(text, index, NextCut(text, index));
        index := end;
      }
    }
  }

  // ---- Nothing is lost ----

  function CutTexts(text: string, cuts: seq<Cut>): string
    requires forall cut <- cuts :: cut.start <= cut.end <= |text|
  {
    if cuts == [] then "" else text[cuts[0].start..cuts[0].end] + CutTexts(text, cuts[1..])
  }

  function TokensOf(text: string, cuts: seq<Cut>): seq<SqlToken>
    requires forall cut <- cuts :: cut.start <= cut.end <= |text|
  {
    if cuts == [] then []
    else
      (if cuts[0].kind.Token? then [SqlToken(cuts[0].kind.kind, text[cuts[0].start..cuts[0].end])] else [])
      + TokensOf(text, cuts[1..])
  }

  /** What is skipped between two tokens is one space character or one comment. */
  ghost predicate Skipped(s: string) {
    || (|s| == 1 && IsJsSpace(s[0]))
    || ("--" <= s && '\n' !in s)
    || ("#" <= s && '\n' !in s)
    || "/*" <= s
  }

  lemma {:induction false} LineEndHasNoBreak(text: string, i: nat)
    requires i <= |text|
    ensures '\n' !in text[i..LineEnd(text, i)]
    ensures LineEnd(text, i) < |text| ==> text[LineEnd(text, i)] == '\n'
    decreases |text| - i
  {
    if i < |text| && text[i] != '\n' {
      LineEndHasNoBreak(text, i + 1);
      assert text[i..LineEnd(text, i)] == [text[i]] + text[i + 1..LineEnd(text, i)];
    }
  }

  lemma SkippedCut(text: string, i: nat)
    requires i < |text| && !NextCut(text, i).kind.Token?
    ensures Skipped(text[i..NextCut(text, i).end])
  {
    var c, next, end := text[i], CharAt(text, i + 1), NextCut(text, i).end;
    if IsJsSpace(c) {
    } else if c == '-' {
      LineEndHasNoBreak(text, i + 2);
      assert text[i..end] == "--" + text[i + 2..end];
    } else if c == '#' {
      LineEndHasNoBreak(text, i + 1);
      assert text[i..end] == "#" + text[i + 1..end];
    } else {
      assert text[i..end] == "/*" + text[i + 2..end];
    }
  }

  /** The cuts, in order, are the whole text. */
  lemma {:induction false} CutsRebuild(text: string, i: nat)
    requires i <= |text|
    ensures forall cut <- Cuts(text, i) :: i <= cut.start < cut.end <= |text|
    ensures CutTexts(text, Cuts(text, i)) == text[i..]
    decreases |text| - i
  {
    if i < |text| {
      var cut := NextCut(text, i);
      CutsRebuild(text, cut.end);
      assert text[i..] == text[i..cut.end] + text[cut.end..];
      assert Cuts(text, i)[1..] == Cuts(text, cut.end);
    }
  }

  /** The tokens are the cuts that are neither a space nor a comment, each with exactly the text it spans. */
  lemma {:induction false} TokensAreTheRest(text: string, i: nat)
    requires i <= |text|
    ensures forall cut <- Cuts(text, i) :: cut.start < cut.end <= |text|
    ensures Tokens(text, i) == TokensOf(text, Cuts(text, i))
    ensures forall cut <- Cuts(text, i) :: !cut.kind.Token? ==> Skipped(text[cut.start..cut.end])
    decreases |text| - i
  {
    CutsRebuild(text, i);
    if i < |text| {
      var cut := NextCut(text, i);
      TokensAreTheRest(text, cut.end);
      assert Cuts(text, i)[1..] == Cuts(text, cut.end);
      if !cut.kind.Token? {
        SkippedCut(text, i);
      }
    }
  }

  // ---- Agreement with the automaton ----

  /** The tokenizer, at a cut, and the automaton read the next character alike. */
  ghost predicate AtBoundary(text: string, i: nat) {
    i <= |text| && (i < |text| ==> Delta(StateAt(text, i), text[i]) == Enter(text[i]))
  }

  predicate SemicolonAt(text: string, p: nat)
    requires p < |text|
  {
    text[p] == ';' && PlainAt(text, p)
  }

  lemma {:induction false} LineRun(text: string, i: nat)
    requires i <= |text| && StateAt(text, i) == Line
    ensures forall p :: i <= p <= LineEnd(text, i) ==> StateAt(text, p) == Line
    ensures AtBoundary(text, LineEnd(text, i))
    decreases |text| - i
  {
    if i < |text| && text[i] != '\n' {
      LineRun(text, i + 1);
    }
  }

  lemma {:induction false} BlockRun(text: string, i: nat)
    requires i <= |text| && ModeOf(StateAt(text, i)) == BlockComment
    requires i < |text| ==> !Completes(StateAt(text, i), text[i])
    ensures forall p :: i <= p < BlockEnd(text, i) ==> Inside(StateAt(text, p))
    ensures AtBoundary(text, BlockEnd(text, i))
    decreases |text| - i
  {
    if i < |text| && text[i] == '*' && CharAt(text, i + 1) == "/" {
      assert StateAt(text, i + 1) == BlockStar;
      assert StateAt(text, i + 2) == Plain;
    } else if i < |text| {
      BlockRun(text, i + 1);
    }
  }

  lemma {:induction false} QuoteRun(text: string, i: nat, q: char)
    requires i <= |text| && IsQuote(q) && StateAt(text, i) == InQuote(q)
    ensures forall p :: i <= p < QuotedEnd(text, i, q) ==> Inside(StateAt(text, p)) || text[p] == q
    ensures AtBoundary(text, QuotedEnd(text, i, q))
    decreases |text| - i
  {
    if i < |text| && text[i] == q && CharAt(text, i + 1) == [q] {
      assert StateAt(text, i + 2) == InQuote(q);
      QuoteRun(text, i + 2, q);
    } else if i < |text| && text[i] != q {
      QuoteRun(text, i + 1, q);
    }
  }

  lemma {:induction false} PlainRun(text: string, i: nat, end: nat)
    requires 0 < i <= end <= |text| && StateAt(text, i) == Plain
    requires forall p :: i <= p < end ==> Enter(text[p]) == Plain
    ensures StateAt(text, end) == Plain
    decreases end - i
  {
    if i < end {
      PlainRun(text, i + 1, end);
    }
  }

  /** Outside brackets, a cut ends where the automaton is back in step, and holds a plain `;` only as a token. */
  lemma CutAgrees(text: string, i: nat)
    requires i < |text| && AtBoundary(text, i) && text[i] != '['
    ensures AtBoundary(text, NextCut(text, i).end)
    ensures forall p :: i <= p < NextCut(text, i).end ==>
      (SemicolonAt(text, p) <==> p == i && text[i] == ';')
  {
    var c, next := text[i], CharAt(text, i + 1);
    var end := NextCut(text, i).end;
    assert StateAt(text, i + 1) == Enter(c);
    if c == '-' && next == "-" {
      assert StateAt(text, i + 2) == Line;
      LineRun(text, i + 2);
    } else if c == '#' {
      LineRun(text, i + 1);
    } else if c == '/' && next == "*" {
      assert StateAt(text, i + 2) == Block;
      BlockRun(text, i + 2);
    } else if IsQuote(c) {
      QuoteRun(text, i + 1, c);
    } else if WordStart(c) || IsDigit(c) {
      PlainRun(text, i + 1, end);
    }
  }

  predicate HasSemicolonCut(cuts: seq<Cut>, text: string, p: nat)
    requires p < |text|
  {
    text[p] == ';' && Cut(Token(PunctuationToken), p, p + 1) in cuts
  }

  predicate IsBracket(text: string, cut: Cut) { cut.start < |text| && text[cut.start] == '[' }

  /** The position is part of a `[...]` token. */
  ghost predicate InBracket(cuts: seq<Cut>, text: string, p: nat) {
    exists cut :: cut in cuts && IsBracket(text, cut) && cut.start <= p < cut.end
  }

  /** The automaton is back in step at the end of every `[...]` token. */
  ghost predicate BracketsInStep(text: string, cuts: seq<Cut>) {
    forall cut <- cuts :: IsBracket(text, cut) ==> AtBoundary(text, cut.end)
  }

  lemma BracketCut(text: string, i: nat)
    requires i < |text| && text[i] == '['
    ensures NextCut(text, i) == Cut(Token(IdentifierToken), i, BracketEnd(text, i + 1))
  {
  }

  lemma OneCutAgrees(text: string, i: nat, p: nat)
    requires i < |text| && AtBoundary(text, i) && i <= p < NextCut(text, i).end
    ensures
      var cut := NextCut(text, i);
      text[p] == ';' && cut == Cut(Token(PunctuationToken), p, p + 1) <==> SemicolonAt(text, p) && !IsBracket(text, cut)
  {
    if text[i] == '[' {
      BracketCut(text, i);
    } else {
      CutAgrees(text, i);
      assert text[i] == ';' ==> NextCut(text, i) == Cut(Token(PunctuationToken), i, i + 1);
    }
  }

  lemma CutsUnfold(text: string, i: nat, p: nat)
    requires i < |text| && i <= p < |text|
    ensures
      var cut, rest := NextCut(text, i), Cuts(text, NextCut(text, i).end);
      && (p < cut.end ==>
           (HasSemicolonCut(Cuts(text, i), text, p) <==>
              text[p] == ';' && cut == Cut(Token(PunctuationToken), p, p + 1))
           && (InBracket(Cuts(text, i), text, p) <==> IsBracket(text, cut)))
      && (p >= cut.end ==>
           (HasSemicolonCut(Cuts(text, i), text, p) <==> HasSemicolonCut(rest, text, p))
           && (InBracket(Cuts(text, i), text, p) <==> InBracket(rest, text, p)))
  {
    var cut, rest := NextCut(text, i), Cuts(text, NextCut(text, i).end);
    CutsRebuild(text, cut.end);
    hide NextCut, IsBracket, CutTexts;
    var cuts := Cuts(text, i);
    assert cuts == [cut] + rest;
    hide Cuts;
    var semicolon := Cut(Token(PunctuationToken), p, p + 1);
    assert semicolon in cuts <==> cut == semicolon || semicolon in rest;
    if p < cut.end {
      assert cut in cuts;
    } else if InBracket(rest, text, p) {
      var c :| c in rest && IsBracket(text, c) && c.start <= p < c.end;
      assert c in cuts;
    }
  }

  lemma {:induction false} CutsAgree(text: string, i: nat)
    requires i <= |text| && AtBoundary(text, i) && BracketsInStep(text, Cuts(text, i))
    ensures forall p :: i <= p < |text| ==>
      (HasSemicolonCut(Cuts(text, i), text, p) <==> SemicolonAt(text, p) && !InBracket(Cuts(text, i), text, p))
    decreases |text| - i
  {
    if i < |text| {
      var cut := NextCut(text, i);
      CutEndsInStep(text, i);
      CutsAgree(text, cut.end);
      forall p | i <= p < |text|
        ensures HasSemicolonCut(Cuts(text, i), text, p)
           <==> SemicolonAt(text, p) && !InBracket(Cuts(text, i), text, p)
      {
        CutsUnfold(text, i, p);
        if p < cut.end { OneCutAgrees(text, i, p); }
        hide HasSemicolonCut, InBracket, Cuts, NextCut, SemicolonAt, BracketsInStep;
      }
    }
  }

  lemma CutEndsInStep(text: string, i: nat)
    requires i < |text| && AtBoundary(text, i) && BracketsInStep(text, Cuts(text, i))
    ensures
      var cut := NextCut(text, i);
      AtBoundary(text, cut.end) && BracketsInStep(text, Cuts(text, cut.end))
  {
    var cut := NextCut(text, i);
    assert Cuts(text, i) == [cut] + Cuts(text, cut.end);
    assert cut in Cuts(text, i);
    assert forall c <- Cuts(text, cut.end) :: c in Cuts(text, i);
    if text[i] != '[' { CutAgrees(text, i); }
  }

  /**
   * As long as the automaton is back in step after every bracket, the `;` tokens are exactly the semicolons outside
   * brackets that the region scanner puts outside quotes and comments; and so the ones that may separate statements.
   */
  lemma ScannersAgree(text: string, p: nat)
    requires p < |text| && text[p] == ';' && BracketsInStep(text, Cuts(text, 0))
    ensures HasSemicolonCut(Cuts(text, 0), text, p) <==> !InsideRegion(text, p) && !InBracket(Cuts(text, 0), text, p)
    ensures SplitsAt(text, p) && !InBracket(Cuts(text, 0), text, p) ==> HasSemicolonCut(Cuts(text, 0), text, p)
  {
    CutsAgree(text, 0);
    OrdinarySemicolon(text, p);
    hide Cuts, StateAt, Nesting, InBracket, HasSemicolonCut;
  }

  lemma OrdinarySemicolon(text: string, p: nat)
    requires p < |text| && text[p] == ';'
    ensures SemicolonAt(text, p) <==> !InsideRegion(text, p)
    ensures SplitsAt(text, p) ==> SemicolonAt(text, p)
  {
    hide Nesting;
  }

  // ---- When brackets stay in step, and when the scanners agree on every semicolon ----

  ghost predicate PlainWithin(text: string, cuts: seq<Cut>) {
    forall cut, p :: cut in cuts && IsBracket(text, cut) && cut.start < p < cut.end && p < |text| ==>
      Enter(text[p]) == Plain
  }

  /** No `[...]` token holds a quote, a `#` or the beginning of another comment. */
  ghost predicate PlainBrackets(text: string) { PlainWithin(text, Cuts(text, 0)) }

  /** A plain bracket ends in step, and its semicolons are ordinary text to the other scanners. */
  lemma PlainBracketEnds(text: string, i: nat)
    requires i < |text| && AtBoundary(text, i) && text[i] == '['
    requires forall p :: i < p < NextCut(text, i).end ==> Enter(text[p]) == Plain
    ensures AtBoundary(text, NextCut(text, i).end)
    ensures forall p :: i <= p < NextCut(text, i).end && text[p] == ';' ==> SemicolonAt(text, p)
  {
    var end := NextCut(text, i).end;
    assert StateAt(text, i + 1) == Plain;
    PlainRun(text, i + 1, end);
    forall p | i <= p < end && text[p] == ';'
      ensures SemicolonAt(text, p)
    {
      PlainRun(text, i + 1, p);
    }
  }

  lemma {:induction false} PlainCutsInStep(text: string, i: nat)
    requires i <= |text| && AtBoundary(text, i) && PlainWithin(text, Cuts(text, i))
    ensures BracketsInStep(text, Cuts(text, i))
    ensures forall p :: i <= p < |text| && text[p] == ';' && InBracket(Cuts(text, i), text, p) ==> SemicolonAt(text, p)
    decreases |text| - i
  {
    if i < |text| {
      var cut, cuts := NextCut(text, i), Cuts(text, i);
      var rest := Cuts(text, cut.end);
      assert cuts == [cut] + rest;
      assert cut in cuts && forall c <- rest :: c in cuts;
      if text[i] == '[' { PlainBracketEnds(text, i); } else { CutAgrees(text, i); }
      PlainCutsInStep(text, cut.end);
      forall p | i <= p < |text| && text[p] == ';' && InBracket(cuts, text, p)
        ensures SemicolonAt(text, p)
      {
        CutsUnfold(text, i, p);
      }
    }
  }

  /** With plain brackets a semicolon is a token exactly when it is neither quoted, commented out nor in brackets. */
  lemma PlainBracketsAgree(text: string, p: nat)
    requires p < |text| && text[p] == ';' && PlainBrackets(text)
    ensures HasSemicolonCut(Cuts(text, 0), text, p) <==> !InsideRegion(text, p) && !InBracket(Cuts(text, 0), text, p)
    ensures InBracket(Cuts(text, 0), text, p) ==> !InsideRegion(text, p)
  {
    PlainCutsInStep(text, 0);
    ScannersAgree(text, p);
  }

  /** So with plain brackets the scanners agree on every semicolon exactly when no bracket holds one. */
  lemma AgreeUnlessInBrackets(text: string)
    requires PlainBrackets(text)
    ensures (forall p :: 0 <= p < |text| && text[p] == ';' ==>
               (HasSemicolonCut(Cuts(text, 0), text, p) <==> !InsideRegion(text, p)))
       <==> (forall p :: 0 <= p < |text| && text[p] == ';' ==> !InBracket(Cuts(text, 0), text, p))
  {
    forall p | 0 <= p < |text| && text[p] == ';'
      ensures (HasSemicolonCut(Cuts(text, 0), text, p) <==> !InsideRegion(text, p))
         <==> !InBracket(Cuts(text, 0), text, p)
    {
      PlainBracketsAgree(text, p);
    }
    hide HasSemicolonCut, InBracket, InsideRegion, Cuts, PlainBrackets;
  }

  /** Every `[` of the text is quoted or commented out. */
  ghost predicate BracketsQuoted(text: string) {
    forall p :: 0 <= p < |text| && text[p] == '[' ==> !PlainAt(text, p)
  }

  /** Then there is no bracket token at all. */
  lemma {:induction false} QuotedBracketsAreNoTokens(text: string, i: nat)
    requires i <= |text| && AtBoundary(text, i) && BracketsQuoted(text)
    ensures forall cut <- Cuts(text, i) :: !IsBracket(text, cut)
    ensures PlainWithin(text, Cuts(text, i))
    decreases |text| - i
  {
    if i < |text| {
      assert text[i] != '[';
      CutAgrees(text, i);
      QuotedBracketsAreNoTokens(text, NextCut(text, i).end);
      assert Cuts(text, i) == [NextCut(text, i)] + Cuts(text, NextCut(text, i).end);
    }
  }

  lemma {:induction false} PlainPrefix(s: string, p: nat)
    requires p <= |s| && forall q :: 0 <= q < p ==> Enter(s[q]) == Plain
    ensures StateAt(s, p) == Plain
  {
    if p > 0 {
      PlainPrefix(s, p - 1);
    }
  }

  lemma {:induction false} BracketEndAt(text: string, i: nat, close: nat)
    requires i <= close < |text| && text[close] == ']'
    requires forall q :: i <= q < close ==> text[q] != ']'
    ensures BracketEnd(text, i) == close + 1
    decreases close - i
  {
    if i < close {
      BracketEndAt(text, i + 1, close);
    }
  }

  /** A quote in a bracket puts the scanners out of step: the semicolon after it is a token, yet quoted for the rest. */
  lemma QuoteInBracketDisagrees(before: string, quote: char)
    requires IsQuote(quote) && forall c <- before :: Enter(c) == Plain && c != ']'
    ensures
      var text := "[" + before + [quote] + "];";
      var p := |before| + 3;
      InsideRegion(text, p) && HasSemicolonCut(Cuts(text, 0), text, p)
  {
    var text := "[" + before + [quote] + "];";
    var p := |before| + 3;
    assert forall q :: 1 <= q < p - 2 ==> text[q] == before[q - 1] && text[q] in before;
    PlainPrefix(text, p - 2);
    assert StateAt(text, p - 1) == InQuote(quote);
    assert StateAt(text, p) == InQuote(quote);
    BracketEndAt(text, 1, p - 1);
    assert NextCut(text, 0) == Cut(Token(IdentifierToken), 0, p);
    assert NextCut(text, p) == Cut(Token(PunctuationToken), p, p + 1);
    assert Cuts(text, p) == [NextCut(text, p)] + Cuts(text, p + 1);
    assert Cuts(text, 0) == [NextCut(text, 0)] + Cuts(text, p);
    assert Cuts(text, 0)[1] == NextCut(text, p);
  }
}
