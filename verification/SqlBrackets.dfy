/** The tokenizer against an automaton of its own that knows `[...]`; and so when the scanners agree, for every text. */
module SqlBrackets {
  import opened SqlScanner
  import opened SqlTokens

  datatype TokenState = Outside(state: ScanState) | InsideBracket

  /** A `[` opens a bracket in ordinary text only, and only a `]` ends it. */
  function TokenDelta(s: TokenState, c: char): TokenState {
    match s
    case InsideBracket => if c == ']' then Outside(Plain) else InsideBracket
    case Outside(q) => if c == '[' && Delta(q, c) == Plain then InsideBracket else Outside(Delta(q, c))
  }

  function TokenStateAt(text: string, p: nat): TokenState
    requires p <= |text|
  {
    if p == 0 then Outside(Plain) else TokenDelta(TokenStateAt(text, p - 1), text[p - 1])
  }

  /** Ordinary text for the tokenizer: neither quoted nor commented out nor in brackets. */
  predicate OrdinaryAt(text: string, p: nat)
    requires p < |text|
  {
    TokenStateAt(text, p).Outside? && !Inside(TokenStateAt(text, p).state)
  }

  ghost predicate InStep(text: string, i: nat) {
    i <= |text| && (i < |text| ==> TokenDelta(TokenStateAt(text, i), text[i]) == TokenDelta(Outside(Plain), text[i]))
  }

  // ---- A cut depends on the rest of the text only ----

  lemma {:induction false} LineEndOfRest(text: string, i: nat, k: nat)
    requires i + k <= |text|
    ensures LineEnd(text, i + k) == i + LineEnd(text[i..], k)
    decreases |text| - k
  {
    if i + k < |text| && text[i + k] != '\n' { LineEndOfRest(text, i, k + 1); }
  }

  lemma {:induction false} BlockEndOfRest(text: string, i: nat, k: nat)
    requires i + k <= |text|
    ensures BlockEnd(text, i + k) == i + BlockEnd(text[i..], k)
    decreases |text| - k
  {
    if i + k < |text| { BlockEndOfRest(text, i, k + 1); }
  }

  lemma {:induction false} QuotedEndOfRest(text: string, i: nat, k: nat, q: char)
    requires i + k <= |text|
    ensures QuotedEnd(text, i + k, q) == i + QuotedEnd(text[i..], k, q)
    decreases |text| - k
  {
    if i + k < |text| && text[i + k] == q && CharAt(text, i + k + 1) == [q] {
      QuotedEndOfRest(text, i, k + 2, q);
    } else if i + k < |text| && text[i + k] != q {
      QuotedEndOfRest(text, i, k + 1, q);
    }
  }

  lemma {:induction false} RunEndOfRest(text: string, i: nat, k: nat, run: RunClass)
    requires i + k <= |text|
    ensures RunEnd(text, i + k, run) == i + RunEnd(text[i..], k, run)
    decreases |text| - k
  {
    if i + k < |text| && PartOf(run, text[i + k]) { RunEndOfRest(text, i, k + 1, run); }
  }

  lemma CutOfRest(text: string, i: nat)
    requires i < |text| && text[i] != '['
    ensures NextCut(text, i).end == i + NextCut(text[i..], 0).end
  {
    hide LineEnd, BlockEnd, QuotedEnd, RunEnd, BracketEnd, PartOf;
    var c := text[i];
    assert CharAt(text[i..], 1) == CharAt(text, i + 1);
    RunEndOfRest(text, i, 1, WordRun);
    RunEndOfRest(text, i, 1, NumberRun);
    QuotedEndOfRest(text, i, 1, c);
    LineEndOfRest(text, i, 1);
    if i + 2 <= |text| {
      LineEndOfRest(text, i, 2);
      BlockEndOfRest(text, i, 2);
    }
  }

  // ---- Within one cut ----

  /** Inside a cut that is no bracket, a `[` is quoted or commented out. */
  lemma BracketsAreInside(text: string, i: nat)
    requires i < |text| && AtBoundary(text, i) && text[i] != '['
    ensures forall p :: i < p < NextCut(text, i).end && text[p] == '[' ==> Inside(StateAt(text, p))
  {
    var c, next := text[i], CharAt(text, i + 1);
    assert StateAt(text, i + 1) == Enter(c);
    if c == '-' && next == "-" {
      assert StateAt(text, i + 2) == Line;
      LineRun(text, i + 2);
    } else if c == '#' {
      LineRun(text, i + 1);
    } else if c == '/' && next == "*" {
      assert StateAt(text, i + 2) == Block;
      BlockRun(text, i + 2);
    } else if IsQuote(c) {
      QuoteRun(text, i + 1, c);
    }
  }

  lemma {:induction false} SameWithoutBrackets(text: string, p: nat)
    requires p <= |text| && forall k :: 0 <= k < p && text[k] == '[' ==> Inside(StateAt(text, k))
    ensures TokenStateAt(text, p) == Outside(StateAt(text, p))
  {
    if p > 0 { SameWithoutBrackets(text, p - 1); }
  }

  lemma {:induction false} RestartsInStep(text: string, i: nat, k: nat)
    requires 0 < k && i + k <= |text| && InStep(text, i)
    ensures TokenStateAt(text, i + k) == TokenStateAt(text[i..], k)
  {
    if k > 1 { RestartsInStep(text, i, k - 1); }
    assert text[i..][k - 1] == text[i + k - 1];
  }

  lemma {:induction false} BracketStays(text: string, i: nat, p: nat)
    requires 0 < i <= |text| && i <= p < BracketEnd(text, i) && TokenStateAt(text, i) == InsideBracket
    ensures TokenStateAt(text, p) == InsideBracket
    decreases p - i
  {
    if i < p { BracketStays(text, i + 1, p); }
  }

  lemma {:induction false} BracketIsLeft(text: string, i: nat)
    requires 0 < i <= |text| && TokenStateAt(text, i) == InsideBracket
    ensures BracketEnd(text, i) < |text| ==> TokenStateAt(text, BracketEnd(text, i)) == Outside(Plain)
    decreases |text| - i
  {
    if i < |text| && text[i] != ']' { BracketIsLeft(text, i + 1); }
  }

  lemma BracketIsOneCut(text: string, i: nat)
    requires i < |text| && InStep(text, i) && text[i] == '['
    ensures InStep(text, NextCut(text, i).end)
    ensures forall p :: i < p < NextCut(text, i).end ==> !OrdinaryAt(text, p)
  {
    BracketCut(text, i);
    assert TokenStateAt(text, i + 1) == InsideBracket;
    BracketIsLeft(text, i + 1);
    forall p | i < p < NextCut(text, i).end
      ensures !OrdinaryAt(text, p)
    {
      BracketStays(text, i + 1, p);
    }
  }

  lemma OtherIsOneCut(text: string, i: nat)
    requires i < |text| && InStep(text, i) && text[i] != '['
    ensures InStep(text, NextCut(text, i).end)
    ensures forall p :: i < p < NextCut(text, i).end && text[p] == ';' ==> !OrdinaryAt(text, p)
  {
    var rest := text[i..];
    var end := NextCut(rest, 0).end;
    CutOfRest(text, i);
    FirstCutIsOne(rest);
    hide NextCut, OrdinaryAt, TokenStateAt;
    RestartsInStep(text, i, end);
    StillInStep(text, i, end);
    forall p | i < p < i + end && text[p] == ';'
      ensures !OrdinaryAt(text, p)
    {
      RestartsInStep(text, i, p - i);
      SameOrdinary(text, i, p - i);
      assert rest[p - i] == ';';
    }
  }

  lemma StillInStep(text: string, i: nat, k: nat)
    requires i + k <= |text| && InStep(text[i..], k) && TokenStateAt(text, i + k) == TokenStateAt(text[i..], k)
    ensures InStep(text, i + k)
  {
    assert i + k < |text| ==> text[i..][k] == text[i + k];
  }

  lemma SameOrdinary(text: string, i: nat, k: nat)
    requires i + k < |text| && TokenStateAt(text, i + k) == TokenStateAt(text[i..], k)
    ensures OrdinaryAt(text, i + k) <==> OrdinaryAt(text[i..], k)
  {
  }

  /** The first cut of a text, unless it is a bracket. */
  lemma FirstCutIsOne(text: string)
    requires text != "" && text[0] != '['
    ensures InStep(text, NextCut(text, 0).end)
    ensures forall p :: 0 < p < NextCut(text, 0).end && text[p] == ';' ==> !OrdinaryAt(text, p)
  {
    var end := NextCut(text, 0).end;
    CutAgrees(text, 0);
    BracketsAreInside(text, 0);
    hide NextCut;
    SameUpTo(text, end);
    EndsInStep(text, end);
    forall p | 0 < p < end && text[p] == ';'
      ensures !OrdinaryAt(text, p)
    {
      assert !SemicolonAt(text, p);
      PlainSemicolon(text, p);
    }
  }

  lemma {:induction false} QuotesAreQuotes(text: string, p: nat)
    requires p <= |text|
    ensures var s := StateAt(text, p); s.InQuote? || s.AfterQuote? ==> IsQuote(s.quote)
  {
    if p > 0 { QuotesAreQuotes(text, p - 1); }
  }

  lemma PlainSemicolon(text: string, p: nat)
    requires p < |text| && text[p] == ';'
    ensures SemicolonAt(text, p) <==> !Inside(StateAt(text, p))
  {
    QuotesAreQuotes(text, p);
    hide StateAt;
  }

  lemma SameUpTo(text: string, end: nat)
    requires end <= |text| && (text != "" ==> text[0] != '[')
    requires forall p :: 0 < p < end && text[p] == '[' ==> Inside(StateAt(text, p))
    ensures forall p :: 0 <= p <= end ==> TokenStateAt(text, p) == Outside(StateAt(text, p))
  {
    forall p | 0 <= p <= end
      ensures TokenStateAt(text, p) == Outside(StateAt(text, p))
    {
      SameWithoutBrackets(text, p);
    }
  }

  lemma EndsInStep(text: string, end: nat)
    requires AtBoundary(text, end) && TokenStateAt(text, end) == Outside(StateAt(text, end))
    ensures InStep(text, end)
  {
  }

  lemma SemicolonCut(text: string, i: nat)
    requires i < |text| && InStep(text, i)
    ensures text[i] == ';' ==> NextCut(text, i) == Cut(Token(PunctuationToken), i, i + 1) && OrdinaryAt(text, i)
  {
  }

  lemma {:induction false} TokensAreOrdinary(text: string, i: nat)
    requires i <= |text| && InStep(text, i)
    ensures forall p :: i <= p < |text| ==>
      (HasSemicolonCut(Cuts(text, i), text, p) <==> text[p] == ';' && OrdinaryAt(text, p))
    decreases |text| - i
  {
    if i < |text| {
      var cut := NextCut(text, i);
      if text[i] == '[' { BracketIsOneCut(text, i); } else { OtherIsOneCut(text, i); }
      TokensAreOrdinary(text, cut.end);
      SemicolonCut(text, i);
      forall p | i <= p < |text|
        ensures HasSemicolonCut(Cuts(text, i), text, p) <==> text[p] == ';' && OrdinaryAt(text, p)
      {
        CutsUnfold(text, i, p);
        hide HasSemicolonCut, Cuts, NextCut, OrdinaryAt, InStep, InBracket;
      }
    }
  }

  /**
   * For every text, a semicolon is a token exactly when it is ordinary text for the automaton that knows brackets; so
   * the scanners agree on it exactly when the automata with and without brackets judge it alike.
   */
  lemma SemicolonTokensExactly(text: string, p: nat)
    requires p < |text| && text[p] == ';'
    ensures HasSemicolonCut(Cuts(text, 0), text, p) <==> OrdinaryAt(text, p)
    ensures (HasSemicolonCut(Cuts(text, 0), text, p) <==> !InsideRegion(text, p))
       <==> (OrdinaryAt(text, p) <==> !Inside(StateAt(text, p)))
  {
    TokensAreOrdinary(text, 0);
    OrdinarySemicolon(text, p);
    PlainSemicolon(text, p);
    hide Cuts, StateAt, TokenStateAt, HasSemicolonCut, OrdinaryAt;
  }
}
