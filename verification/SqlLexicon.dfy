/** Texts written token by token, and that the tokenizer reads exactly those tokens. */
module SqlLexicon {
  import opened SqlNames
  import opened SqlRegions
  import opened SqlScanner
  import opened SqlTokens
  import opened Text

  /** A token as it is written, or what may stand between tokens. */
  datatype Written =
    | WrittenString(body: string)
    | WrittenName(quote: char, body: string)
    | WrittenBracket(body: string)
    | WrittenWord(word: string)
    | WrittenNumber(digits: string)
    | WrittenMark(mark: char)
    | WrittenOperator(operator: char)
    | WrittenSpace(space: char)
    | WrittenLine(hash: bool, note: string)
    | WrittenBlock(note: string)

  function Layout(w: Written): string {
    match w
    case WrittenString(body) => ['\''] + (Doubled(body, '\'') + ['\''])
    case WrittenName(quote, body) => [quote] + (Doubled(body, quote) + [quote])
    case WrittenBracket(body) => ['['] + (body + [']'])
    case WrittenWord(word) => word
    case WrittenNumber(digits) => digits
    case WrittenMark(mark) => [mark]
    case WrittenOperator(operator) => [operator]
    case WrittenSpace(space) => [space]
    case WrittenLine(hash, note) => (if hash then "#" else "--") + note
    case WrittenBlock(note) => "/*" + (note + "*/")
  }

  predicate WordChar(c: char) { 'a' <= c <= 'z' || 'A' <= c <= 'Z' || '0' <= c <= '9' || c == '_' || c == '$' }

  predicate DigitOrPoint(c: char) { '0' <= c <= '9' || c == '.' }

  /** The token is what it says, whatever text comes after it. */
  ghost predicate FineBefore(w: Written, rest: string) {
    match w
    case WrittenString(_) => rest != "" ==> rest[0] != '\''
    case WrittenName(quote, _) => (quote == '`' || quote == '"') && (rest != "" ==> rest[0] != quote)
    case WrittenBracket(body) => ']' !in body
    case WrittenWord(word) =>
      && word != "" && !('0' <= word[0] <= '9') && word[0] != '$' && (forall c <- word :: WordChar(c))
      && (rest != "" ==> !WordChar(rest[0]))
    case WrittenNumber(digits) =>
      && digits != "" && '0' <= digits[0] <= '9' && (forall c <- digits :: DigitOrPoint(c))
      && (rest != "" ==> !DigitOrPoint(rest[0]))
    case WrittenMark(mark) => mark in {'(', ')', ',', '.', '*', ';'}
    case WrittenOperator(c) =>
      && !IsJsSpace(c) && c !in {'\'', '`', '"', '[', '#', '(', ')', ',', '.', '*', ';'} && (WordChar(c) ==> c == '$')
      && (c == '-' && rest != "" ==> rest[0] != '-') && (c == '/' && rest != "" ==> rest[0] != '*')
    case WrittenSpace(space) => IsJsSpace(space)
    case WrittenLine(_, note) => '\n' !in note && (rest != "" ==> rest[0] == '\n')
    case WrittenBlock(note) => Fine(BlockNote(note), rest)
  }

  function LayoutAll(written: seq<Written>): string {
    if written == [] then "" else Layout(written[0]) + LayoutAll(written[1..])
  }

  ghost predicate AllFineBefore(written: seq<Written>) {
    written != [] ==> FineBefore(written[0], LayoutAll(written[1..])) && AllFineBefore(written[1..])
  }

  /** The kind of the token, if it is one. */
  function KindOf(w: Written): PieceKind {
    match w
    case WrittenString(_) => Token(StringToken)
    case WrittenName(_, _) => Token(IdentifierToken)
    case WrittenBracket(_) => Token(IdentifierToken)
    case WrittenWord(_) => Token(WordToken)
    case WrittenNumber(_) => Token(NumberToken)
    case WrittenMark(_) => Token(PunctuationToken)
    case WrittenOperator(_) => Token(OperatorToken)
    case WrittenSpace(_) => Space
    case WrittenLine(_, _) => Comment
    case WrittenBlock(_) => Comment
  }

  /** The tokens of the written ones, each with its kind and exactly its text; spaces and comments are none. */
  function TokensWritten(written: seq<Written>): seq<SqlToken> {
    if written == [] then []
    else
      (if KindOf(written[0]).Token? then [SqlToken(KindOf(written[0]).kind, Layout(written[0]))] else [])
      + TokensWritten(written[1..])
  }

  // ---- One token ----

  lemma BetweenMarks(text: string, i: nat, mark: char, inner: string, rest: string)
    requires Here(text, i, [mark] + (inner + [mark]), rest)
    ensures
      var end := i + 1 + |inner|;
      && end < |text| && text[i] == mark && text[i + 1..end] == inner && text[end] == mark
      && (if rest == "" then end + 1 == |text| else end + 1 < |text| && text[end + 1] == rest[0])
  {
    var whole := [mark] + (inner + [mark]);
    HereAt(text, i, whole, rest);
    assert text[i + 0] == whole[0] && text[i + (|inner| + 1)] == whole[|inner| + 1];
    hide Here;
    forall k | 0 <= k < |inner|
      ensures text[i + 1 + k] == inner[k]
    {
      assert text[i + (k + 1)] == whole[k + 1];
    }
  }

  lemma QuotedIsCut(text: string, i: nat, quote: char, body: string, rest: string)
    requires Here(text, i, [quote] + (Doubled(body, quote) + [quote]), rest) && (rest != "" ==> rest[0] != quote)
    ensures i + |Doubled(body, quote)| + 2 <= |text| && text[i] == quote
    ensures QuotedEnd(text, i + 1, quote) == i + |Doubled(body, quote)| + 2
  {
    hide Doubled, QuotedEnd, Here;
    BetweenMarks(text, i, quote, Doubled(body, quote), rest);
    DoubledEnds(text, i + 1, body, quote);
  }

  lemma {:induction false} BracketIsCut(text: string, j: nat, body: string, rest: string)
    requires Here(text, j, body + [']'], rest) && ']' !in body
    ensures j + |body| < |text| && BracketEnd(text, j) == j + |body| + 1
    decreases |body|
  {
    HereAt(text, j, body + [']'], rest);
    assert text[j + 0] == (body + [']'])[0];
    if body != "" {
      assert text[j + 1..] == text[j..][1..] == (body[1..] + [']']) + rest;
      BracketIsCut(text, j + 1, body[1..], rest);
    }
  }

  lemma {:induction false} LineIsCut(text: string, j: nat, note: string, rest: string)
    requires Here(text, j, note, rest) && '\n' !in note && (rest != "" ==> rest[0] == '\n')
    ensures j + |note| <= |text| && LineEnd(text, j) == j + |note|
    decreases |note|
  {
    HereAt(text, j, note, rest);
    if note != "" {
      assert text[j + 0] == note[0];
      assert text[j + 1..] == text[j..][1..] == note[1..] + rest;
      LineIsCut(text, j + 1, note[1..], rest);
    }
  }

  lemma {:induction false} BlockIsCut(text: string, j: nat, note: string, rest: string)
    requires Here(text, j, note + "*/", rest) && Fine(BlockNote(note), rest)
    ensures j + |note| + 2 <= |text| && BlockEnd(text, j) == j + |note| + 2
    decreases |note|
  {
    HereAt(text, j, note + "*/", rest);
    assert text[j + 0] == (note + "*/")[0] && text[j + 1] == (note + "*/")[1];
    if note != "" {
      assert text[j + 1..] == text[j..][1..] == (note[1..] + "*/") + rest;
      assert forall k :: 0 <= k < |note[1..]| + 2 ==> (note[1..] + "*/")[k] == (note + "*/")[k + 1];
      BlockIsCut(text, j + 1, note[1..], rest);
    }
  }

  lemma RunIsCut(text: string, i: nat, run: RunClass, word: string, rest: string)
    requires Here(text, i, word, rest) && word != "" && (forall c <- word :: PartOf(run, c))
    requires rest != "" ==> !PartOf(run, rest[0])
    ensures i + |word| <= |text| && text[i] == word[0] && RunEnd(text, i + 1, run) == i + |word|
  {
    HereAt(text, i, word, rest);
    assert text[i + 0] == word[0];
    assert forall p :: i + 1 <= p < i + |word| ==> text[p] == word[p - i];
    RunEndAt(text, i + 1, i + |word|, run);
  }

  lemma QuotedIsNext(text: string, i: nat, w: Written, rest: string)
    requires Here(text, i, Layout(w), rest) && FineBefore(w, rest) && (w.WrittenString? || w.WrittenName?)
    ensures i + |Layout(w)| <= |text| && i < |text|
    ensures NextCut(text, i) == Cut(KindOf(w), i, i + |Layout(w)|)
  {
    hide QuotedEnd, Doubled;
    match w
    case WrittenString(body) => QuotedIsCut(text, i, '\'', body, rest);
    case WrittenName(quote, body) => QuotedIsCut(text, i, quote, body, rest);
  }

  lemma BracketIsNext(text: string, i: nat, body: string, rest: string)
    requires Here(text, i, Layout(WrittenBracket(body)), rest) && ']' !in body
    ensures i + |body| + 2 <= |text|
    ensures NextCut(text, i) == Cut(Token(IdentifierToken), i, i + |body| + 2)
  {
    assert text[i..] == "[" + ((body + [']']) + rest);
    HereAt(text, i, "[", (body + [']']) + rest);
    assert text[i + 0] == '[';
    BracketIsCut(text, i + 1, body, rest);
    hide BracketEnd;
  }

  lemma RunIsNext(text: string, i: nat, w: Written, rest: string)
    requires Here(text, i, Layout(w), rest) && FineBefore(w, rest) && (w.WrittenWord? || w.WrittenNumber?)
    ensures i + |Layout(w)| <= |text| && i < |text|
    ensures NextCut(text, i) == Cut(KindOf(w), i, i + |Layout(w)|)
  {
    hide RunEnd;
    match w
    case WrittenWord(word) =>
      assert word[0] in word;
      RunIsCut(text, i, WordRun, word, rest);
    case WrittenNumber(digits) => RunIsCut(text, i, NumberRun, digits, rest);
  }

  lemma SingleIsNext(text: string, i: nat, w: Written, rest: string)
    requires Here(text, i, Layout(w), rest) && FineBefore(w, rest)
    requires w.WrittenMark? || w.WrittenOperator? || w.WrittenSpace?
    ensures i + 1 <= |text| && NextCut(text, i) == Cut(KindOf(w), i, i + 1)
  {
    HereAt(text, i, Layout(w), rest);
    assert text[i + 0] == Layout(w)[0];
    SingleIsCut(text, i, rest);
    hide RunEnd, QuotedEnd, BracketEnd, LineEnd, BlockEnd;
    match w
    case WrittenMark(mark) =>
    case WrittenOperator(c) =>
    case WrittenSpace(space) =>
  }

  lemma BlockIsNext(text: string, i: nat, note: string, rest: string)
    requires Here(text, i, Layout(WrittenBlock(note)), rest) && Fine(BlockNote(note), rest)
    ensures i + |note| + 4 <= |text| && NextCut(text, i) == Cut(Comment, i, i + |note| + 4)
  {
    assert text[i..] == "/*" + ((note + "*/") + rest);
    HereAt(text, i, "/*", (note + "*/") + rest);
    assert text[i + 0] == '/' && text[i + 1] == '*';
    BlockIsCut(text, i + 2, note, rest);
    hide BlockEnd;
  }

  lemma NextIs(text: string, i: nat, w: Written, rest: string)
    requires Here(text, i, Layout(w), rest) && FineBefore(w, rest)
    ensures i + |Layout(w)| <= |text| && i < |text|
    ensures NextCut(text, i) == Cut(KindOf(w), i, i + |Layout(w)|)
  {
    hide NextCut, Doubled, Here;
    match w
    case WrittenString(_) => QuotedIsNext(text, i, w, rest);
    case WrittenName(_, _) => QuotedIsNext(text, i, w, rest);
    case WrittenBracket(body) => BracketIsNext(text, i, body, rest);
    case WrittenWord(_) => RunIsNext(text, i, w, rest);
    case WrittenNumber(_) => RunIsNext(text, i, w, rest);
    case WrittenMark(_) => SingleIsNext(text, i, w, rest);
    case WrittenOperator(_) => SingleIsNext(text, i, w, rest);
    case WrittenSpace(_) => SingleIsNext(text, i, w, rest);
    case WrittenLine(hash, note) => NoteIsCut(text, i, hash, note, rest);
    case WrittenBlock(note) => BlockIsNext(text, i, note, rest);
  }

  lemma SingleIsCut(text: string, i: nat, rest: string)
    requires i < |text| && text[i + 1..] == rest
    ensures CharAt(text, i + 1) == if rest == "" then "" else [rest[0]]
  {
  }

  lemma NoteIsCut(text: string, i: nat, hash: bool, note: string, rest: string)
    requires Here(text, i, Layout(WrittenLine(hash, note)), rest) && FineBefore(WrittenLine(hash, note), rest)
    ensures i + |Layout(WrittenLine(hash, note))| <= |text| && i < |text|
    ensures NextCut(text, i) == Cut(Comment, i, i + |Layout(WrittenLine(hash, note))|)
  {
    var mark := if hash then "#" else "--";
    assert text[i..] == mark + (note + rest);
    HereAt(text, i, mark, note + rest);
    assert text[i + 0] == mark[0];
    if !hash { assert text[i + 1] == mark[1]; }
    LineIsCut(text, i + |mark|, note, rest);
  }

  // ---- All tokens ----

  lemma {:induction false} WrittenIsRead(text: string, i: nat, written: seq<Written>)
    requires i <= |text| && text[i..] == LayoutAll(written) && AllFineBefore(written)
    ensures Tokens(text, i) == TokensWritten(written)
    decreases |written|
  {
    hide NextCut, FineBefore, Layout;
    if written != [] {
      var rest := LayoutAll(written[1..]);
      NextIs(text, i, written[0], rest);
      HereAt(text, i, Layout(written[0]), rest);
      var next := i + |Layout(written[0])|;
      assert text[i..next] == Layout(written[0]);
      WrittenIsRead(text, next, written[1..]);
    }
  }

  /** Whatever tokens, spaces and comments a text is written from, exactly these tokens are read from it. */
  lemma TokensAreWritten(written: seq<Written>)
    requires AllFineBefore(written)
    ensures Tokens(LayoutAll(written), 0) == TokensWritten(written)
  {
    var text := LayoutAll(written);
    assert text[0..] == text;
    WrittenIsRead(text, 0, written);
  }

  // ---- Names in quotes and brackets ----

  /** Every kind of quotes is taken off a name that neither starts nor ends with one. */
  lemma QuotesAreTakenOff(name: string, open: char, close: char)
    requires (open == close == '`') || (open == close == '"') || (open == '[' && close == ']')
    requires name != "" && name[0] !in {'`', '"', '['} && name[|name| - 1] !in {'`', '"', ']'}
    ensures Unquote([open] + name + [close]) == name
  {
    var text := [open] + name + [close];
    NothingTrimmed(text);
    StripNothing(text, '`', '`');
    StripNothing(name, '`', '`');
    StripNothing(text, '"', '"');
    StripNothing(name, '"', '"');
    StripNothing(name, '[', ']');
    assert text[1..] == name + [close] && (name + [close])[..|name|] == name;
  }

  lemma StripNothing(s: string, open: char, close: char)
    requires s != ""
    ensures s[0] != open && s[|s| - 1] != close ==> StripEnds(s, open, close) == s
  {
  }

  lemma NothingTrimmed(s: string)
    requires s != "" && !IsJsSpace(s[0]) && !IsJsSpace(s[|s| - 1])
    ensures TrimJs(s) == s
  {
    assert TrimStart(s, JsSpaces) == s;
  }
}
