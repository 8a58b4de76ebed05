/** The three hand-written scanners of the SQL editor, and the one-character automaton they implement. */
module SqlScanner {
  import opened Text

  // ---- The reference: one state per character, no look-ahead ----

  datatype ScanState =
    | Plain
    | Dash                      // plain text, just read '-'
    | Slash                     // plain text, just read '/'
    | Line                      // inside a line comment
    | Block                     // inside a block comment
    | BlockStar                 // inside a block comment, just read '*'
    | InQuote(quote: char)
    | AfterQuote(quote: char)   // just read a quote that closes, or starts a doubled quote

  predicate IsQuote(c: char) { c == '\'' || c == '"' || c == '`' }

  /** The state after reading `c` in plain text. */
  function Enter(c: char): ScanState {
    if c == '-' then Dash
    else if c == '/' then Slash
    else if c == '#' then Line
    else if IsQuote(c) then InQuote(c)
    else Plain
  }

  function Delta(s: ScanState, c: char): ScanState {
    match s
    case Plain => Enter(c)
    case Dash => if c == '-' then Line else Enter(c)
    case Slash => if c == '*' then Block else Enter(c)
    case Line => if c == '\n' then Plain else Line
    case Block => if c == '*' then BlockStar else Block
    case BlockStar => if c == '/' then Plain else if c == '*' then BlockStar else Block
    case InQuote(q) => if c == q then AfterQuote(q) else s
    case AfterQuote(q) => if c == q then InQuote(q) else Enter(c)
  }

  function StateAt(text: string, p: nat): ScanState
    requires p <= |text|
  {
    if p == 0 then Plain else Delta(StateAt(text, p - 1), text[p - 1])
  }

  /** `c` is the second half of a two-character mark whose first half led to `s`. */
  predicate Completes(s: ScanState, c: char) {
    match s
    case Dash => c == '-'
    case Slash => c == '*'
    case BlockStar => c == '/'
    case AfterQuote(q) => c == q
    case _ => false
  }

  predicate Inside(s: ScanState) { s.Line? || s.Block? || s.BlockStar? || s.InQuote? }

  /** A position is inside a quoted or commented region; a mark that straddles it counts as already read. */
  predicate InsideRegion(text: string, p: nat)
    requires p <= |text|
  {
    var s := StateAt(text, p);
    Inside(if p < |text| && Completes(s, text[p]) then Delta(s, text[p]) else s)
  }

  /** The character at `p` is ordinary text: not quoted, not commented and no part of a mark. */
  predicate PlainAt(text: string, p: nat)
    requires p < |text|
  {
    !Inside(StateAt(text, p)) && !Completes(StateAt(text, p), text[p]) && Enter(text[p]) == Plain
  }

  // ---- What the scanners carry from one step to the next ----

  /** The scanners' five mutually exclusive flags; the three quote flags differ only in their character. */
  datatype Mode = PlainText | LineComment | BlockComment | Quoted(quote: char)

  function ModeOf(s: ScanState): Mode {
    match s
    case Line => LineComment
    case Block => BlockComment
    case BlockStar => BlockComment
    case InQuote(q) => Quoted(q)
    case _ => PlainText
  }

  ghost predicate Aligned(mode: Mode, text: string, index: nat) {
    && index <= |text|
    && ModeOf(StateAt(text, index)) == mode
    && (index < |text| ==> !Completes(StateAt(text, index), text[index]))
  }

  function CharAt(text: string, i: nat): string {
    if i < |text| then [text[i]] else ""
  }

  /**
   * One step of a scanner through quotes and comments; the source writes it out in both scanners.
   * `ordinary` tells that the step read one character of plain text, which is the caller's to look at.
   */
  method ScanStep(text: string, index: nat, mode: Mode) returns (after: Mode, next_index: nat, ordinary: bool)
    requires index < |text| && Aligned(mode, text, index)
    ensures index < next_index <= index + 2 && Aligned(after, text, next_index)
    ensures next_index == index + 2 ==> Completes(StateAt(text, index + 1), text[index + 1])
    ensures ordinary ==> next_index == index + 1 && mode == after == PlainText
    ensures ordinary && text[index] in "();" ==> PlainAt(text, index)
    ensures !ordinary ==> forall p :: index <= p < next_index ==> !PlainAt(text, p)
  {
    var current, next := text[index], CharAt(text, index + 1);
    after, next_index, ordinary := mode, index + 1, false;
    match mode {
      case LineComment =>
        if current == '\n' { after := PlainText; }
      case BlockComment =>
        if current == '*' && next == "/" {
          after, next_index := PlainText, index + 2;
        }
      case Quoted(q) =>
        if current == q && next == [q] {
          next_index := index + 2;
        } else if current == q {
          after := PlainText;
        }
      case PlainText =>
        if current == '-' && next == "-" {
          after, next_index := LineComment, index + 2;
        } else if current == '#' {
          after := LineComment;
        } else if current == '/' && next == "*" {
          after, next_index := BlockComment, index + 2;
        } else if IsQuote(current) {
          after := Quoted(current);
        } else {
          ordinary := true;
        }
    }
  }

  // ---- isInsideQuotedRegion ----

  method IsInsideQuotedRegion(text: string, cursor: nat) returns (inside: bool)
    ensures inside <==> InsideRegion(text, if cursor <= |text| then cursor else |text|)
  {
    var mode, index := PlainText, 0;
    // Past the end of the text nothing matches and no flag changes.
    while index < cursor && index < |text|
      invariant index <= cursor + 1
      invariant Aligned(mode, text, index)
      invariant index == cursor + 1 ==> cursor < |text| && Completes(StateAt(text, cursor), text[cursor])
    {
      var after, next, _ := ScanStep(text, index, mode);
      mode, index := after, next;
    }
    inside := mode != PlainText;
  }

  // ---- extractCurrentStatement ----

  /** Open parentheses before `p`, counted in ordinary text only and never below zero. */
  function Nesting(text: string, p: nat): nat
    requires p <= |text|
  {
    if p == 0 then 0
    else
      var before := Nesting(text, p - 1);
      if !PlainAt(text, p - 1) then before
      else if text[p - 1] == '(' then before + 1
      else if text[p - 1] == ')' && before > 0 then before - 1
      else before
  }

  /** A `;` that separates two statements. */
  predicate SplitsAt(text: string, p: nat)
    requires p < |text|
  {
    text[p] == ';' && PlainAt(text, p) && Nesting(text, p) == 0
  }

  datatype Window = Window(start: nat, end: nat)

  datatype CurrentStatement = CurrentStatement(before_cursor: string, cursor_offset: nat, text: string)

  /** The cursor-independent split of the text, from position `p` on, the open piece starting at `start`. */
  function WindowsFrom(text: string, start: nat, p: nat): (windows: seq<Window>)
    requires start <= p <= |text|
    ensures |windows| >= 1 && windows[0].start == start
    decreases |text| - p
  {
    if p == |text| then [Window(start, p)]
    else if SplitsAt(text, p) then [Window(start, p)] + WindowsFrom(text, p + 1, p + 1)
    else WindowsFrom(text, start, p + 1)
  }

  function Windows(text: string): seq<Window> { WindowsFrom(text, 0, 0) }

  function Piece(text: string, w: Window): string {
    if w.start <= w.end <= |text| then text[w.start..w.end] else ""
  }

  function Pieces(text: string, windows: seq<Window>): seq<string> {
    seq(|windows|, i requires 0 <= i < |windows| => Piece(text, windows[i]))
  }

  /** The statement window is delimited by separators and has none inside. */
  ghost predicate Delimited(text: string, w: Window) {
    && w.start <= w.end <= |text|
    && (w.start == 0 || SplitsAt(text, w.start - 1))
    && (w.end == |text| || SplitsAt(text, w.end))
    && forall p :: w.start <= p < w.end ==> !SplitsAt(text, p)
  }

  lemma {:induction false} DelimitedIsPiece(text: string, w: Window, start: nat, p: nat)
    requires Delimited(text, w)
    requires start <= p <= |text|
    requires start == 0 || SplitsAt(text, start - 1)
    requires forall q :: start <= q < p ==> !SplitsAt(text, q)
    requires start <= w.start
    ensures w in WindowsFrom(text, start, p)
    decreases |text| - p
  {
    if p < |text| && SplitsAt(text, p) {
      if w.start <= p {
        assert w.start == start;
        assert w.end == p;
      } else {
        DelimitedIsPiece(text, w, p + 1, p + 1);
      }
    } else if p < |text| {
      DelimitedIsPiece(text, w, start, p + 1);
    }
  }

  lemma {:induction false} PiecesAreDelimited(text: string, start: nat, p: nat)
    requires start <= p <= |text|
    requires start == 0 || SplitsAt(text, start - 1)
    requires forall q :: start <= q < p ==> !SplitsAt(text, q)
    ensures forall w :: w in WindowsFrom(text, start, p) ==> Delimited(text, w) && start <= w.start
    decreases |text| - p
  {
    if p < |text| && SplitsAt(text, p) {
      PiecesAreDelimited(text, p + 1, p + 1);
    } else if p < |text| {
      PiecesAreDelimited(text, start, p + 1);
    }
  }

  /** Each cursor lies in exactly one window of the split. */
  lemma OneWindowPerCursor(text: string, cursor: nat, v: Window, w: Window)
    requires v in Windows(text) && w in Windows(text)
    requires v.start <= cursor <= v.end && w.start <= cursor <= w.end
    ensures v == w
  {
    PiecesAreDelimited(text, 0, 0);
  }

  /** The pieces, joined by the separator, are the text again. */
  lemma {:induction false} WindowsRebuild(text: string, start: nat, p: nat)
    requires start <= p <= |text|
    ensures Join(Pieces(text, WindowsFrom(text, start, p)), ";") == text[start..]
    decreases |text| - p
  {
    var windows := WindowsFrom(text, start, p);
    if p < |text| && SplitsAt(text, p) {
      WindowsRebuild(text, p + 1, p + 1);
      var rest := WindowsFrom(text, p + 1, p + 1);
      assert Pieces(text, windows)[1..] == Pieces(text, rest);
      assert text[start..] == text[start..p] + ";" + text[p + 1..];
    } else if p < |text| {
      WindowsRebuild(text, start, p + 1);
    } else {
      assert text[start..p] == text[start..];
      assert Pieces(text, windows)[0] == text[start..];
    }
  }

  /** The window of the split that the editor works on for a cursor, and what it cuts out. */
  ghost predicate StatementAt(text: string, cursor: nat, w: Window, r: CurrentStatement) {
    && w in Windows(text)
    && w.start <= cursor
    && (cursor <= w.end || w.end == |text|)
    && w.end <= |text|
    && r.text == Piece(text, w)
    && r.cursor_offset == cursor - w.start
    && r.before_cursor == r.text[..if r.cursor_offset <= |r.text| then r.cursor_offset else |r.text|]
  }

  /** Cursors in one piece of the split get the same statement, whatever the scan did to find it. */
  lemma SamePieceSameStatement(
    text: string, a: nat, b: nat, v: Window, w: Window, r: CurrentStatement, t: CurrentStatement)
    requires a <= |text| && b <= |text|
    requires StatementAt(text, a, v, r) && StatementAt(text, b, w, t)
    requires v.start <= b <= v.end
    ensures v == w && r.text == t.text
    ensures v.start <= a <= v.end
    ensures r.before_cursor == text[v.start..a]
  {
    OneWindowPerCursor(text, b, v, w);
    assert text[v.start..v.end][..a - v.start] == text[v.start..a];
  }

  method ExtractCurrentStatement(text: string, cursor: nat) returns (r: CurrentStatement)
    ensures exists w :: StatementAt(text, cursor, w, r)
  {
    var start, end := 0, |text|;
    var nesting := 0;
    var mode, index := PlainText, 0;
    while index < |text|
      invariant Aligned(mode, text, index)
      invariant nesting == Nesting(text, index)
      invariant start <= index && start <= cursor && end == |text|
      invariant start == 0 || SplitsAt(text, start - 1)
      invariant forall p :: start <= p < index ==> !SplitsAt(text, p)
    {
      var after, next, ordinary := ScanStep(text, index, mode);
      if ordinary {
        if text[index] == '(' {
          nesting := nesting + 1;
        } else if text[index] == ')' {
          nesting := if nesting > 0 then nesting - 1 else 0;
        } else if text[index] == ';' && nesting == 0 {
          if index < cursor {
            start := index + 1;
          } else {
            end := index;
            break;
          }
        }
      }
      mode, index := after, next;
    }
    ghost var w := Window(start, end);
    DelimitedIsPiece(text, w, 0, 0);
    var statement := text[start..end];
    var offset := cursor - start;
    r := CurrentStatement(statement[..if offset <= |statement| then offset else |statement|], offset, statement);
    assert StatementAt(text, cursor, w, r);
  }
}
