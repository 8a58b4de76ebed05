/** What the scanners' automaton means: texts written from ordinary characters, quoted texts and comments. */
module SqlRegions {
  import opened SqlScanner
  import opened Text

  /** A character on its own, a quoted text with its quotes doubled, a comment to the end of its line or to its mark. */
  datatype Segment =
    | Ordinary(c: char)
    | QuotedText(quote: char, body: string)
    | LineNote(hash: bool, body: string)
    | BlockNote(body: string)

  function SegmentText(s: Segment): string {
    match s
    case Ordinary(c) => [c]
    case QuotedText(q, body) => [q] + (Doubled(body, q) + [q])
    case LineNote(hash, body) => (if hash then "#" else "--") + (body + "\n")
    case BlockNote(body) => "/*" + (body + "*/")
  }

  function SegmentsText(segments: seq<Segment>): string {
    if segments == [] then "" else SegmentText(segments[0]) + SegmentsText(segments[1..])
  }

  /** The segment is what it says, whatever text comes after it. */
  ghost predicate Fine(s: Segment, rest: string) {
    match s
    case Ordinary(c) =>
      && c !in {'\'', '"', '`', '#'}
      && (c == '-' && rest != "" ==> rest[0] != '-') && (c == '/' && rest != "" ==> rest[0] != '*')
    case QuotedText(q, body) => q in {'\'', '"', '`'} && (rest != "" ==> rest[0] != q)
    case LineNote(_, body) => '\n' !in body
    case BlockNote(body) => forall k :: 0 <= k < |body| ==> !((body + "*/")[k] == '*' && (body + "*/")[k + 1] == '/')
  }

  ghost predicate AllFine(segments: seq<Segment>) {
    segments != [] ==> Fine(segments[0], SegmentsText(segments[1..])) && AllFine(segments[1..])
  }

  /** Where the segment with some number starts, or the end. */
  function StartOf(segments: seq<Segment>, k: nat): nat
    requires k <= |segments|
  {
    if k == 0 then 0 else |SegmentText(segments[0])| + StartOf(segments[1..], k - 1)
  }

  // ---- One segment ----

  /** Plain text in which no mark has begun. */
  predicate AtPlain(text: string, p: nat) {
    p <= |text| && ModeOf(StateAt(text, p)) == PlainText && (p < |text| ==> !Completes(StateAt(text, p), text[p]))
  }

  /** What the scanners should see of a segment: all of it inside, up to the mark that ends a comment; nothing plain. */
  ghost predicate Covered(text: string, i: nat, s: Segment)
    requires i + |SegmentText(s)| <= |text|
  {
    var n := |SegmentText(s)|;
    && AtPlain(text, i + n)
    && (forall p :: i < p < i + n ==> (InsideRegion(text, p) <==> !(s.BlockNote? && p == i + n - 1)))
    && (forall p :: i <= p < i + n ==> (PlainAt(text, p) <==> s.Ordinary? && s.c !in {'-', '/'}))
  }

  ghost predicate Here(text: string, i: nat, s: string, rest: string) { i <= |text| && text[i..] == s + rest }

  lemma HereAt(text: string, i: nat, s: string, rest: string)
    requires Here(text, i, s, rest)
    ensures i + |s| + |rest| == |text| && text[i + |s|..] == rest
    ensures forall k :: 0 <= k < |s| ==> text[i + k] == s[k]
    ensures rest != "" ==> i + |s| < |text| && text[i + |s|] == rest[0]
  {
    assert |text[i..]| == |s| + |rest|;
    assert forall k :: 0 <= k < |s| + |rest| ==> text[i + k] == (s + rest)[k];
  }

  lemma OrdinaryIsPassed(text: string, i: nat, c: char, rest: string)
    requires AtPlain(text, i) && Here(text, i, [c], rest) && Fine(Ordinary(c), rest)
    ensures i + 1 <= |text| && Covered(text, i, Ordinary(c))
  {
    HereAt(text, i, [c], rest);
    assert text[i + 0] == c;
    assert StateAt(text, i + 1) == Delta(StateAt(text, i), c);
  }

  lemma CharIsPassed(text: string, j: nat, q: char)
    requires j < |text| && StateAt(text, j) == InQuote(q) && (text[j] == q ==> j + 1 < |text| && text[j + 1] == q)
    ensures InsideRegion(text, j) && !PlainAt(text, j)
    ensures
      var width := if text[j] == q then 2 else 1;
      && StateAt(text, j + width) == InQuote(q)
      && (width == 2 ==> InsideRegion(text, j + 1) && !PlainAt(text, j + 1))
  {
    assert StateAt(text, j + 1) == Delta(InQuote(q), text[j]);
    if text[j] == q { assert StateAt(text, j + 2) == Delta(StateAt(text, j + 1), q); }
  }

  lemma QuoteCloses(text: string, j: nat, q: char)
    requires j < |text| && StateAt(text, j) == InQuote(q) && text[j] == q
    requires j + 1 < |text| ==> text[j + 1] != q
    ensures InsideRegion(text, j) && !PlainAt(text, j) && StateAt(text, j + 1) == AfterQuote(q)
  {
  }

  lemma {:induction false} BodyIsPassed(text: string, j: nat, q: char, body: string, rest: string)
    requires Here(text, j, Doubled(body, q) + [q], rest) && StateAt(text, j) == InQuote(q) && IsQuote(q)
    requires rest != "" ==> rest[0] != q
    ensures
      var n := |Doubled(body, q)| + 1;
      && j + n <= |text| && StateAt(text, j + n) == AfterQuote(q)
      && (forall p :: j <= p < j + n ==> InsideRegion(text, p) && !PlainAt(text, p))
    decreases |body|
  {
    hide StateAt, InsideRegion, PlainAt;
    var whole := Doubled(body, q) + [q];
    HereAt(text, j, whole, rest);
    if body == "" {
      assert text[j + 0] == q;
      QuoteCloses(text, j, q);
    } else {
      var front, more := if body[0] == q then [q, q] else [body[0]], Doubled(body[1..], q);
      assert text[j..] == front + ((more + [q]) + rest);
      hide Doubled;
      HereAt(text, j, front, (more + [q]) + rest);
      assert text[j + 0] == body[0];
      if body[0] == q { assert text[j + 1] == q; }
      CharIsPassed(text, j, q);
      BodyIsPassed(text, j + |front|, q, body[1..], rest);
    }
  }

  lemma {:induction false} LineIsPassed(text: string, j: nat, body: string, rest: string)
    requires Here(text, j, body + "\n", rest) && StateAt(text, j) == Line && '\n' !in body
    ensures
      var n := |body| + 1;
      && j + n <= |text| && StateAt(text, j + n) == Plain
      && (forall p :: j <= p < j + n ==> InsideRegion(text, p) && !PlainAt(text, p))
    decreases |body|
  {
    HereAt(text, j, body + "\n", rest);
    if body == "" {
      assert text[j + 0] == '\n';
      assert StateAt(text, j + 1) == Plain;
    } else {
      assert text[j + 0] == body[0];
      assert StateAt(text, j + 1) == Line;
      assert text[j + 1..] == text[j..][1..] == (body[1..] + "\n") + rest;
      LineIsPassed(text, j + 1, body[1..], rest);
      assert InsideRegion(text, j) && !PlainAt(text, j);
    }
  }

  lemma BlockGoesOn(text: string, j: nat)
    requires j < |text| && (StateAt(text, j) == Block || (StateAt(text, j) == BlockStar && text[j] != '/'))
    ensures StateAt(text, j + 1) == if text[j] == '*' then BlockStar else Block
    ensures InsideRegion(text, j) && !PlainAt(text, j)
  {
  }

  lemma BlockCloses(text: string, j: nat)
    requires j + 1 < |text| && (StateAt(text, j) == Block || StateAt(text, j) == BlockStar)
    requires text[j] == '*' && text[j + 1] == '/'
    ensures StateAt(text, j + 2) == Plain
    ensures InsideRegion(text, j) && !InsideRegion(text, j + 1) && !PlainAt(text, j) && !PlainAt(text, j + 1)
  {
    assert StateAt(text, j + 1) == BlockStar;
    assert StateAt(text, j + 2) == Delta(StateAt(text, j + 1), '/');
  }

  lemma FineLater(body: string, rest: string)
    requires body != "" && Fine(BlockNote(body), rest)
    ensures Fine(BlockNote(body[1..]), rest) && (body[0] == '*' ==> (body[1..] + "*/")[0] != '/')
  {
    var whole, later := body + "*/", body[1..] + "*/";
    assert forall k :: 0 <= k < |later| ==> later[k] == whole[k + 1];
    assert !(whole[0] == '*' && whole[0 + 1] == '/') && later[0] == whole[0 + 1];
  }

  lemma {:induction false} BlockIsPassed(text: string, j: nat, body: string, rest: string)
    requires Here(text, j, body + "*/", rest)
    requires StateAt(text, j) == Block || (StateAt(text, j) == BlockStar && (body + "*/")[0] != '/')
    requires Fine(BlockNote(body), rest)
    ensures
      var n := |body| + 2;
      && j + n <= |text| && StateAt(text, j + n) == Plain
      && (forall p :: j <= p < j + n - 1 ==> InsideRegion(text, p))
      && !InsideRegion(text, j + n - 1)
      && (forall p :: j <= p < j + n ==> !PlainAt(text, p))
    decreases |body|
  {
    hide StateAt, InsideRegion, PlainAt, Fine;
    HereAt(text, j, body + "*/", rest);
    assert text[j + 0] == (body + "*/")[0] && text[j + 1] == (body + "*/")[1];
    if body == "" {
      BlockCloses(text, j);
    } else {
      BlockGoesOn(text, j);
      assert text[j + 1..] == text[j..][1..] == (body[1..] + "*/") + rest;
      FineLater(body, rest);
      BlockIsPassed(text, j + 1, body[1..], rest);
    }
  }

  lemma QuotedIsPassed(text: string, i: nat, q: char, body: string, rest: string)
    requires AtPlain(text, i) && Here(text, i, SegmentText(QuotedText(q, body)), rest)
    requires Fine(QuotedText(q, body), rest)
    ensures i + |SegmentText(QuotedText(q, body))| <= |text| && Covered(text, i, QuotedText(q, body))
  {
    var more := Doubled(body, q) + [q];
    hide Doubled;
    assert text[i..] == [q] + (more + rest);
    HereAt(text, i, [q], more + rest);
    assert text[i + 0] == q;
    assert StateAt(text, i + 1) == InQuote(q);
    BodyIsPassed(text, i + 1, q, body, rest);
    HereAt(text, i + 1, more, rest);
    hide StateAt;
  }

  lemma HashOpens(text: string, i: nat)
    requires AtPlain(text, i) && i < |text| && text[i] == '#'
    ensures StateAt(text, i + 1) == Line && !PlainAt(text, i)
  {
  }

  lemma DashesOpen(text: string, i: nat)
    requires AtPlain(text, i) && i + 1 < |text| && text[i] == '-' && text[i + 1] == '-'
    ensures StateAt(text, i + 2) == Line && InsideRegion(text, i + 1)
    ensures !PlainAt(text, i) && !PlainAt(text, i + 1)
  {
    assert StateAt(text, i + 1) == Delta(StateAt(text, i), '-') == Dash;
    assert StateAt(text, i + 2) == Delta(StateAt(text, i + 1), '-');
  }

  lemma BlockOpens(text: string, i: nat)
    requires AtPlain(text, i) && i + 1 < |text| && text[i] == '/' && text[i + 1] == '*'
    ensures StateAt(text, i + 2) == Block && InsideRegion(text, i + 1)
    ensures !PlainAt(text, i) && !PlainAt(text, i + 1)
  {
    assert StateAt(text, i + 1) == Delta(StateAt(text, i), '/') == Slash;
    assert StateAt(text, i + 2) == Delta(StateAt(text, i + 1), '*');
  }

  lemma NoteOpens(text: string, i: nat, hash: bool, rest: string)
    requires AtPlain(text, i) && Here(text, i, if hash then "#" else "--", rest)
    ensures
      var n := if hash then 1 else 2;
      && i + n <= |text| && text[i + n..] == rest && StateAt(text, i + n) == Line
      && (forall p :: i <= p < i + n ==> !PlainAt(text, p)) && (!hash ==> InsideRegion(text, i + 1))
  {
    hide StateAt, InsideRegion, PlainAt, AtPlain;
    var mark := if hash then "#" else "--";
    HereAt(text, i, mark, rest);
    assert text[i + 0] == mark[0];
    if hash {
      HashOpens(text, i);
    } else {
      assert text[i + 1] == mark[1];
      DashesOpen(text, i);
    }
  }

  lemma NoteIsPassed(text: string, i: nat, hash: bool, body: string, rest: string)
    requires AtPlain(text, i) && Here(text, i, SegmentText(LineNote(hash, body)), rest) && '\n' !in body
    ensures i + |SegmentText(LineNote(hash, body))| <= |text| && Covered(text, i, LineNote(hash, body))
  {
    hide StateAt, InsideRegion, PlainAt, AtPlain;
    var mark := if hash then "#" else "--";
    assert text[i..] == mark + ((body + "\n") + rest);
    NoteOpens(text, i, hash, (body + "\n") + rest);
    LineIsPassed(text, i + |mark|, body, rest);
    PlainFrom(text, i + |mark| + |body| + 1);
  }

  lemma PlainFrom(text: string, p: nat)
    requires p <= |text| && StateAt(text, p) == Plain
    ensures AtPlain(text, p)
  {
  }

  lemma BlockNoteOpens(text: string, i: nat, rest: string)
    requires AtPlain(text, i) && Here(text, i, "/*", rest)
    ensures i + 2 <= |text| && text[i + 2..] == rest && StateAt(text, i + 2) == Block && InsideRegion(text, i + 1)
    ensures !PlainAt(text, i) && !PlainAt(text, i + 1)
  {
    hide StateAt, InsideRegion, PlainAt, AtPlain;
    HereAt(text, i, "/*", rest);
    assert text[i + 0] == '/' && text[i + 1] == '*';
    BlockOpens(text, i);
  }

  lemma BlockNoteIsPassed(text: string, i: nat, body: string, rest: string)
    requires AtPlain(text, i) && Here(text, i, SegmentText(BlockNote(body)), rest) && Fine(BlockNote(body), rest)
    ensures i + |SegmentText(BlockNote(body))| <= |text| && Covered(text, i, BlockNote(body))
  {
    hide StateAt, InsideRegion, PlainAt, AtPlain, Fine;
    assert text[i..] == "/*" + ((body + "*/") + rest);
    BlockNoteOpens(text, i, (body + "*/") + rest);
    BlockIsPassed(text, i + 2, body, rest);
    PlainFrom(text, i + 2 + |body| + 2);
  }

  lemma SegmentIsPassed(text: string, i: nat, s: Segment, rest: string)
    requires AtPlain(text, i) && Here(text, i, SegmentText(s), rest) && Fine(s, rest)
    ensures i + |SegmentText(s)| <= |text| && Covered(text, i, s)
  {
    match s
    case Ordinary(c) => OrdinaryIsPassed(text, i, c, rest);
    case QuotedText(q, body) => QuotedIsPassed(text, i, q, body, rest);
    case LineNote(hash, body) => NoteIsPassed(text, i, hash, body, rest);
    case BlockNote(body) => BlockNoteIsPassed(text, i, body, rest);
  }

  // ---- Whole texts ----

  lemma StartIsPlain(text: string)
    ensures AtPlain(text, 0)
  {
  }

  lemma {:induction false} SegmentsArePassed(text: string, i: nat, segments: seq<Segment>, k: nat)
    requires AtPlain(text, i) && i <= |text| && text[i..] == SegmentsText(segments) && AllFine(segments)
    requires k <= |segments|
    ensures i + StartOf(segments, k) <= |text| && AtPlain(text, i + StartOf(segments, k))
    ensures k < |segments| ==>
      && StartOf(segments, k + 1) == StartOf(segments, k) + |SegmentText(segments[k])|
      && i + StartOf(segments, k + 1) <= |text| && Covered(text, i + StartOf(segments, k), segments[k])
    decreases |segments|
  {
    hide Covered, AtPlain, SegmentText, Fine;
    if segments != [] {
      var rest, n := SegmentsText(segments[1..]), |SegmentText(segments[0])|;
      SegmentIsPassed(text, i, segments[0], rest);
      HereAt(text, i, SegmentText(segments[0]), rest);
      CoveredEnds(text, i, segments[0]);
      SegmentsArePassed(text, i + n, segments[1..], if k > 0 then k - 1 else 0);
    }
  }

  lemma CoveredEnds(text: string, i: nat, s: Segment)
    requires i + |SegmentText(s)| <= |text| && Covered(text, i, s)
    ensures AtPlain(text, i + |SegmentText(s)|)
  {
    hide AtPlain, InsideRegion, PlainAt;
  }

  lemma PlainIsOutside(text: string, p: nat)
    requires AtPlain(text, p)
    ensures !InsideRegion(text, p)
  {
  }

  /**
   * In a text that is written from such segments, a cursor is inside exactly when it is within a quoted text or a
   * comment, but not before the last character of a block comment; and a character is plain text for the scanners
   * exactly when it stands on its own and begins no mark.
   */
  lemma RegionsAreSegments(segments: seq<Segment>, k: nat, p: nat)
    requires AllFine(segments) && k < |segments|
    requires StartOf(segments, k) <= p < StartOf(segments, k + 1)
    ensures
      var text, s := SegmentsText(segments), segments[k];
      && StartOf(segments, k + 1) <= |text|
      && (InsideRegion(text, p)
          <==> p > StartOf(segments, k) && !(s.BlockNote? && p == StartOf(segments, k + 1) - 1))
      && (PlainAt(text, p) <==> s.Ordinary? && s.c !in {'-', '/'})
  {
    hide InsideRegion, PlainAt, AtPlain, SegmentText, StartOf;
    var text := SegmentsText(segments);
    assert text[0..] == text;
    StartIsPlain(text);
    SegmentsArePassed(text, 0, segments, k);
    PlainIsOutside(text, StartOf(segments, k));
  }

  // ---- Separators ----

  /** How many more ordinary parentheses are opened than closed in `text[a..b]`. */
  function Balance(text: string, a: nat, b: nat): int
    requires a <= b <= |text|
  {
    if a == b then 0
    else
      var c := text[b - 1];
      Balance(text, a, b - 1)
      + if !PlainAt(text, b - 1) then 0 else if c == '(' then 1 else if c == ')' then -1 else 0
  }

  lemma {:induction false} NestingIsLargest(text: string, p: nat) returns (a: nat)
    requires p <= |text|
    ensures forall b :: 0 <= b <= p ==> Balance(text, b, p) <= Nesting(text, p)
    ensures a <= p && Balance(text, a, p) == Nesting(text, p)
    decreases p
  {
    hide PlainAt;
    a := 0;
    if p > 0 {
      a := NestingIsLargest(text, p - 1);
      var step := Balance(text, p - 1, p) - Balance(text, p - 1, p - 1);
      forall b | 0 <= b < p
        ensures Balance(text, b, p) == Balance(text, b, p - 1) + step
      {
      }
      if Nesting(text, p - 1) + step < 0 { a := p; }
    }
  }

  /** Statements are separated exactly at the ordinary semicolons with no ordinary parenthesis open before them. */
  lemma SplitsExactly(text: string, p: nat)
    requires p < |text|
    ensures SplitsAt(text, p)
       <==> text[p] == ';' && PlainAt(text, p) && forall a :: 0 <= a <= p ==> Balance(text, a, p) <= 0
  {
    var a := NestingIsLargest(text, p);
    hide PlainAt, Balance, Nesting;
  }
}
