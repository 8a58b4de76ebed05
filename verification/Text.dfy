/** Text helpers shared by the models: character classes, trimming, joining and decimal numerals. */
module Text {

  datatype Option<+T> = None | Some(value: T)

  datatype Result<+T> = Ok(value: T) | Err(message: string) {
    predicate IsFailure() { Err? }

    function PropagateFailure<U>(): Result<U>
      requires Err?
    {
      Err(message)
    }

    function Extract(): T
      requires Ok?
    {
      value
    }
  }

  predicate IsDigit(c: char) { '0' <= c <= '9' }

  predicate IsLetter(c: char) { 'a' <= c <= 'z' || 'A' <= c <= 'Z' }

  /** The characters matched by `\s` in JavaScript, which are also the ones `trim` removes there. */
  predicate IsJsSpace(c: char) {
    || '\t' <= c <= '\r' || c == ' '
    || c == '\U{00A0}' || c == '\U{1680}' || '\U{2000}' <= c <= '\U{200A}'
    || c == '\U{2028}' || c == '\U{2029}' || c == '\U{202F}' || c == '\U{205F}'
    || c == '\U{3000}' || c == '\U{FEFF}'
  }

  /** The Unicode White_Space property, which Rust's `trim` uses. */
  predicate IsUnicodeSpace(c: char) {
    || '\t' <= c <= '\r' || c == ' '
    || c == '\U{0085}' || c == '\U{00A0}' || c == '\U{1680}' || '\U{2000}' <= c <= '\U{200A}'
    || c == '\U{2028}' || c == '\U{2029}' || c == '\U{202F}' || c == '\U{205F}' || c == '\U{3000}'
  }

  datatype SpaceClass = JsSpaces | UnicodeSpaces

  predicate IsSpace(spaces: SpaceClass, c: char) {
    match spaces
    case JsSpaces => IsJsSpace(c)
    case UnicodeSpaces => IsUnicodeSpace(c)
  }

  function TrimStart(s: string, spaces: SpaceClass): string {
    if s != "" && IsSpace(spaces, s[0]) then TrimStart(s[1..], spaces) else s
  }

  function TrimEnd(s: string, spaces: SpaceClass): string {
    if s != "" && IsSpace(spaces, s[|s| - 1]) then TrimEnd(s[..|s| - 1], spaces) else s
  }

  function TrimJs(s: string): string { TrimEnd(TrimStart(s, JsSpaces), JsSpaces) }

  function Trim(s: string): string { TrimEnd(TrimStart(s, UnicodeSpaces), UnicodeSpaces) }

  lemma {:induction false} TrimStartDone(s: string)
    ensures TrimStart(s, UnicodeSpaces) == "" || !IsUnicodeSpace(TrimStart(s, UnicodeSpaces)[0])
  {
    if s != "" && IsUnicodeSpace(s[0]) { TrimStartDone(s[1..]); }
  }

  lemma {:induction false} TrimEndDone(s: string)
    ensures TrimEnd(s, UnicodeSpaces) <= s
    ensures var t := TrimEnd(s, UnicodeSpaces); t == "" || !IsUnicodeSpace(t[|t| - 1])
  {
    if s != "" && IsUnicodeSpace(s[|s| - 1]) { TrimEndDone(s[..|s| - 1]); }
  }

  lemma TrimTwice(s: string)
    ensures Trim(Trim(s)) == Trim(s)
  {
    TrimStartDone(s);
    TrimEndDone(TrimStart(s, UnicodeSpaces));
    var t := Trim(s);
    assert TrimStart(t, UnicodeSpaces) == t;
    assert TrimEnd(t, UnicodeSpaces) == t;
  }

  function LowerChar(c: char): char {
    if 'A' <= c <= 'Z' then (c as int + 32) as char else c
  }

  function Lower(s: string): string {
    if s == "" then "" else [LowerChar(s[0])] + Lower(s[1..])
  }

  function Join(parts: seq<string>, separator: string): string {
    if parts == [] then ""
    else if |parts| == 1 then parts[0]
    else parts[0] + separator + Join(parts[1..], separator)
  }

  /** Every occurrence of `c` written twice, as the identifier and CSV printers do. */
  function Doubled(s: string, c: char): string {
    if s == [] then ""
    else (if s[0] == c then [c, c] else [s[0]]) + Doubled(s[1..], c)
  }

  /** The first place of a character, or the length of the text when it has none. */
  function IndexOfChar(s: string, c: char): (i: nat)
    ensures i <= |s| && (i < |s| ==> s[i] == c) && c !in s[..i]
  {
    if s == "" || s[0] == c then 0 else
      var i := 1 + IndexOfChar(s[1..], c);
      assert s[..i] == [s[0]] + s[1..][..i - 1];
      i
  }

  lemma {:induction false} IndexOfMark(before: string, mark: char, after: string)
    requires mark !in before
    ensures IndexOfChar(before + [mark] + after, mark) == |before|
  {
    var s := before + [mark] + after;
    if before != "" {
      assert s[1..] == before[1..] + [mark] + after;
      IndexOfMark(before[1..], mark, after);
    }
  }

  lemma {:induction false} IndexOfNone(s: string, c: char)
    requires c !in s
    ensures IndexOfChar(s, c) == |s|
  {
    if s != "" {
      IndexOfNone(s[1..], c);
    }
  }

  // ---- Decimal numerals ----

  function DigitChar(d: nat): char
    requires d < 10
  {
    ('0' as int + d) as char
  }

  function DigitValue(c: char): nat
    requires IsDigit(c)
  {
    c as int - '0' as int
  }

  /** The decimal numeral of a number, as the formatter prints it. */
  function Decimal(n: nat): (s: string)
    ensures s != "" && forall c <- s :: IsDigit(c)
  {
    if n < 10 then [DigitChar(n)] else Decimal(n / 10) + [DigitChar(n % 10)]
  }

  predicate AllDigits(s: string) { forall c <- s :: IsDigit(c) }

  function ValueOf(s: string): nat
    requires AllDigits(s)
  {
    if s == "" then 0 else 10 * ValueOf(s[..|s| - 1]) + DigitValue(s[|s| - 1])
  }

  lemma {:induction false} DecimalValue(n: nat)
    ensures ValueOf(Decimal(n)) == n
  {
    if n >= 10 {
      DecimalValue(n / 10);
      var s := Decimal(n);
      assert s[..|s| - 1] == Decimal(n / 10);
    }
  }
}
