/** Quoting of identifiers by the editor, and reading dotted names back from tokens. */
module SqlNames {
  import opened Text
  import opened SqlScanner
  import opened SqlTokens

  predicate IsWord(name: string) {
    name != "" && WordStart(name[0]) && forall c <- name[1..] :: WordPart(c)
  }

  function QuoteIdentifier(name: string): (quoted: string)
    ensures quoted != ""
  {
    if IsWord(name) then name else "`" + Doubled(name, '`') + "`"
  }

  predicate IsIdentifierAt(tokens: seq<SqlToken>, i: nat) {
    i < |tokens| && (tokens[i].kind == IdentifierToken || tokens[i].kind == WordToken)
  }

  datatype QualifiedName = QualifiedName(identifiers: seq<string>, next_index: nat)

  /** The `.name` parts from position `index` on. */
  function DottedFrom(tokens: seq<SqlToken>, index: nat): (r: QualifiedName)
    ensures r.next_index >= index
    ensures index <= |tokens| ==> r.next_index <= |tokens|
    decreases |tokens| - index
  {
    if index < |tokens| && tokens[index].text == "." && IsIdentifierAt(tokens, index + 1) then
      var rest := DottedFrom(tokens, index + 2);
      QualifiedName([Unquote(tokens[index + 1].text)] + rest.identifiers, rest.next_index)
    else QualifiedName([], index)
  }

  function QualifiedNameAt(tokens: seq<SqlToken>, start: nat): (r: Option<QualifiedName>)
    ensures r.Some? ==> start < r.value.next_index <= |tokens| && r.value.identifiers != []
  {
    if !IsIdentifierAt(tokens, start) then None
    else
      var rest := DottedFrom(tokens, start + 1);
      Some(QualifiedName([Unquote(tokens[start].text)] + rest.identifiers, rest.next_index))
  }

  method ReadQualifiedIdentifier(tokens: seq<SqlToken>, start: nat) returns (r: Option<QualifiedName>)
    ensures r == QualifiedNameAt(tokens, start)
  {
    hide Unquote;
    if !IsIdentifierAt(tokens, start) {
      return None;
    }
    var identifiers := [Unquote(tokens[start].text)];
    var index := start + 1;
    while index < |tokens| && tokens[index].text == "." && IsIdentifierAt(tokens, index + 1)
      invariant start < index <= |tokens|
      invariant
        var rest := DottedFrom(tokens, index);
        QualifiedNameAt(tokens, start) == Some(QualifiedName(identifiers + rest.identifiers, rest.next_index))
    {
      ghost var rest := DottedFrom(tokens, index + 2).identifiers;
      assert identifiers + ([Unquote(tokens[index + 1].text)] + rest)
        == (identifiers + [Unquote(tokens[index + 1].text)]) + rest;
      identifiers := identifiers + [Unquote(tokens[index + 1].text)];
      index := index + 2;
    }
    assert identifiers + [] == identifiers;
    r := Some(QualifiedName(identifiers, index));
  }

  // ---- A quoted name is one token ----

  function NameToken(name: string): SqlToken {
    SqlToken(if IsWord(name) then WordToken else IdentifierToken, QuoteIdentifier(name))
  }

  lemma {:induction false} DoubledEnds(text: string, i: nat, body: string, q: char)
    requires i + |Doubled(body, q)| < |text|
    requires text[i..i + |Doubled(body, q)|] == Doubled(body, q)
    requires text[i + |Doubled(body, q)|] == q
    requires CharAt(text, i + |Doubled(body, q)| + 1) != [q]
    ensures QuotedEnd(text, i, q) == i + |Doubled(body, q)| + 1
    decreases |body|
  {
    var doubled := Doubled(body, q);
    if body != "" {
      var rest := Doubled(body[1..], q);
      var width := if body[0] == q then 2 else 1;
      assert doubled[width..] == rest;
      assert text[i + width..i + |doubled|] == doubled[width..];
      assert text[i] == doubled[0];
      if body[0] == q {
        assert text[i + 1] == doubled[1];
      }
      DoubledEnds(text, i + width, body[1..], q);
    }
  }

  lemma {:induction false} RunEndAt(text: string, i: nat, end: nat, run: RunClass)
    requires i <= end <= |text| && forall p :: i <= p < end ==> PartOf(run, text[p])
    requires end < |text| ==> !PartOf(run, text[end])
    ensures RunEnd(text, i, run) == end
    decreases end - i
  {
    if i < end {
      RunEndAt(text, i + 1, end, run);
    }
  }

  lemma WordCut(text: string, i: nat, end: nat)
    requires i < end <= |text| && WordStart(text[i])
    requires forall p :: i < p < end ==> WordPart(text[p])
    requires end < |text| ==> !WordPart(text[end])
    ensures NextCut(text, i) == Cut(Token(WordToken), i, end)
  {
    RunEndAt(text, i + 1, end, WordRun);
  }

  lemma BacktickCut(text: string, i: nat)
    requires i < |text| && text[i] == '`'
    ensures NextCut(text, i) == Cut(Token(IdentifierToken), i, QuotedEnd(text, i + 1, '`'))
  {
  }

  lemma PrefixAt(text: string, i: nat, s: string)
    requires i <= |text| && s <= text[i..]
    ensures i + |s| <= |text| && text[i..i + |s|] == s
    ensures forall p :: 0 <= p < |s| ==> text[i + p] == s[p]
  {
  }

  /** Wherever a quoted name stands before a dot or at the end, the tokenizer cuts exactly it. */
  lemma QuotedCut(text: string, i: nat, name: string)
    requires i <= |text| && QuoteIdentifier(name) <= text[i..]
    requires i + |QuoteIdentifier(name)| < |text| ==> text[i + |QuoteIdentifier(name)|] == '.'
    ensures i < |text|
    ensures NextCut(text, i)
      == Cut(Token(if IsWord(name) then WordToken else IdentifierToken), i, i + |QuoteIdentifier(name)|)
  {
    var quoted := QuoteIdentifier(name);
    var end := i + |quoted|;
    PrefixAt(text, i, quoted);
    if IsWord(name) {
      forall p | i < p < end
        ensures WordPart(text[p])
      {
        assert text[p] == name[p - i] == name[1..][p - i - 1];
      }
      WordCut(text, i, end);
    } else {
      var doubled := Doubled(name, '`');
      assert text[i] == quoted[0];
      PrefixAt(text, i + 1, doubled) by {
        assert quoted[1..] == doubled + "`";
        assert text[i + 1..][..|doubled|] == doubled;
      }
      assert text[end - 1] == quoted[|quoted| - 1];
      DoubledEnds(text, i + 1, name, '`');
      BacktickCut(text, i);
    }
  }

  function Quoted(names: seq<string>): seq<string> {
    seq(|names|, i requires 0 <= i < |names| => QuoteIdentifier(names[i]))
  }

  const Dot := SqlToken(PunctuationToken, ".")

  function PathTokens(names: seq<string>): seq<SqlToken> {
    if names == [] then []
    else [NameToken(names[0])] + (if |names| == 1 then [] else [Dot] + PathTokens(names[1..]))
  }

  lemma TokensFrom(text: string, i: nat, kind: TokenKind, end: nat)
    requires i < |text| && NextCut(text, i) == Cut(Token(kind), i, end)
    ensures Tokens(text, i) == [SqlToken(kind, text[i..end])] + Tokens(text, end)
  {
  }

  lemma DotCut(text: string, i: nat)
    requires i < |text| && text[i] == '.'
    ensures Tokens(text, i) == [Dot] + Tokens(text, i + 1)
  {
    assert NextCut(text, i) == Cut(Token(PunctuationToken), i, i + 1);
    assert text[i..i + 1] == ".";
    TokensFrom(text, i, PunctuationToken, i + 1);
  }

  lemma JoinStep(names: seq<string>)
    requires |names| > 1
    ensures Join(Quoted(names), ".") == QuoteIdentifier(names[0]) + "." + Join(Quoted(names[1..]), ".")
  {
    assert Quoted(names)[1..] == Quoted(names[1..]);
  }

  /** The text at the first name of a path, and after it. */
  lemma FirstInText(text: string, i: nat, names: seq<string>)
    requires names != [] && i <= |text| && text[i..] == Join(Quoted(names), ".")
    ensures
      var end := i + |QuoteIdentifier(names[0])|;
      && end <= |text| && text[i..end] == QuoteIdentifier(names[0])
      && (if |names| == 1 then end == |text|
          else end < |text| && text[end] == '.' && text[end + 1..] == Join(Quoted(names[1..]), "."))
  {
    hide QuoteIdentifier;
    var quoted := QuoteIdentifier(names[0]);
    var end := i + |quoted|;
    if |names| == 1 {
      assert Join(Quoted(names), ".") == quoted;
    } else {
      JoinStep(names);
      hide Join, Quoted;
      var whole := quoted + "." + Join(Quoted(names[1..]), ".");
      PrefixAt(text, i, whole);
      assert text[end] == whole[|quoted|] == '.';
      assert text[end + 1..] == whole[|quoted| + 1..];
      assert text[i..end] == whole[..|quoted|];
    }
  }

  /** The first name of a path is cut off, and leaves the text at its dot or at its end. */
  lemma FirstName(text: string, i: nat, names: seq<string>)
    requires names != [] && i <= |text| && text[i..] == Join(Quoted(names), ".")
    ensures
      var end := i + |QuoteIdentifier(names[0])|;
      && end <= |text|
      && Tokens(text, i) == [NameToken(names[0])] + Tokens(text, end)
      && (if |names| == 1 then end == |text|
          else end < |text| && text[end] == '.' && text[end + 1..] == Join(Quoted(names[1..]), "."))
  {
    hide NextCut, QuoteIdentifier, Join, Quoted, Tokens, IsWord;
    FirstInText(text, i, names);
    var end := i + |QuoteIdentifier(names[0])|;
    assert text[i..end] <= text[i..];
    QuotedCut(text, i, names[0]);
    TokensFrom(text, i, if IsWord(names[0]) then WordToken else IdentifierToken, end);
  }

  lemma NoTokensAtEnd(text: string)
    ensures Tokens(text, |text|) == []
  {
  }

  /** The dot-joined quoted names tokenize to the names and the dots between them, for every list of names. */
  lemma {:induction false} PathTokenizes(text: string, i: nat, names: seq<string>)
    requires names != [] && i <= |text| && text[i..] == Join(Quoted(names), ".")
    ensures Tokens(text, i) == PathTokens(names)
    decreases |names|
  {
    hide *;
    FirstName(text, i, names);
    PathStep(names);
    var end := i + |QuoteIdentifier(names[0])|;
    if |names| > 1 {
      DotCut(text, end);
      PathTokenizes(text, end + 1, names[1..]);
    } else {
      NoTokensAtEnd(text);
    }
  }

  // ---- Which names come back ----

  /** The names that survive quoting and unquoting; a word never needs quotes. */
  predicate Restorable(name: string) {
    || IsWord(name)
    || name == ""
    || ('`' !in name && name[0] != '"' && name[|name| - 1] != '"'
        && name[0] != '[' && name[|name| - 1] != ']')
  }

  lemma {:induction false} DoubledCount(s: string, c: char)
    ensures multiset(Doubled(s, c))[c] == 2 * multiset(s)[c]
    ensures c !in s ==> Doubled(s, c) == s
  {
    if s != "" {
      DoubledCount(s[1..], c);
      assert s == [s[0]] + s[1..];
      if s[0] == c {
        assert multiset(Doubled(s, c)) == multiset([c, c]) + multiset(Doubled(s[1..], c));
      } else {
        assert multiset(Doubled(s, c)) == multiset([s[0]]) + multiset(Doubled(s[1..], c));
      }
    }
  }

  lemma StripKeepsOthers(s: string, open: char, close: char, c: char)
    requires c != open && c != close
    ensures multiset(StripEnds(s, open, close))[c] == multiset(s)[c]
  {
    var t := if s != "" && s[0] == open then s[1..] else s;
    if s != "" && s[0] == open {
      assert s == [s[0]] + s[1..];
    }
    if t != "" && t[|t| - 1] == close {
      assert t == t[..|t| - 1] + [close];
    }
  }

  lemma TrimKeeps(s: string)
    requires s != "" && !IsJsSpace(s[0]) && !IsJsSpace(s[|s| - 1])
    ensures TrimJs(s) == s
  {
  }

  lemma UnquoteWord(name: string)
    requires IsWord(name)
    ensures Unquote(name) == name
  {
    var last := name[|name| - 1];
    assert last == name[0] || last in name[1..];
    TrimKeeps(name);
  }

  lemma UnquoteWrapped(body: string)
    ensures Unquote("`" + body + "`") == StripEnds(StripEnds(body, '"', '"'), '[', ']')
  {
    var quoted := "`" + body + "`";
    TrimKeeps(quoted);
    assert StripEnds(quoted, '`', '`') == body;
  }

  lemma StripIsIdentity(s: string)
    ensures StripEnds(StripEnds(s, '"', '"'), '[', ']') == s
      <==> s == "" || (s[0] != '"' && s[|s| - 1] != '"' && s[0] != '[' && s[|s| - 1] != ']')
  {
    assert |StripEnds(s, '"', '"')| <= |s|;
  }

  /** Unquoting what was quoted gives the name back exactly for the restorable names. */
  lemma UnquoteQuoted(name: string)
    ensures Unquote(QuoteIdentifier(name)) == name <==> Restorable(name)
  {
    if IsWord(name) {
      UnquoteWord(name);
    } else {
      var doubled := Doubled(name, '`');
      DoubledCount(name, '`');
      UnquoteWrapped(doubled);
      var inner := StripEnds(doubled, '"', '"');
      StripKeepsOthers(doubled, '"', '"', '`');
      StripKeepsOthers(inner, '[', ']', '`');
      if '`' !in name {
        StripIsIdentity(name);
      }
    }
  }

  function Unquoted(names: seq<string>): seq<string> {
    seq(|names|, i requires 0 <= i < |names| => Unquote(QuoteIdentifier(names[i])))
  }

  lemma UnquotedStep(names: seq<string>)
    requires names != []
    ensures Unquoted(names) == [Unquote(QuoteIdentifier(names[0]))] + Unquoted(names[1..])
  {
  }

  lemma NameTokenReads(tokens: seq<SqlToken>, i: nat, name: string)
    requires i < |tokens| && tokens[i] == NameToken(name)
    ensures IsIdentifierAt(tokens, i) && tokens[i].text == QuoteIdentifier(name)
  {
  }

  lemma TwoFirst(tokens: seq<SqlToken>, index: nat, x: SqlToken, y: SqlToken, tail: seq<SqlToken>)
    requires index <= |tokens| && tokens[index..] == [x] + ([y] + tail)
    ensures index + 1 < |tokens| && tokens[index] == x && tokens[index + 1] == y && tokens[index + 2..] == tail
  {
    var suffix := [x] + ([y] + tail);
    assert suffix[0] == x && suffix[1] == y && suffix[2..] == tail;
    assert |tokens[index..]| == |tail| + 2;
    assert tokens[index..][0] == tokens[index] && tokens[index..][1] == tokens[index + 1];
    assert tokens[index..][2..] == tokens[index + 2..];
  }

  lemma PathStarts(tokens: seq<SqlToken>, index: nat, names: seq<string>)
    requires names != [] && index <= |tokens| && tokens[index..] == [Dot] + PathTokens(names)
    ensures index + 1 < |tokens| && tokens[index] == Dot && tokens[index + 1] == NameToken(names[0])
    ensures tokens[index + 2..] == if |names| == 1 then [] else [Dot] + PathTokens(names[1..])
  {
    PathStep(names);
    hide *;
    TwoFirst(tokens, index, Dot, NameToken(names[0]), if |names| == 1 then [] else [Dot] + PathTokens(names[1..]));
  }

  lemma PathStep(names: seq<string>)
    requires names != []
    ensures PathTokens(names)
         == [NameToken(names[0])] + if |names| == 1 then [] else [Dot] + PathTokens(names[1..])
  {
  }

  /** From a dot on, the rest of a path is read to its end. */
  lemma {:induction false} DottedReadsAll(tokens: seq<SqlToken>, index: nat, names: seq<string>)
    requires index <= |tokens| && tokens[index..] == (if names == [] then [] else [Dot] + PathTokens(names))
    ensures DottedFrom(tokens, index) == QualifiedName(Unquoted(names), |tokens|)
    decreases |names|
  {
    if names != [] {
      PathStarts(tokens, index, names);
      NameTokenReads(tokens, index + 1, names[0]);
      UnquotedStep(names);
      hide Unquote, Unquoted, QuoteIdentifier, NameToken, PathTokens;
      DottedReadsAll(tokens, index + 2, names[1..]);
    }
  }

  /**
   * The round trip of qualified names: the dot-joined quoted names are read to the end, whatever the names,
   * and the names themselves come back exactly when each of them is restorable.
   */
  lemma QualifiedRoundTrip(names: seq<string>)
    requires names != []
    ensures
      var tokens := Tokens(Join(Quoted(names), "."), 0);
      && |tokens| == 2 * |names| - 1
      && QualifiedNameAt(tokens, 0) == Some(QualifiedName(Unquoted(names), |tokens|))
    ensures Unquoted(names) == names <==> forall name <- names :: Restorable(name)
  {
    var text := Join(Quoted(names), ".");
    assert text[0..] == text;
    PathTokenizes(text, 0, names);
    PathIsRead(names);
    NamesComeBack(names);
    hide Tokens, QualifiedNameAt, Unquoted, Restorable, Join, Quoted, PathTokens;
  }

  lemma PathIsRead(names: seq<string>)
    requires names != []
    ensures |PathTokens(names)| == 2 * |names| - 1
    ensures QualifiedNameAt(PathTokens(names), 0) == Some(QualifiedName(Unquoted(names), |PathTokens(names)|))
  {
    var tokens := PathTokens(names);
    PathLength(names);
    NameTokenReads(tokens, 0, names[0]);
    DottedReadsAll(tokens, 1, names[1..]);
    UnquotedStep(names);
    hide Unquote, QuoteIdentifier, Unquoted;
  }

  lemma NamesComeBack(names: seq<string>)
    ensures Unquoted(names) == names <==> forall name <- names :: Restorable(name)
  {
    forall i | 0 <= i < |names|
      ensures Unquoted(names)[i] == names[i] <==> Restorable(names[i])
    {
      UnquoteQuoted(names[i]);
    }
    hide Unquote, QuoteIdentifier, Restorable;
  }

  lemma {:induction false} PathLength(names: seq<string>)
    requires names != []
    ensures |PathTokens(names)| == 2 * |names| - 1
  {
    if |names| > 1 {
      PathLength(names[1..]);
    }
  }
}
