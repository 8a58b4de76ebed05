/** Lists of names in SQL text: how they are laid out, read and parsed. */
module SqlLists {
  import opened MysqlLexer
  import opened SqlPrinters
  import opened Text

  // ---- Parsing ----

  /** What a parser has made of the first lexemes, and the lexemes that follow. */
  datatype Parse<T> = Parse(value: T, rest: seq<Lexeme>)

  predicate At(s: seq<Lexeme>, i: nat, lexeme: Lexeme) { i < |s| && s[i] == lexeme }

  /** Names with a comma between each two. */
  function ParseNames(s: seq<Lexeme>): (r: Option<Parse<seq<string>>>)
    ensures r.Some? ==> |r.value.rest| < |s|
    decreases |s|
  {
    if s == [] || !s[0].Name? then None
    else if At(s, 1, Symbol(',')) then
      match ParseNames(s[2..])
      case None => None
      case Some(more) => Some(Parse([s[0].name] + more.value, more.rest))
    else Some(Parse([s[0].name], s[1..]))
  }

  function NameLexemes(names: seq<string>): seq<Lexeme> {
    if names == [] then []
    else if |names| == 1 then [Name(names[0])]
    else [Name(names[0]), Symbol(',')] + NameLexemes(names[1..])
  }

  lemma NamesStep(names: seq<string>, rest: seq<Lexeme>)
    requires names != []
    ensures NameLexemes(names) + rest
         == if |names| == 1 then [Name(names[0])] + rest
            else [Name(names[0]), Symbol(',')] + (NameLexemes(names[1..]) + rest)
  {
  }

  lemma NameAlone(name: string, rest: seq<Lexeme>)
    requires rest == [] || rest[0] != Symbol(',')
    ensures ParseNames([Name(name)] + rest) == Some(Parse([name], rest))
  {
    assert ([Name(name)] + rest)[1..] == rest;
  }

  lemma NameThen(name: string, tail: seq<Lexeme>)
    ensures ParseNames([Name(name), Symbol(',')] + tail)
         == match ParseNames(tail)
            case None => None
            case Some(more) => Some(Parse([name] + more.value, more.rest))
  {
    assert ([Name(name), Symbol(',')] + tail)[2..] == tail;
  }

  lemma {:induction false} NamesParse(names: seq<string>, rest: seq<Lexeme>)
    requires names != [] && (rest == [] || rest[0] != Symbol(','))
    ensures ParseNames(NameLexemes(names) + rest) == Some(Parse(names, rest))
  {
    hide ParseNames, NameLexemes;
    NamesStep(names, rest);
    if |names| == 1 {
      NameAlone(names[0], rest);
      assert [names[0]] == names;
    } else {
      NamesParse(names[1..], rest);
      NameThen(names[0], NameLexemes(names[1..]) + rest);
      assert [names[0]] + names[1..] == names;
    }
  }

  // ---- Layout ----

  lemma CommaReads()
    ensures Reads([Mark(','), Blank(' ')], ", ", [Symbol(',')])
  {
  }

  lemma {:induction false} NamesRead(names: seq<string>) returns (pieces: seq<Piece>)
    requires names != []
    ensures Reads(pieces, Join(QuotedNames(names), ", "), NameLexemes(names))
    ensures pieces != [] && pieces[|pieces| - 1].Quoted? && pieces[0].Quoted?
  {
    hide Reads, QuoteIdentifier;
    var name := QuoteIdentifier(names[0]);
    pieces := [Quoted(names[0])];
    ReadsOne(Quoted(names[0]));
    if |names| == 1 {
      assert QuotedNames(names) == [name];
    } else {
      var rest := NamesRead(names[1..]);
      var comma := [Mark(','), Blank(' ')];
      CommaReads();
      ReadsOn(pieces, name, [Name(names[0])], comma, ", ", [Symbol(',')]);
      ReadsOn(pieces + comma, name + ", ", [Name(names[0])] + [Symbol(',')],
        rest, Join(QuotedNames(names[1..]), ", "), NameLexemes(names[1..]));
      assert QuotedNames(names)[1..] == QuotedNames(names[1..]);
      assert [Name(names[0])] + [Symbol(',')] == [Name(names[0]), Symbol(',')];
      pieces := pieces + comma + rest;
    }
  }

  lemma TableReads(database: string, table: string) returns (pieces: seq<Piece>)
    ensures Reads(pieces, TableText(database, table), [Name(database), Symbol('.'), Name(table)])
    ensures pieces != [] && pieces[0].Quoted? && pieces[|pieces| - 1].Quoted?
  {
    hide Reads, QuoteIdentifier;
    var name := QuoteIdentifier(database);
    ReadsOne(Quoted(database));
    ReadsOne(Mark('.'));
    ReadsOne(Quoted(table));
    ReadsOn([Quoted(database)], name, [Name(database)], [Mark('.')], ".", [Symbol('.')]);
    ReadsOn([Quoted(database)] + [Mark('.')], name + ".", [Name(database)] + [Symbol('.')],
      [Quoted(table)], QuoteIdentifier(table), [Name(table)]);
    pieces := [Quoted(database)] + [Mark('.')] + [Quoted(table)];
    assert [Name(database)] + [Symbol('.')] + [Name(table)] == [Name(database), Symbol('.'), Name(table)];
  }
}
