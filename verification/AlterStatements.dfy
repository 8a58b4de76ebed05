/** The emitted ALTER TABLE text, read by the server, is the list of clauses it was made from. */
module AlterStatements {
  import opened MysqlLexer
  import opened SchemaDiff
  import opened SqlLists
  import opened SqlPrinters
  import opened Text

  // ---- A parser of ALTER TABLE statements ----

  datatype Alter = Alter(database: string, table: string, clauses: seq<Clause>)

  /** A word of a type; the nullability that follows it is none. */
  predicate IsTypeWord(lexeme: Lexeme) { lexeme.Word? && lexeme.word != "NOT" && lexeme.word != "NULL" }

  /** The words of a type, with a space between each two. */
  function ParseWords(s: seq<Lexeme>): (r: Option<Parse<string>>)
    ensures r.Some? ==> |r.value.rest| < |s|
  {
    if s == [] || !IsTypeWord(s[0]) then None
    else
      match ParseWords(s[1..])
      case None => Some(Parse(s[0].word, s[1..]))
      case Some(more) => Some(Parse(s[0].word + " " + more.value, more.rest))
  }

  /** One or two numbers in parentheses, if there are any. */
  function ParseArgs(s: seq<Lexeme>): (r: Option<Parse<string>>)
    ensures r.Some? ==> |r.value.rest| <= |s|
  {
    if !At(s, 0, Symbol('(')) then Some(Parse("", s))
    else if |s| < 3 || !s[1].Numeral? then None
    else if s[2] == Symbol(')') then Some(Parse("(" + s[1].digits + ")", s[3..]))
    else if s[2] == Symbol(',') && |s| >= 5 && s[3].Numeral? && s[4] == Symbol(')') then
      Some(Parse("(" + s[1].digits + "," + s[3].digits + ")", s[5..]))
    else None
  }

  /** A type: its words, and one or two numbers in parentheses. */
  function ParseType(s: seq<Lexeme>): (r: Option<Parse<string>>)
    ensures r.Some? ==> |r.value.rest| < |s|
  {
    match ParseWords(s)
    case None => None
    case Some(words) =>
      match ParseArgs(words.rest) case None => None case Some(args) => Some(Parse(words.value + args.value, args.rest))
  }

  /** Whether the column is NOT NULL. */
  function ParseNullability(s: seq<Lexeme>): (r: Option<Parse<bool>>)
    ensures r.Some? ==> |r.value.rest| < |s|
  {
    if At(s, 0, Word("NOT")) && At(s, 1, Word("NULL")) then Some(Parse(true, s[2..]))
    else if At(s, 0, Word("NULL")) then Some(Parse(false, s[1..]))
    else None
  }

  /** A default value, in the text that it is written with. */
  function ParseDefaultValue(s: seq<Lexeme>): (r: Option<Parse<string>>)
    ensures r.Some? ==> |r.value.rest| < |s|
  {
    if s == [] then None
    else
      match s[0]
      case Word(w) =>
        if w == "NULL" then Some(Parse("NULL", s[1..]))
        else if w == "CURRENT_TIMESTAMP" then
          if At(s, 1, Symbol('(')) && At(s, 2, Symbol(')')) then Some(Parse("CURRENT_TIMESTAMP()", s[3..]))
          else Some(Parse("CURRENT_TIMESTAMP", s[1..]))
        else None
      case Literal(value) => Some(Parse(QuoteLiteral(value), s[1..]))
      case Numeral(digits) => Some(Parse(digits, s[1..]))
      case Symbol(c) => if c == '-' && |s| > 1 && s[1].Numeral? then Some(Parse("-" + s[1].digits, s[2..])) else None
      case _ => None
  }

  function ParseDefault(s: seq<Lexeme>): (r: Option<Parse<Option<string>>>)
    ensures r.Some? ==> |r.value.rest| <= |s|
  {
    if !At(s, 0, Word("DEFAULT")) then Some(Parse(None, s))
    else
      match ParseDefaultValue(s[1..]) case None => None case Some(p) => Some(Parse(Some(p.value), p.rest))
  }

  function ParseComment(s: seq<Lexeme>): (r: Option<Parse<string>>)
    ensures r.Some? ==> |r.value.rest| <= |s|
  {
    if !At(s, 0, Word("COMMENT")) then Some(Parse("", s))
    else if |s| > 1 && s[1].Literal? && s[1].value != "" then Some(Parse(s[1].value, s[2..]))
    else None
  }

  function ParseDefinition(s: seq<Lexeme>): (r: Option<Parse<Definition>>)
    ensures r.Some? ==> |r.value.rest| < |s|
  {
    match ParseType(s)
    case None => None
    case Some(t) =>
      match ParseNullability(t.rest)
      case None => None
      case Some(n) =>
        match ParseDefault(n.rest)
        case None => None
        case Some(d) =>
          var auto := At(d.rest, 0, Word("AUTO_INCREMENT"));
          match ParseComment(if auto then d.rest[1..] else d.rest)
          case None => None
          case Some(c) => Some(Parse(Definition(t.value, n.value, d.value, auto, c.value), c.rest))
  }

  function ParseClause(s: seq<Lexeme>): (r: Option<Parse<Clause>>)
    ensures r.Some? ==> |r.value.rest| < |s|
  {
    if At(s, 0, Word("DROP")) && At(s, 1, Word("PRIMARY")) && At(s, 2, Word("KEY")) then
      Some(Parse(DropPrimaryKey, s[3..]))
    else if At(s, 0, Word("ADD")) && At(s, 1, Word("PRIMARY")) && At(s, 2, Word("KEY")) && At(s, 3, Symbol('(')) then
      match ParseNames(s[4..])
      case None => None
      case Some(names) =>
        if At(names.rest, 0, Symbol(')')) then Some(Parse(AddPrimaryKey(names.value), names.rest[1..])) else None
    else if |s| < 3 || s[1] != Word("COLUMN") || !s[2].Name? then None
    else if s[0] == Word("DROP") then Some(Parse(DropColumn(s[2].name), s[3..]))
    else
      match ParseDefinition(s[3..])
      case None => None
      case Some(d) =>
        if s[0] == Word("MODIFY") then Some(Parse(ModifyColumn(s[2].name, d.value), d.rest))
        else if s[0] == Word("ADD") then Some(Parse(AddColumn(s[2].name, d.value), d.rest))
        else None
  }

  /** Clauses with a comma between each two, to the end. */
  function ParseClauses(s: seq<Lexeme>): Option<seq<Clause>>
    decreases |s|
  {
    match ParseClause(s)
    case None => None
    case Some(first) =>
      if first.rest == [] then Some([first.value])
      else if first.rest[0] != Symbol(',') then None
      else
        match ParseClauses(first.rest[1..]) case None => None case Some(more) => Some([first.value] + more)
  }

  function ParseAlter(s: seq<Lexeme>): Option<Alter> {
    if |s| < 5 || s[0] != Word("ALTER") || s[1] != Word("TABLE") || !s[2].Name? || s[3] != Symbol('.') || !s[4].Name?
    then None
    else
      match ParseClauses(s[5..]) case None => None case Some(clauses) => Some(Alter(s[2].name, s[4].name, clauses))
  }

  // ---- Texts that are laid out ----

  /** A type written in plain words. */
  datatype TypeForm = TypeForm(words: seq<string>, args: seq<nat>)

  function ArgsFormText(args: seq<nat>): string {
    if args == [] then ""
    else if |args| == 1 then "(" + Decimal(args[0]) + ")"
    else "(" + Decimal(args[0]) + "," + Decimal(args[1]) + ")"
  }

  function TypeFormText(t: TypeForm): string { Join(t.words, " ") + ArgsFormText(t.args) }

  /** A default value that is no free text outside quotes. */
  datatype DefaultForm =
    | NullDefault
    | TimestampDefault(call: bool)
    | NumberDefault(negative: bool, digits: string)
    | TextDefault(value: string)

  function DefaultFormText(d: DefaultForm): string {
    match d
    case NullDefault => "NULL"
    case TimestampDefault(call) => if call then "CURRENT_TIMESTAMP()" else "CURRENT_TIMESTAMP"
    case NumberDefault(negative, digits) => (if negative then "-" else "") + digits
    case TextDefault(value) => QuoteLiteral(value)
  }

  predicate FineWords(words: seq<string>) {
    words != [] && forall word <- words :: IsKeyword(word) && word != "NOT" && word != "NULL"
  }

  predicate FineType(t: TypeForm) { FineWords(t.words) && |t.args| <= 2 }

  predicate FineDefault(d: DefaultForm) { d.NumberDefault? ==> IsNumberText(d.digits) }

  /** The type is plain words with at most two numbers, the default no free text outside quotes. */
  ghost predicate Readable(d: Definition) {
    && (exists t :: FineType(t) && d.type_text == TypeFormText(t))
    && (d.default_text.Some? ==> exists v :: FineDefault(v) && d.default_text.value == DefaultFormText(v))
  }

  ghost predicate ReadableClause(clause: Clause) {
    match clause
    case ModifyColumn(_, d) => Readable(d)
    case AddColumn(_, d) => Readable(d)
    case AddPrimaryKey(names) => names != []
    case _ => true
  }

  // ---- What the parts read as ----

  function WordLexemes(words: seq<string>): seq<Lexeme> {
    if words == [] then [] else [Word(words[0])] + WordLexemes(words[1..])
  }

  function ArgsLexemes(args: seq<nat>): seq<Lexeme>
    requires |args| <= 2
  {
    if args == [] then []
    else if |args| == 1 then [Symbol('('), Numeral(Decimal(args[0])), Symbol(')')]
    else [Symbol('('), Numeral(Decimal(args[0])), Symbol(','), Numeral(Decimal(args[1])), Symbol(')')]
  }

  function TypeLexemes(t: TypeForm): seq<Lexeme>
    requires |t.args| <= 2
  {
    WordLexemes(t.words) + ArgsLexemes(t.args)
  }

  function NullLexemes(notNull: bool): seq<Lexeme> { if notNull then [Word("NOT"), Word("NULL")] else [Word("NULL")] }

  function DefaultLexemes(d: Option<DefaultForm>): seq<Lexeme> {
    if d.None? then []
    else
      [Word("DEFAULT")]
      + match d.value
        case NullDefault => [Word("NULL")]
        case TimestampDefault(call) =>
          if call then [Word("CURRENT_TIMESTAMP"), Symbol('('), Symbol(')')] else [Word("CURRENT_TIMESTAMP")]
        case NumberDefault(negative, digits) => if negative then [Symbol('-'), Numeral(digits)] else [Numeral(digits)]
        case TextDefault(value) => [Literal(value)]
  }

  function AutoLexemes(auto: bool): seq<Lexeme> { if auto then [Word("AUTO_INCREMENT")] else [] }

  function CommentLexemes(comment: string): seq<Lexeme> {
    if comment != "" then [Word("COMMENT"), Literal(comment)] else []
  }

  /** A definition in the forms of its type and default. */
  datatype Formed = Formed(
    type_form: TypeForm, not_null: bool, default_form: Option<DefaultForm>, auto_increment: bool, comment: string)

  predicate FineFormed(f: Formed) {
    FineType(f.type_form) && (f.default_form.Some? ==> FineDefault(f.default_form.value))
  }

  function DefinitionFrom(f: Formed): Definition {
    Definition(TypeFormText(f.type_form), f.not_null,
      if f.default_form.Some? then Some(DefaultFormText(f.default_form.value)) else None, f.auto_increment, f.comment)
  }

  function DefinitionLexemes(f: Formed): seq<Lexeme>
    requires FineFormed(f)
  {
    TypeLexemes(f.type_form) + NullLexemes(f.not_null) + DefaultLexemes(f.default_form) + AutoLexemes(f.auto_increment)
    + CommentLexemes(f.comment)
  }

  lemma ReadableIsFormed(d: Definition) returns (f: Formed)
    requires Readable(d)
    ensures FineFormed(f) && DefinitionFrom(f) == d
  {
    var t :| FineType(t) && d.type_text == TypeFormText(t);
    var v := None;
    if d.default_text.Some? {
      var w :| FineDefault(w) && d.default_text.value == DefaultFormText(w);
      v := Some(w);
    }
    f := Formed(t, d.not_null, v, d.auto_increment, d.comment);
  }

  // ---- Parsing the parts ----

  /** What may follow a whole definition: the end, or the comma before the next clause. */
  predicate EndsDefinition(rest: seq<Lexeme>) { rest == [] || rest[0] == Symbol(',') }

  lemma WordsStep(words: seq<string>)
    requires words != []
    ensures WordLexemes(words) == [Word(words[0])] + WordLexemes(words[1..])
  {
  }

  lemma JoinStep(words: seq<string>)
    requires words != []
    ensures Join(words, " ") == if |words| == 1 then words[0] else words[0] + " " + Join(words[1..], " ")
  {
  }

  lemma FirstWord(words: seq<string>, rest: seq<Lexeme>)
    requires words != []
    ensures WordLexemes(words) + rest == [Word(words[0])] + (WordLexemes(words[1..]) + rest)
    ensures Join(words, " ") == if |words| == 1 then words[0] else words[0] + " " + Join(words[1..], " ")
  {
    hide WordLexemes, Join;
    JoinStep(words);
    WordsStep(words);
    assert [Word(words[0])] + WordLexemes(words[1..]) + rest == [Word(words[0])] + (WordLexemes(words[1..]) + rest);
  }

  lemma WordAt(s: seq<Lexeme>, word: string, rest: seq<Lexeme>)
    requires s == [Word(word)] + rest && word != "NOT" && word != "NULL"
    ensures ParseWords(s)
         == match ParseWords(rest)
            case None => Some(Parse(word, rest))
            case Some(more) => Some(Parse(word + " " + more.value, more.rest))
  {
    assert s[1..] == rest;
  }

  lemma {:induction false} WordsParse(words: seq<string>, rest: seq<Lexeme>)
    requires FineWords(words) && (rest == [] || !IsTypeWord(rest[0]))
    ensures ParseWords(WordLexemes(words) + rest) == Some(Parse(Join(words, " "), rest))
  {
    FirstWord(words, rest);
    var tail := WordLexemes(words[1..]) + rest;
    assert words[0] in words;
    WordAt(WordLexemes(words) + rest, words[0], tail);
    hide IsKeyword;
    if |words| == 1 {
      assert tail == rest;
      assert ParseWords(rest) == None;
    } else {
      assert forall word <- words[1..] :: word in words;
      WordsParse(words[1..], rest);
      hide ParseWords, WordLexemes, Join;
    }
  }

  lemma ArgsParse(args: seq<nat>, rest: seq<Lexeme>)
    requires |args| <= 2 && (rest == [] || rest[0] != Symbol('('))
    ensures ParseArgs(ArgsLexemes(args) + rest) == Some(Parse(ArgsFormText(args), rest))
  {
    hide Decimal;
    var s := ArgsLexemes(args) + rest;
    if args == [] {
      assert s == rest;
    } else if |args| == 1 {
      assert s[3..] == rest;
    } else {
      assert s[5..] == rest;
    }
  }

  lemma TypeParses(t: TypeForm, rest: seq<Lexeme>)
    requires FineType(t) && (rest == [] || (rest[0] != Symbol('(') && !IsTypeWord(rest[0])))
    ensures ParseType(TypeLexemes(t) + rest) == Some(Parse(TypeFormText(t), rest))
  {
    ArgsParse(t.args, rest);
    var tail := ArgsLexemes(t.args) + rest;
    assert tail == [] || !IsTypeWord(tail[0]);
    hide ArgsLexemes, ParseArgs, ArgsFormText, FineWords;
    WordsParse(t.words, tail);
    assert TypeLexemes(t) + rest == WordLexemes(t.words) + tail;
    hide ParseWords, WordLexemes, Join;
  }

  lemma NullabilityParses(notNull: bool, rest: seq<Lexeme>)
    ensures ParseNullability(NullLexemes(notNull) + rest) == Some(Parse(notNull, rest))
  {
    var s := NullLexemes(notNull) + rest;
    if notNull {
      assert s[2..] == rest;
    } else {
      assert s[1..] == rest;
    }
  }

  lemma DefaultValueParses(v: DefaultForm, rest: seq<Lexeme>)
    requires rest == [] || rest[0] != Symbol('(')
    ensures ParseDefaultValue(DefaultLexemes(Some(v))[1..] + rest) == Some(Parse(DefaultFormText(v), rest))
  {
    hide QuoteLiteral;
    var lexemes := DefaultLexemes(Some(v))[1..];
    var s := lexemes + rest;
    match v
    case NullDefault =>
      assert lexemes == [Word("NULL")];
      assert s[1..] == rest;
    case TimestampDefault(call) =>
      if call {
        assert lexemes == [Word("CURRENT_TIMESTAMP"), Symbol('('), Symbol(')')];
        assert s[3..] == rest;
      } else {
        assert lexemes == [Word("CURRENT_TIMESTAMP")];
        assert s[1..] == rest;
      }
    case NumberDefault(negative, digits) =>
      assert lexemes == if negative then [Symbol('-'), Numeral(digits)] else [Numeral(digits)];
      assert s[if negative then 2 else 1..] == rest;
      assert "" + digits == digits;
    case TextDefault(value) =>
      assert lexemes == [Literal(value)];
      assert s[1..] == rest;
  }

  lemma DefaultParses(d: Option<DefaultForm>, rest: seq<Lexeme>)
    requires rest == [] || (rest[0] != Symbol('(') && rest[0] != Word("DEFAULT"))
    ensures ParseDefault(DefaultLexemes(d) + rest)
         == Some(Parse(if d.Some? then Some(DefaultFormText(d.value)) else None, rest))
  {
    hide DefaultFormText, ParseDefaultValue;
    if d.None? {
      assert DefaultLexemes(d) + rest == rest;
    } else {
      DefaultValueParses(d.value, rest);
      var lexemes := DefaultLexemes(d);
      assert (lexemes + rest)[1..] == lexemes[1..] + rest;
    }
  }

  lemma CommentParses(comment: string, rest: seq<Lexeme>)
    requires EndsDefinition(rest)
    ensures ParseComment(CommentLexemes(comment) + rest) == Some(Parse(comment, rest))
  {
    if comment == "" {
      assert [] + rest == rest;
    } else {
      assert (CommentLexemes(comment) + rest)[2..] == rest;
    }
  }

  /** The parts of a definition, one after the other. */
  lemma DefinitionAt(
    s: seq<Lexeme>, t: Parse<string>, n: Parse<bool>, d: Parse<Option<string>>, c: Parse<string>, auto: bool)
    requires ParseType(s) == Some(t) && ParseNullability(t.rest) == Some(n) && ParseDefault(n.rest) == Some(d)
    requires auto == At(d.rest, 0, Word("AUTO_INCREMENT"))
    requires ParseComment(if auto then d.rest[1..] else d.rest) == Some(c)
    ensures ParseDefinition(s) == Some(Parse(Definition(t.value, n.value, d.value, auto, c.value), c.rest))
  {
    hide ParseType, ParseNullability, ParseDefault, ParseComment;
  }

  lemma PartsFollow(f: Formed, rest: seq<Lexeme>)
    requires FineFormed(f) && EndsDefinition(rest)
    ensures var d := CommentLexemes(f.comment) + rest; var c := AutoLexemes(f.auto_increment) + d;
      var b := DefaultLexemes(f.default_form) + c; var a := NullLexemes(f.not_null) + b;
      && a != [] && a[0] != Symbol('(') && !IsTypeWord(a[0])
      && (c == [] || (c[0] != Symbol('(') && c[0] != Word("DEFAULT")))
      && At(c, 0, Word("AUTO_INCREMENT")) == f.auto_increment
      && (f.auto_increment ==> c[1..] == d)
      && (!f.auto_increment ==> c == d)
  {
    var d := CommentLexemes(f.comment) + rest;
    var c := AutoLexemes(f.auto_increment) + d;
    if f.auto_increment {
      assert c[1..] == d;
    } else {
      assert c == d;
    }
    hide DefaultLexemes, FineFormed;
  }

  lemma DefinitionInParts(f: Formed, rest: seq<Lexeme>)
    requires FineFormed(f)
    ensures DefinitionLexemes(f) + rest
         == TypeLexemes(f.type_form)
            + (NullLexemes(f.not_null)
               + (DefaultLexemes(f.default_form)
                  + (AutoLexemes(f.auto_increment) + (CommentLexemes(f.comment) + rest))))
  {
    hide TypeLexemes, NullLexemes, DefaultLexemes, AutoLexemes, CommentLexemes;
  }

  lemma DefinitionParses(f: Formed, rest: seq<Lexeme>)
    requires FineFormed(f) && EndsDefinition(rest)
    ensures ParseDefinition(DefinitionLexemes(f) + rest) == Some(Parse(DefinitionFrom(f), rest))
  {
    FormedParts(f);
    PartsFollow(f, rest);
    DefinitionInParts(f, rest);
    hide *;
    var d := CommentLexemes(f.comment) + rest;
    var c := AutoLexemes(f.auto_increment) + d;
    var b := DefaultLexemes(f.default_form) + c;
    var a := NullLexemes(f.not_null) + b;
    TypeParses(f.type_form, a);
    NullabilityParses(f.not_null, b);
    DefaultParses(f.default_form, c);
    CommentParses(f.comment, rest);
    var v := if f.default_form.Some? then Some(DefaultFormText(f.default_form.value)) else None;
    DefinitionAt(
      DefinitionLexemes(f) + rest, Parse(TypeFormText(f.type_form), a), Parse(f.not_null, b), Parse(v, c),
      Parse(f.comment, rest), f.auto_increment);
  }

  lemma FormedParts(f: Formed)
    requires FineFormed(f)
    ensures FineType(f.type_form)
    ensures DefinitionFrom(f)
         == Definition(TypeFormText(f.type_form), f.not_null,
              if f.default_form.Some? then Some(DefaultFormText(f.default_form.value)) else None,
              f.auto_increment, f.comment)
  {
  }

  // ---- Parsing clauses ----

  /** A clause with its definition, if it has one, in the forms of its type and default. */
  datatype FormedClause = FormedClause(clause: Clause, formed: Option<Formed>)

  ghost predicate FineClause(f: FormedClause) {
    match f.clause
    case ModifyColumn(_, d) => f.formed.Some? && FineFormed(f.formed.value) && DefinitionFrom(f.formed.value) == d
    case AddColumn(_, d) => f.formed.Some? && FineFormed(f.formed.value) && DefinitionFrom(f.formed.value) == d
    case AddPrimaryKey(names) => names != []
    case _ => true
  }

  ghost function ClauseLexemes(f: FormedClause): seq<Lexeme>
    requires FineClause(f)
  {
    match f.clause
    case DropColumn(name) => [Word("DROP"), Word("COLUMN"), Name(name)]
    case ModifyColumn(name, _) => [Word("MODIFY"), Word("COLUMN"), Name(name)] + DefinitionLexemes(f.formed.value)
    case AddColumn(name, _) => [Word("ADD"), Word("COLUMN"), Name(name)] + DefinitionLexemes(f.formed.value)
    case DropPrimaryKey => [Word("DROP"), Word("PRIMARY"), Word("KEY")]
    case AddPrimaryKey(names) =>
      [Word("ADD"), Word("PRIMARY"), Word("KEY"), Symbol('(')] + NameLexemes(names) + [Symbol(')')]
  }

  lemma ColumnClauseParses(f: FormedClause, rest: seq<Lexeme>)
    requires FineClause(f) && EndsDefinition(rest) && (f.clause.ModifyColumn? || f.clause.AddColumn?)
    ensures ParseClause(ClauseLexemes(f) + rest) == Some(Parse(f.clause, rest))
  {
    hide ParseDefinition, DefinitionLexemes, ParseNames, NameLexemes, DefinitionFrom, FineFormed;
    var s := ClauseLexemes(f) + rest;
    DefinitionParses(f.formed.value, rest);
    assert s[3..] == DefinitionLexemes(f.formed.value) + rest;
  }

  lemma KeyClauseParses(names: seq<string>, rest: seq<Lexeme>)
    requires names != []
    ensures ParseClause(ClauseLexemes(FormedClause(AddPrimaryKey(names), None)) + rest)
         == Some(Parse(AddPrimaryKey(names), rest))
  {
    hide ParseDefinition, ParseNames, NameLexemes;
    var s := ClauseLexemes(FormedClause(AddPrimaryKey(names), None)) + rest;
    NamesParse(names, [Symbol(')')] + rest);
    assert s[4..] == NameLexemes(names) + ([Symbol(')')] + rest);
    assert ([Symbol(')')] + rest)[1..] == rest;
  }

  lemma ClauseParses(f: FormedClause, rest: seq<Lexeme>)
    requires FineClause(f) && EndsDefinition(rest)
    ensures ParseClause(ClauseLexemes(f) + rest) == Some(Parse(f.clause, rest))
  {
    if f.clause.ModifyColumn? || f.clause.AddColumn? {
      ColumnClauseParses(f, rest);
    } else if f.clause.AddPrimaryKey? {
      KeyClauseParses(f.clause.names, rest);
      hide ParseClause;
    } else {
      hide ParseDefinition, DefinitionLexemes, ParseNames, NameLexemes;
      assert (ClauseLexemes(f) + rest)[3..] == rest;
    }
  }

  ghost function ClausesLexemes(clauses: seq<FormedClause>): seq<Lexeme>
    requires forall f <- clauses :: FineClause(f)
  {
    if clauses == [] then []
    else if |clauses| == 1 then ClauseLexemes(clauses[0])
    else ClauseLexemes(clauses[0]) + [Symbol(',')] + ClausesLexemes(clauses[1..])
  }

  function Plain(clauses: seq<FormedClause>): (r: seq<Clause>)
    ensures |r| == |clauses| && forall i :: 0 <= i < |r| ==> r[i] == clauses[i].clause
  {
    if clauses == [] then [] else [clauses[0].clause] + Plain(clauses[1..])
  }

  lemma {:induction false} ClausesParse(clauses: seq<FormedClause>)
    requires clauses != [] && forall f <- clauses :: FineClause(f)
    ensures ParseClauses(ClausesLexemes(clauses)) == Some(Plain(clauses))
  {
    hide ParseClause, ClauseLexemes, FineClause;
    if |clauses| == 1 {
      ClauseParses(clauses[0], []);
      assert ClauseLexemes(clauses[0]) + [] == ClauseLexemes(clauses[0]);
      assert Plain(clauses) == [clauses[0].clause];
    } else {
      var tail := [Symbol(',')] + ClausesLexemes(clauses[1..]);
      ClauseParses(clauses[0], tail);
      ClausesParse(clauses[1..]);
      assert ClausesLexemes(clauses) == ClauseLexemes(clauses[0]) + tail;
      assert tail[1..] == ClausesLexemes(clauses[1..]);
    }
  }

  // ---- The text of the clauses ----

  lemma ArgsOpen()
    ensures Reads([Mark('(')], "(", [Symbol('(')]) && Reads([Mark(',')], ",", [Symbol(',')])
    ensures Reads([Mark(')')], ")", [Symbol(')')])
  {
  }

  /** Parentheses around one or two numbers. */
  lemma ArgsRead(args: seq<nat>) returns (pieces: seq<Piece>)
    requires 1 <= |args| <= 2
    ensures var a := Decimal(args[0]);
      if |args| == 1 then Reads(pieces, "(" + a + ")", [Symbol('('), Numeral(a), Symbol(')')])
      else
        var b := Decimal(args[1]);
        Reads(pieces, "(" + a + "," + b + ")", [Symbol('('), Numeral(a), Symbol(','), Numeral(b), Symbol(')')])
    ensures |pieces| > 1 && pieces[0] == Mark('(') && pieces[|pieces| - 1] == Mark(')')
  {
    hide Reads, Decimal;
    var a := Decimal(args[0]);
    ArgsOpen();
    NumberReads(args[0]);
    ReadsOn([Mark('(')], "(", [Symbol('(')], [Number(false, a)], a, [Numeral(a)]);
    pieces := [Mark('(')] + [Number(false, a)];
    if |args| == 1 {
      ReadsOn(pieces, "(" + a, [Symbol('(')] + [Numeral(a)], [Mark(')')], ")", [Symbol(')')]);
      assert [Symbol('(')] + [Numeral(a)] + [Symbol(')')] == [Symbol('('), Numeral(a), Symbol(')')];
      pieces := pieces + [Mark(')')];
    } else {
      var b := Decimal(args[1]);
      NumberReads(args[1]);
      ReadsOn(pieces, "(" + a, [Symbol('(')] + [Numeral(a)], [Mark(',')], ",", [Symbol(',')]);
      ReadsOn(pieces + [Mark(',')], "(" + a + ",", [Symbol('(')] + [Numeral(a)] + [Symbol(',')],
        [Number(false, b)], b, [Numeral(b)]);
      ReadsOn(pieces + [Mark(',')] + [Number(false, b)], "(" + a + "," + b,
        [Symbol('(')] + [Numeral(a)] + [Symbol(',')] + [Numeral(b)], [Mark(')')], ")", [Symbol(')')]);
      pieces := pieces + [Mark(',')] + [Number(false, b)] + [Mark(')')];
      assert [Symbol('(')] + [Numeral(a)] + [Symbol(',')] + [Numeral(b)] + [Symbol(')')]
          == [Symbol('('), Numeral(a), Symbol(','), Numeral(b), Symbol(')')];
    }
  }

  lemma NumberReads(n: nat)
    ensures Reads([Number(false, Decimal(n))], Decimal(n), [Numeral(Decimal(n))])
  {
    DecimalIsNumber(n);
    ReadsOne(Number(false, Decimal(n)));
    hide Decimal, Reads, IsNumberText;
    assert "" + Decimal(n) == Decimal(n);
    assert [] + [Numeral(Decimal(n))] == [Numeral(Decimal(n))];
  }

  /** Pieces that a blank may follow: all that end a part of a definition. */
  predicate EndsPart(pieces: seq<Piece>) { pieces != [] && !pieces[|pieces| - 1].Remark? }

  lemma {:induction false} WordsRead(words: seq<string>) returns (pieces: seq<Piece>)
    requires FineWords(words)
    ensures Reads(pieces, Join(words, " "), WordLexemes(words))
    ensures EndsPart(pieces) && pieces[0].Keyword?
  {
    hide Reads, IsKeyword, Join, WordLexemes;
    FirstWord(words, []);
    WordsStep(words);
    ReadsOne(Keyword(words[0]));
    pieces := [Keyword(words[0])];
    if |words| == 1 {
      NoWords(words[1..]);
      assert WordLexemes(words) == [Word(words[0])];
    } else {
      assert forall word <- words[1..] :: word in words;
      var more := WordsRead(words[1..]);
      ReadsOne(Blank(' '));
      ReadsOn(pieces, words[0], [Word(words[0])], [Blank(' ')], " ", []);
      assert [Word(words[0])] + [] == [Word(words[0])];
      ReadsOn(pieces + [Blank(' ')], words[0] + " ", [Word(words[0])], more, Join(words[1..], " "),
        WordLexemes(words[1..]));
      pieces := pieces + [Blank(' ')] + more;
    }
  }

  lemma NoWords(words: seq<string>)
    requires words == []
    ensures WordLexemes(words) == []
  {
  }

  lemma TypeReads(t: TypeForm) returns (pieces: seq<Piece>)
    requires FineType(t)
    ensures Reads(pieces, TypeFormText(t), TypeLexemes(t))
    ensures EndsPart(pieces) && pieces[0].Keyword?
  {
    hide Reads, Decimal, FineWords, Join, WordLexemes;
    pieces := WordsRead(t.words);
    if t.args == [] {
      assert Join(t.words, " ") + "" == Join(t.words, " ");
      assert WordLexemes(t.words) + [] == WordLexemes(t.words);
    } else {
      var more := ArgsRead(t.args);
      ReadsOn(pieces, Join(t.words, " "), WordLexemes(t.words), more, ArgsFormText(t.args), ArgsLexemes(t.args));
      pieces := pieces + more;
    }
  }

  lemma NullabilityReads(notNull: bool) returns (pieces: seq<Piece>)
    ensures Reads(pieces, if notNull then " NOT NULL" else " NULL", NullLexemes(notNull))
    ensures EndsPart(pieces) && pieces[0].Blank?
  {
    NullReads();
    if notNull {
      NotReads();
      hide Reads;
      ReadsOn([Blank(' '), Keyword("NOT")], " NOT", [Word("NOT")],
        [Blank(' '), Keyword("NULL")], " NULL", [Word("NULL")]);
      pieces := [Blank(' '), Keyword("NOT")] + [Blank(' '), Keyword("NULL")];
      assert " NOT" + " NULL" == " NOT NULL";
      assert [Word("NOT")] + [Word("NULL")] == [Word("NOT"), Word("NULL")];
    } else {
      pieces := [Blank(' '), Keyword("NULL")];
    }
  }

  lemma NullReads()
    ensures Reads([Blank(' '), Keyword("NULL")], " NULL", [Word("NULL")])
  {
  }

  lemma NotReads()
    ensures Reads([Blank(' '), Keyword("NOT")], " NOT", [Word("NOT")])
  {
  }

  lemma ValueReads(v: DefaultForm) returns (pieces: seq<Piece>)
    requires FineDefault(v)
    ensures Reads(pieces, DefaultFormText(v), DefaultLexemes(Some(v))[1..])
    ensures EndsPart(pieces) && !pieces[0].Remark?
  {
    var lexemes := DefaultLexemes(Some(v))[1..];
    match v
    case NullDefault =>
      pieces := [Keyword("NULL")];
      assert Reads([Keyword("NULL")], "NULL", [Word("NULL")]);
      assert lexemes == [Word("NULL")];
    case TimestampDefault(call) =>
      TimestampReads();
      pieces := [Keyword("CURRENT_TIMESTAMP")] + if call then [Mark('('), Mark(')')] else [];
      assert lexemes
          == if call then [Word("CURRENT_TIMESTAMP"), Symbol('('), Symbol(')')] else [Word("CURRENT_TIMESTAMP")];
      hide Reads;
    case NumberDefault(negative, digits) =>
      pieces := [Number(negative, digits)];
      ReadsOne(Number(negative, digits));
      assert lexemes == PieceLexemes(Number(negative, digits));
      hide Reads, IsNumberText;
    case TextDefault(value) =>
      pieces := [Piece.Text(value)];
      ReadsOne(Piece.Text(value));
      assert lexemes == [Literal(value)];
      hide Reads, QuoteLiteral;
  }

  lemma TimestampReads()
    ensures Reads([Keyword("CURRENT_TIMESTAMP")] + [], "CURRENT_TIMESTAMP", [Word("CURRENT_TIMESTAMP")])
    ensures Reads([Keyword("CURRENT_TIMESTAMP")] + [Mark('('), Mark(')')], "CURRENT_TIMESTAMP()",
              [Word("CURRENT_TIMESTAMP"), Symbol('('), Symbol(')')])
  {
    var word := [Keyword("CURRENT_TIMESTAMP")];
    assert IsKeyword("CURRENT_TIMESTAMP");
    ReadsOne(Keyword("CURRENT_TIMESTAMP"));
    assert word + [] == word;
    CallReads();
    ReadsOn(word, "CURRENT_TIMESTAMP", [Word("CURRENT_TIMESTAMP")], [Mark('('), Mark(')')], "()",
      [Symbol('('), Symbol(')')]);
    hide Reads;
    assert [Word("CURRENT_TIMESTAMP")] + [Symbol('('), Symbol(')')]
        == [Word("CURRENT_TIMESTAMP"), Symbol('('), Symbol(')')];
    assert "CURRENT_TIMESTAMP" + "()" == "CURRENT_TIMESTAMP()";
  }

  lemma CallReads()
    ensures Reads([Mark('('), Mark(')')], "()", [Symbol('('), Symbol(')')])
  {
  }

  /** The default, the automatic mark and the comment, each of which may be missing. */
  lemma OptionsRead(d: Option<DefaultForm>) returns (pieces: seq<Piece>)
    requires d.Some? ==> FineDefault(d.value)
    ensures Reads(pieces, if d.Some? then " DEFAULT " + DefaultFormText(d.value) else "", DefaultLexemes(d))
    ensures pieces != [] ==> EndsPart(pieces) && pieces[0].Blank?
  {
    if d.None? {
      NothingReads();
      pieces := [];
    } else {
      hide Reads, DefaultFormText, FineDefault;
      DefaultOpens();
      var value := ValueReads(d.value);
      ReadsOn([Blank(' '), Keyword("DEFAULT"), Blank(' ')], " DEFAULT ", [Word("DEFAULT")],
        value, DefaultFormText(d.value), DefaultLexemes(d)[1..]);
      pieces := [Blank(' '), Keyword("DEFAULT"), Blank(' ')] + value;
      assert [Word("DEFAULT")] + DefaultLexemes(d)[1..] == DefaultLexemes(d);
    }
  }

  lemma DefaultOpens()
    ensures Reads([Blank(' '), Keyword("DEFAULT"), Blank(' ')], " DEFAULT ", [Word("DEFAULT")])
  {
  }

  lemma AutoReads(auto: bool) returns (pieces: seq<Piece>)
    ensures Reads(pieces, if auto then " AUTO_INCREMENT" else "", AutoLexemes(auto))
    ensures pieces != [] ==> EndsPart(pieces) && pieces[0].Blank?
  {
    if auto {
      assert IsKeyword("AUTO_INCREMENT");
      ReadsOne(Blank(' '));
      ReadsOne(Keyword("AUTO_INCREMENT"));
      ReadsOn([Blank(' ')], " ", [], [Keyword("AUTO_INCREMENT")], "AUTO_INCREMENT", [Word("AUTO_INCREMENT")]);
      pieces := [Blank(' ')] + [Keyword("AUTO_INCREMENT")];
      hide Reads;
      assert " " + "AUTO_INCREMENT" == " AUTO_INCREMENT";
      assert [] + [Word("AUTO_INCREMENT")] == [Word("AUTO_INCREMENT")];
    } else {
      NothingReads();
      pieces := [];
    }
  }

  lemma CommentReads(comment: string) returns (pieces: seq<Piece>)
    ensures Reads(pieces, if comment != "" then " COMMENT " + QuoteLiteral(comment) else "", CommentLexemes(comment))
    ensures pieces != [] ==> EndsPart(pieces) && pieces[0].Blank?
  {
    if comment != "" {
      CommentOpens();
      ReadsOne(Piece.Text(comment));
      hide Reads, QuoteLiteral;
      ReadsOn([Blank(' '), Keyword("COMMENT"), Blank(' ')], " COMMENT ", [Word("COMMENT")],
        [Piece.Text(comment)], QuoteLiteral(comment), [Literal(comment)]);
      pieces := [Blank(' '), Keyword("COMMENT"), Blank(' ')] + [Piece.Text(comment)];
      assert [Word("COMMENT")] + [Literal(comment)] == [Word("COMMENT"), Literal(comment)];
    } else {
      NothingReads();
      pieces := [];
    }
  }

  lemma CommentOpens()
    ensures Reads([Blank(' '), Keyword("COMMENT"), Blank(' ')], " COMMENT ", [Word("COMMENT")])
  {
  }

  lemma DefinitionTextInParts(name: string, f: Formed)
    ensures DefinitionText(name, DefinitionFrom(f))
         == QuoteIdentifier(name) + " " + TypeFormText(f.type_form) + (if f.not_null then " NOT NULL" else " NULL")
            + (if f.default_form.Some? then " DEFAULT " + DefaultFormText(f.default_form.value) else "")
            + (if f.auto_increment then " AUTO_INCREMENT" else "")
            + (if f.comment != "" then " COMMENT " + QuoteLiteral(f.comment) else "")
  {
    hide QuoteIdentifier, TypeFormText, DefaultFormText, QuoteLiteral;
  }

  /** Parts put together one by one. */
  lemma NextPart(
    a: seq<Piece>, s: string, x: seq<Lexeme>, b: seq<Piece>, t: string, y: seq<Lexeme>)
    requires Reads(a, s, x) && Reads(b, t, y) && EndsPart(a)
    requires b != [] ==> EndsPart(b) && b[0].Blank?
    ensures Reads(a + b, s + t, x + y) && EndsPart(a + b) && (a + b)[0] == a[0]
  {
    hide Reads;
    ReadsOn(a, s, x, b, t, y);
  }

  lemma DefinitionReads(name: string, f: Formed) returns (pieces: seq<Piece>)
    requires FineFormed(f)
    ensures Reads(pieces, DefinitionText(name, DefinitionFrom(f)), [Name(name)] + DefinitionLexemes(f))
    ensures EndsPart(pieces) && pieces[0].Quoted?
  {
    hide Reads, TypeFormText, DefaultFormText, QuoteIdentifier, QuoteLiteral, DefinitionFrom, DefinitionText, IsKeyword,
      FineDefault, TypeLexemes, NullLexemes, DefaultLexemes, AutoLexemes, CommentLexemes;
    var q := QuoteIdentifier(name);
    ReadsOne(Quoted(name));
    ReadsOne(Blank(' '));
    ReadsOn([Quoted(name)], q, [Name(name)], [Blank(' ')], " ", []);
    assert [Name(name)] + [] == [Name(name)];
    var t := TypeReads(f.type_form);
    var n := NullabilityReads(f.not_null);
    var d := OptionsRead(f.default_form);
    var a := AutoReads(f.auto_increment);
    var c := CommentReads(f.comment);
    var start := [Quoted(name)] + [Blank(' ')];
    ReadsOn(start, q + " ", [Name(name)], t, TypeFormText(f.type_form), TypeLexemes(f.type_form));
    pieces := start + t;
    var text, lexemes := q + " " + TypeFormText(f.type_form), [Name(name)] + TypeLexemes(f.type_form);
    var nt := if f.not_null then " NOT NULL" else " NULL";
    var dt := if f.default_form.Some? then " DEFAULT " + DefaultFormText(f.default_form.value) else "";
    var at := if f.auto_increment then " AUTO_INCREMENT" else "";
    var ct := if f.comment != "" then " COMMENT " + QuoteLiteral(f.comment) else "";
    NextPart(pieces, text, lexemes, n, nt, NullLexemes(f.not_null));
    NextPart(pieces + n, text + nt, lexemes + NullLexemes(f.not_null), d, dt, DefaultLexemes(f.default_form));
    NextPart(pieces + n + d, text + nt + dt, lexemes + NullLexemes(f.not_null) + DefaultLexemes(f.default_form),
      a, at, AutoLexemes(f.auto_increment));
    NextPart(pieces + n + d + a, text + nt + dt + at,
      lexemes + NullLexemes(f.not_null) + DefaultLexemes(f.default_form) + AutoLexemes(f.auto_increment),
      c, ct, CommentLexemes(f.comment));
    pieces := pieces + n + d + a + c;
    DefinitionTextInParts(name, f);
    assert lexemes + NullLexemes(f.not_null) + DefaultLexemes(f.default_form) + AutoLexemes(f.auto_increment)
           + CommentLexemes(f.comment) == [Name(name)] + DefinitionLexemes(f);
  }

  lemma ColumnClauseOpens()
    ensures Reads([Keyword("DROP"), Blank(' '), Keyword("COLUMN"), Blank(' ')], "DROP COLUMN ",
              [Word("DROP"), Word("COLUMN")])
    ensures Reads([Keyword("ADD"), Blank(' '), Keyword("COLUMN"), Blank(' ')], "ADD COLUMN ",
              [Word("ADD"), Word("COLUMN")])
    ensures Reads([Keyword("MODIFY"), Blank(' '), Keyword("COLUMN"), Blank(' ')], "MODIFY COLUMN ",
              [Word("MODIFY"), Word("COLUMN")])
  {
    ColumnReads();
    FirstWordReads();
    hide Reads;
    ReadsOn([Keyword("DROP"), Blank(' ')], "DROP ", [Word("DROP")],
      [Keyword("COLUMN"), Blank(' ')], "COLUMN ", [Word("COLUMN")]);
    ReadsOn([Keyword("ADD"), Blank(' ')], "ADD ", [Word("ADD")],
      [Keyword("COLUMN"), Blank(' ')], "COLUMN ", [Word("COLUMN")]);
    ReadsOn([Keyword("MODIFY"), Blank(' ')], "MODIFY ", [Word("MODIFY")],
      [Keyword("COLUMN"), Blank(' ')], "COLUMN ", [Word("COLUMN")]);
    assert [Keyword("DROP"), Blank(' ')] + [Keyword("COLUMN"), Blank(' ')]
        == [Keyword("DROP"), Blank(' '), Keyword("COLUMN"), Blank(' ')];
    assert [Keyword("ADD"), Blank(' ')] + [Keyword("COLUMN"), Blank(' ')]
        == [Keyword("ADD"), Blank(' '), Keyword("COLUMN"), Blank(' ')];
    assert [Keyword("MODIFY"), Blank(' ')] + [Keyword("COLUMN"), Blank(' ')]
        == [Keyword("MODIFY"), Blank(' '), Keyword("COLUMN"), Blank(' ')];
    assert [Word("DROP")] + [Word("COLUMN")] == [Word("DROP"), Word("COLUMN")];
    assert [Word("ADD")] + [Word("COLUMN")] == [Word("ADD"), Word("COLUMN")];
    assert [Word("MODIFY")] + [Word("COLUMN")] == [Word("MODIFY"), Word("COLUMN")];
    assert "DROP " + "COLUMN " == "DROP COLUMN " && "ADD " + "COLUMN " == "ADD COLUMN ";
    assert "MODIFY " + "COLUMN " == "MODIFY COLUMN ";
  }

  lemma ColumnReads()
    ensures Reads([Keyword("COLUMN"), Blank(' ')], "COLUMN ", [Word("COLUMN")])
  {
  }

  lemma FirstWordReads()
    ensures Reads([Keyword("DROP"), Blank(' ')], "DROP ", [Word("DROP")])
    ensures Reads([Keyword("ADD"), Blank(' ')], "ADD ", [Word("ADD")])
    ensures Reads([Keyword("MODIFY"), Blank(' ')], "MODIFY ", [Word("MODIFY")])
  {
    CommandReads("DROP");
    CommandReads("ADD");
    CommandReads("MODIFY");
    hide Reads;
  }

  lemma CommandReads(word: string)
    requires word in {"DROP", "ADD", "MODIFY"}
    ensures Reads([Keyword(word), Blank(' ')], word + " ", [Word(word)])
  {
    ReadsOne(Keyword(word));
    ReadsOne(Blank(' '));
    hide Reads;
    ReadsOn([Keyword(word)], word, [Word(word)], [Blank(' ')], " ", []);
    assert [Word(word)] + [] == [Word(word)];
    assert [Keyword(word)] + [Blank(' ')] == [Keyword(word), Blank(' ')];
  }

  lemma KeyReads()
    ensures Reads([Keyword("PRIMARY"), Blank(' ')], "PRIMARY ", [Word("PRIMARY")])
    ensures Reads([Keyword("KEY")], "KEY", [Word("KEY")])
  {
  }

  lemma ListMarksRead()
    ensures Reads([Blank(' '), Mark('(')], " (", [Symbol('(')])
    ensures Reads([Mark(')')], ")", [Symbol(')')])
  {
  }

  lemma DropKeyReads() returns (pieces: seq<Piece>)
    ensures Reads(pieces, "DROP PRIMARY KEY", [Word("DROP"), Word("PRIMARY"), Word("KEY")])
    ensures EndsPart(pieces) && pieces[0].Keyword?
  {
    FirstWordReads();
    KeyReads();
    hide Reads;
    var a, b, c := [Keyword("DROP"), Blank(' ')], [Keyword("PRIMARY"), Blank(' ')], [Keyword("KEY")];
    ReadsOn(a, "DROP ", [Word("DROP")], b, "PRIMARY ", [Word("PRIMARY")]);
    ReadsOn(a + b, "DROP " + "PRIMARY ", [Word("DROP")] + [Word("PRIMARY")], c, "KEY", [Word("KEY")]);
    pieces := a + b + c;
    assert "DROP " + "PRIMARY " + "KEY" == "DROP PRIMARY KEY";
    assert [Word("DROP")] + [Word("PRIMARY")] + [Word("KEY")] == [Word("DROP"), Word("PRIMARY"), Word("KEY")];
  }

  lemma AddKeyReads(names: seq<string>) returns (pieces: seq<Piece>)
    requires names != []
    ensures Reads(pieces, "ADD PRIMARY KEY (" + Join(QuotedNames(names), ", ") + ")",
              [Word("ADD"), Word("PRIMARY"), Word("KEY"), Symbol('(')] + NameLexemes(names) + [Symbol(')')])
    ensures EndsPart(pieces) && pieces[0].Keyword?
  {
    FirstWordReads();
    KeyReads();
    ListMarksRead();
    hide Reads, Join, QuotedNames, NameLexemes;
    var a, b, c := [Keyword("ADD"), Blank(' ')], [Keyword("PRIMARY"), Blank(' ')], [Keyword("KEY")];
    var d := [Blank(' '), Mark('(')];
    var e := NamesRead(names);
    var text, lexemes := Join(QuotedNames(names), ", "), NameLexemes(names);
    ReadsOn(a, "ADD ", [Word("ADD")], b, "PRIMARY ", [Word("PRIMARY")]);
    ReadsOn(a + b, "ADD " + "PRIMARY ", [Word("ADD")] + [Word("PRIMARY")], c, "KEY", [Word("KEY")]);
    var start, s := "ADD " + "PRIMARY " + "KEY", [Word("ADD")] + [Word("PRIMARY")] + [Word("KEY")];
    ReadsOn(a + b + c, start, s, d, " (", [Symbol('(')]);
    ReadsOn(a + b + c + d, start + " (", s + [Symbol('(')], e, text, lexemes);
    ReadsOn(a + b + c + d + e, start + " (" + text, s + [Symbol('(')] + lexemes, [Mark(')')], ")", [Symbol(')')]);
    pieces := a + b + c + d + e + [Mark(')')];
    assert start + " (" == "ADD PRIMARY KEY (";
    assert s + [Symbol('(')] == [Word("ADD"), Word("PRIMARY"), Word("KEY"), Symbol('(')];
  }

  lemma NamedClauseReads(
    start: seq<Piece>, s: string, x: seq<Lexeme>, rest: seq<Piece>, t: string, y: seq<Lexeme>)
    returns (pieces: seq<Piece>)
    requires Reads(start, s, x) && Reads(rest, t, y) && start != [] && start[|start| - 1].Blank? && start[0].Keyword?
    requires EndsPart(rest)
    ensures Reads(pieces, s + t, x + y) && EndsPart(pieces) && pieces[0].Keyword?
  {
    hide Reads;
    ReadsOn(start, s, x, rest, t, y);
    pieces := start + rest;
  }

  lemma ClauseReads(f: FormedClause) returns (pieces: seq<Piece>)
    requires FineClause(f)
    ensures Reads(pieces, ClauseText(f.clause), ClauseLexemes(f))
    ensures EndsPart(pieces) && pieces[0].Keyword?
  {
    ColumnClauseOpens();
    hide Reads, DefinitionText, DefinitionLexemes, DefinitionFrom, FineFormed, QuoteIdentifier, Join, QuotedNames,
      NameLexemes;
    match f.clause
    case DropColumn(name) =>
      ReadsOne(Quoted(name));
      pieces := NamedClauseReads([Keyword("DROP"), Blank(' '), Keyword("COLUMN"), Blank(' ')], "DROP COLUMN ",
        [Word("DROP"), Word("COLUMN")], [Quoted(name)], QuoteIdentifier(name), [Name(name)]);
      assert [Word("DROP"), Word("COLUMN")] + [Name(name)] == ClauseLexemes(f);
    case ModifyColumn(name, d) =>
      var rest := DefinitionReads(name, f.formed.value);
      pieces := NamedClauseReads([Keyword("MODIFY"), Blank(' '), Keyword("COLUMN"), Blank(' ')], "MODIFY COLUMN ",
        [Word("MODIFY"), Word("COLUMN")],
        rest, DefinitionText(name, d), [Name(name)] + DefinitionLexemes(f.formed.value));
      assert [Word("MODIFY"), Word("COLUMN")] + ([Name(name)] + DefinitionLexemes(f.formed.value)) == ClauseLexemes(f);
    case AddColumn(name, d) =>
      var rest := DefinitionReads(name, f.formed.value);
      pieces := NamedClauseReads([Keyword("ADD"), Blank(' '), Keyword("COLUMN"), Blank(' ')], "ADD COLUMN ",
        [Word("ADD"), Word("COLUMN")], rest, DefinitionText(name, d), [Name(name)] + DefinitionLexemes(f.formed.value));
      assert [Word("ADD"), Word("COLUMN")] + ([Name(name)] + DefinitionLexemes(f.formed.value)) == ClauseLexemes(f);
    case DropPrimaryKey => pieces := DropKeyReads();
    case AddPrimaryKey(names) => pieces := AddKeyReads(names);
  }

  lemma {:induction false} ClausesRead(clauses: seq<FormedClause>) returns (pieces: seq<Piece>)
    requires clauses != [] && forall f <- clauses :: FineClause(f)
    ensures Reads(pieces, Join(ClauseTexts(Plain(clauses)), ", "), ClausesLexemes(clauses))
    ensures EndsPart(pieces) && pieces[0].Keyword?
  {
    hide Reads, ClauseText, FineClause, ClauseLexemes, ClauseTexts, Join;
    var first := clauses[0];
    var text := ClauseText(first.clause);
    pieces := ClauseReads(first);
    FirstTexts(clauses);
    if |clauses| > 1 {
      var rest := ClausesRead(clauses[1..]);
      CommaReads();
      var comma := [Mark(','), Blank(' ')];
      ReadsOn(pieces, text, ClauseLexemes(first), comma, ", ", [Symbol(',')]);
      ReadsOn(pieces + comma, text + ", ", ClauseLexemes(first) + [Symbol(',')],
        rest, Join(ClauseTexts(Plain(clauses[1..])), ", "), ClausesLexemes(clauses[1..]));
      pieces := pieces + comma + rest;
    }
  }

  lemma {:induction false} TextsAt(clauses: seq<Clause>)
    ensures |ClauseTexts(clauses)| == |clauses|
    ensures forall i :: 0 <= i < |clauses| ==> ClauseTexts(clauses)[i] == ClauseText(clauses[i])
  {
    hide ClauseText;
    if clauses != [] { TextsAt(clauses[..|clauses| - 1]); }
  }

  lemma JoinFirst(texts: seq<string>)
    requires texts != []
    ensures Join(texts, ", ") == if |texts| == 1 then texts[0] else texts[0] + ", " + Join(texts[1..], ", ")
  {
  }

  lemma TextsOfRest(clauses: seq<FormedClause>)
    requires clauses != []
    ensures var texts := ClauseTexts(Plain(clauses));
      && |texts| == |clauses| && texts[0] == ClauseText(clauses[0].clause)
      && texts[1..] == ClauseTexts(Plain(clauses[1..]))
  {
    TextsAt(Plain(clauses));
    TextsAt(Plain(clauses[1..]));
    hide ClauseTexts, ClauseText;
  }

  lemma FirstTexts(clauses: seq<FormedClause>)
    requires clauses != []
    ensures Join(ClauseTexts(Plain(clauses)), ", ")
         == if |clauses| == 1 then ClauseText(clauses[0].clause)
            else ClauseText(clauses[0].clause) + ", " + Join(ClauseTexts(Plain(clauses[1..])), ", ")
  {
    hide *;
    TextsOfRest(clauses);
    JoinFirst(ClauseTexts(Plain(clauses)));
  }

  lemma AlterOpens()
    ensures Reads([Keyword("ALTER"), Blank(' '), Keyword("TABLE"), Blank(' ')], "ALTER TABLE ",
              [Word("ALTER"), Word("TABLE")])
  {
    AlterWords();
    hide Reads;
    ReadsOn([Keyword("ALTER"), Blank(' ')], "ALTER ", [Word("ALTER")],
      [Keyword("TABLE"), Blank(' ')], "TABLE ", [Word("TABLE")]);
    assert [Keyword("ALTER"), Blank(' ')] + [Keyword("TABLE"), Blank(' ')]
        == [Keyword("ALTER"), Blank(' '), Keyword("TABLE"), Blank(' ')];
    assert "ALTER " + "TABLE " == "ALTER TABLE ";
    assert [Word("ALTER")] + [Word("TABLE")] == [Word("ALTER"), Word("TABLE")];
  }

  lemma AlterWords()
    ensures Reads([Keyword("ALTER"), Blank(' ')], "ALTER ", [Word("ALTER")])
    ensures Reads([Keyword("TABLE"), Blank(' ')], "TABLE ", [Word("TABLE")])
  {
  }

  lemma AlterParses(database: string, table: string, clauses: seq<FormedClause>)
    requires clauses != [] && forall f <- clauses :: FineClause(f)
    ensures ParseAlter(
              [Word("ALTER"), Word("TABLE")] + [Name(database), Symbol('.'), Name(table)] + ClausesLexemes(clauses))
         == Some(Alter(database, table, Plain(clauses)))
  {
    hide ClausesLexemes, ParseClauses, FineClause;
    ClausesParse(clauses);
    var s := [Word("ALTER"), Word("TABLE")] + [Name(database), Symbol('.'), Name(table)] + ClausesLexemes(clauses);
    assert s[5..] == ClausesLexemes(clauses);
  }

  lemma {:induction false} FormedFrom(clauses: seq<Clause>) returns (formed: seq<FormedClause>)
    requires forall c <- clauses :: ReadableClause(c)
    ensures Plain(formed) == clauses && forall f <- formed :: FineClause(f)
  {
    hide Readable, FineFormed, DefinitionFrom;
    if clauses == [] {
      formed := [];
    } else {
      var c := clauses[0];
      assert forall d <- clauses[1..] :: d in clauses;
      assert ReadableClause(c);
      var more := FormedFrom(clauses[1..]);
      var first := FormedClause(c, None);
      if c.ModifyColumn? || c.AddColumn? {
        var f := ReadableIsFormed(c.definition);
        first := FormedClause(c, Some(f));
      }
      formed := [first] + more;
      assert formed[1..] == more;
      assert FineClause(first);
    }
  }

  /**
   * The text of the statement parses back to its clauses: every name, type, NOT NULL, default, automatic mark and
   * comment stands where the clause has it, whatever names, text defaults and comments hold.
   */
  lemma AlterTextParsesBack(database: string, table: string, clauses: seq<Clause>)
    requires clauses != [] && forall c <- clauses :: ReadableClause(c)
    ensures var lexemes := Lex(AlterText(database, table, clauses));
      lexemes.Some? && ParseAlter(lexemes.value) == Some(Alter(database, table, clauses))
  {
    hide Reads, ClauseTexts, Join, TableText, ParseAlter, FineClause, ClausesLexemes, Lex, ReadableClause;
    var formed := FormedFrom(clauses);
    var a := [Keyword("ALTER"), Blank(' '), Keyword("TABLE"), Blank(' ')];
    AlterOpens();
    var b := TableReads(database, table);
    ReadsOne(Blank(' '));
    var c := ClausesRead(formed);
    var s, t := TableText(database, table), Join(ClauseTexts(clauses), ", ");
    var x, y := [Name(database), Symbol('.'), Name(table)], ClausesLexemes(formed);
    ReadsOn(a, "ALTER TABLE ", [Word("ALTER"), Word("TABLE")], b, s, x);
    ReadsOn(a + b, "ALTER TABLE " + s, [Word("ALTER"), Word("TABLE")] + x, [Blank(' ')], " ", []);
    var head := [Word("ALTER"), Word("TABLE")] + x;
    assert head + [] == head;
    ReadsOn(a + b + [Blank(' ')], "ALTER TABLE " + s + " ", head, c, t, y);
    ReadsBack(a + b + [Blank(' ')] + c, AlterText(database, table, clauses), head + y);
    AlterParses(database, table, formed);
  }

  // ---- What the designer emits ----

  function WithoutMinus(s: string): string { if s != "" && s[0] == '-' then s[1..] else s }

  /** The default is quoted, a keyword, or an unsigned number after an optional minus. */
  predicate PlainDefault(data_type: string, value: string) {
    data_type in NumericTypes && IsFloatText(Trim(value)) ==> IsNumberText(WithoutMinus(Trim(value)))
  }

  /** The words between single spaces. */
  function Words(s: string): (words: seq<string>)
    ensures words != []
    decreases |s|
  {
    var space := IndexOfChar(s, ' ');
    if space == |s| then [s] else [s[..space]] + Words(s[space + 1..])
  }

  lemma {:induction false} WordsJoin(s: string)
    ensures Join(Words(s), " ") == s
    ensures forall word <- Words(s), c <- word :: c in s
    decreases |s|
  {
    var space := IndexOfChar(s, ' ');
    if space < |s| {
      var rest := Words(s[space + 1..]);
      WordsJoin(s[space + 1..]);
      hide Join, IndexOfChar, Words;
      WordsOfRest(s, space);
      JoinTwo(s[..space], rest);
      assert s == s[..space] + " " + s[space + 1..];
      forall word, c | word in Words(s) && c in word
        ensures c in s
      {
        if word != s[..space] { assert word in rest && c in s[space + 1..]; }
      }
    }
  }

  lemma WordsOfRest(s: string, space: nat)
    requires space == IndexOfChar(s, ' ') && space < |s|
    ensures Words(s) == [s[..space]] + Words(s[space + 1..])
  {
    hide IndexOfChar;
  }

  lemma JoinTwo(first: string, rest: seq<string>)
    requires rest != []
    ensures Join([first] + rest, " ") == first + " " + Join(rest, " ")
  {
    assert ([first] + rest)[1..] == rest;
  }

  lemma {:induction false} LowerHasNoCapital(s: string, c: char)
    requires 'A' <= c <= 'Z'
    ensures c !in Lower(s)
  {
    if s != "" { LowerHasNoCapital(s[1..], c); }
  }

  /** The type is plain words with single spaces, with whatever length and scale, and the default is plain. */
  predicate PlainColumn(column: Column) {
    && (forall word <- Words(Lower(Trim(column.data_type))) :: IsKeyword(word))
    && (column.default_value.Some? ==> PlainDefault(column.data_type, column.default_value.value))
  }

  lemma PlainWordsAreFine(data_type: string)
    requires forall word <- Words(Lower(Trim(data_type))) :: IsKeyword(word)
    ensures FineWords(Words(Lower(Trim(data_type))))
  {
    var text := Lower(Trim(data_type));
    LowerHasNoCapital(Trim(data_type), 'N');
    WordsJoin(text);
    hide Lower, Trim, IsKeyword;
    forall word | word in Words(text)
      ensures word != "NOT" && word != "NULL"
    {
      assert 'N' !in word;
      assert "NOT"[0] == 'N' && "NULL"[0] == 'N';
    }
  }

  lemma PlainIsReadable(column: Column)
    requires PlainColumn(column)
    ensures Readable(DefinitionOf(column))
  {
    if column.default_value.Some? { PlainDefaultsExactly(column.data_type, column.default_value.value); }
    PlainWordsAreFine(column.data_type);
    var words := Words(Lower(Trim(column.data_type)));
    WordsJoin(Lower(Trim(column.data_type)));
    hide Trim, Lower, Decimal, RenderDefault, DefaultFormText, FineDefault, PlainDefault, Join, Words, FineWords;
    var args: seq<nat> := if column.length.Some? && column.scale.Some? then [column.length.value, column.scale.value]
                          else if column.length.Some? then [column.length.value] else [];
    assert FineType(TypeForm(words, args));
    TypeIsFormed(column, args);
    hide TypeText, TypeFormText;
  }

  lemma TypeIsFormed(column: Column, args: seq<nat>)
    requires args == if column.length.Some? && column.scale.Some? then [column.length.value, column.scale.value]
                     else if column.length.Some? then [column.length.value] else []
    requires Join(Words(Lower(Trim(column.data_type))), " ") == Lower(Trim(column.data_type))
    ensures TypeText(column) == TypeFormText(TypeForm(Words(Lower(Trim(column.data_type))), args))
  {
    hide Trim, Lower, Decimal, Join, Words;
    var base := Lower(Trim(column.data_type));
    if column.length.Some? && column.scale.Some? {
      FlatText(base, Decimal(column.length.value), Decimal(column.scale.value));
    } else if column.length.Some? {
      assert base + "(" + Decimal(column.length.value) + ")" == base + ("(" + Decimal(column.length.value) + ")");
    } else {
      assert base + "" == base;
    }
  }

  lemma FlatText(base: string, a: string, b: string)
    ensures base + "(" + a + "," + b + ")" == base + ("(" + a + "," + b + ")")
  {
  }

  /** A number starts with a sign, a digit or a point, or is one of three words. */
  lemma NumberStarts(s: string)
    ensures IsFloatText(s) && s != "" ==>
      s[0] in {'+', '-', '.'} || IsDigit(s[0]) || Upper(s) in {"INF", "INFINITY", "NAN"}
  {
    hide AllDigits;
    if IsFloatText(s) && s != "" && s[0] != '+' && s[0] != '-' && Upper(s) !in {"INF", "INFINITY", "NAN"} {
      var mantissa := s[..ExponentMark(s)];
      assert mantissa != "";
      assert mantissa[0] == s[0];
    }
  }

  /** No keyword and no quoted text is a number for the designer. */
  lemma FormsThatAreNumbers(v: DefaultForm)
    requires FineDefault(v) && IsFloatText(DefaultFormText(v))
    ensures v.NumberDefault?
  {
    hide IsFloatText, Upper;
    NumberStarts(DefaultFormText(v));
  }

  /**
   * A default is written as a keyword, as quoted text or as an unsigned number after an optional minus exactly when it
   * is plain: when it is no number of a numeric type, or a number of this shape (unlike "+5", ".5" or "inf").
   */
  lemma PlainDefaultsExactly(data_type: string, value: string)
    ensures (exists v :: FineDefault(v) && RenderDefault(data_type, value) == DefaultFormText(v))
       <==> PlainDefault(data_type, value)
  {
    var raw := Trim(value);
    hide Trim;
    var upper := Upper(raw);
    KeywordsAreNoNumbers(raw);
    hide Upper, IsFloatText, QuoteLiteral, IsNumberText;
    if data_type in NumericTypes && IsFloatText(raw) {
      assert RenderDefault(data_type, value) == raw;
      if IsNumberText(WithoutMinus(raw)) {
        var v := NumberDefault(raw != WithoutMinus(raw), WithoutMinus(raw));
        assert FineDefault(v) && raw == DefaultFormText(v);
      }
      forall v | FineDefault(v) && raw == DefaultFormText(v)
        ensures IsNumberText(WithoutMinus(raw))
      {
        FormsThatAreNumbers(v);
        NumberStart(v.digits);
        assert WithoutMinus(raw) == v.digits;
      }
    } else {
      var v := if upper == "NULL" then NullDefault
               else if upper == "CURRENT_TIMESTAMP" then TimestampDefault(false)
               else if upper == "CURRENT_TIMESTAMP()" then TimestampDefault(true)
               else TextDefault(raw);
      assert FineDefault(v) && RenderDefault(data_type, value) == DefaultFormText(v);
    }
  }

  lemma NumberStart(digits: string)
    requires IsNumberText(digits)
    ensures digits != "" && digits[0] != '-'
  {
  }

  lemma KeywordsAreNoNumbers(raw: string)
    ensures Upper(raw) in {"NULL", "CURRENT_TIMESTAMP", "CURRENT_TIMESTAMP()"} ==> !IsFloatText(raw)
  {
    hide IsFloatText, Upper;
    NumberStarts(raw);
  }

  lemma {:induction false} DropsAreReadable(columns: seq<Column>, kept: set<string>)
    ensures forall c <- Drops(columns, kept) :: ReadableClause(c)
  {
    hide Readable;
    if columns != [] { DropsAreReadable(columns[..|columns| - 1], kept); }
  }

  lemma {:induction false} ChangesAreReadable(current: map<string, Column>, draft: seq<Column>)
    requires forall d <- draft :: Readable(DefinitionOf(d))
    ensures forall c <- Changes(current, draft) :: ReadableClause(c)
  {
    hide Readable, DefinitionOf, Trim, Changed;
    if draft != [] {
      ChangesAreReadable(current, draft[..|draft| - 1]);
      assert draft[|draft| - 1] in draft;
    }
  }

  /** What the designer emits for plain columns is read by the server as the clauses that reach the draft. */
  lemma EmittedIsRead(database: string, table: string, current: seq<Column>, draft: seq<Column>)
    requires forall d <- draft :: PlainColumn(d)
    requires AlterClauses(current, draft) != []
    ensures var lexemes := Lex(AlterText(database, table, AlterClauses(current, draft)));
      lexemes.Some? && ParseAlter(lexemes.value) == Some(Alter(database, table, AlterClauses(current, draft)))
  {
    forall d | d in draft
      ensures Readable(DefinitionOf(d))
    {
      PlainIsReadable(d);
    }
    hide PlainColumn, Readable, DefinitionOf, ByName, KeyOf, Lex, ParseAlter, AlterText;
    DropsAreReadable(current, Names(draft));
    ChangesAreReadable(ByName(current), draft);
    AlterTextParsesBack(database, table, AlterClauses(current, draft));
  }
}
