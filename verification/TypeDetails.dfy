/** Reading a column's type, length and scale from the server's type text, and the text they are written back in. */
module TypeDetails {
  import opened SchemaDiff
  import opened Text

  const U32Limit: nat := 0x1_0000_0000

  /** Rust's `parse::<u32>`: an optional plus sign, at least one digit, and a value that fits. */
  function ParseU32(s: string): Option<nat> {
    var digits := if s != "" && s[0] == '+' then s[1..] else s;
    if digits != "" && AllDigits(digits) && ValueOf(digits) < U32Limit then Some(ValueOf(digits)) else None
  }

  datatype Details = Details(data_type: string, length: Option<nat>, scale: Option<nat>)

  predicate EndsTypeName(c: char) { c == '(' || IsUnicodeSpace(c) }

  function TypeName(s: string): (name: string)
    ensures name <= s && forall c <- name :: !EndsTypeName(c)
    ensures |name| < |s| ==> EndsTypeName(s[|name|])
  {
    if s == "" || EndsTypeName(s[0]) then "" else [s[0]] + TypeName(s[1..])
  }

  /** The parts between commas. */
  function Parts(s: string): (parts: seq<string>)
    ensures parts != []
    decreases |s|
  {
    var comma := IndexOfChar(s, ',');
    if comma == |s| then [s] else [s[..comma]] + Parts(s[comma + 1..])
  }

  function Numbers(parts: seq<string>): seq<Option<nat>> {
    if parts == [] then [] else [ParseU32(Trim(parts[0]))] + Numbers(parts[1..])
  }

  /** What stands in the first parentheses. */
  function Inner(s: string): Option<string> {
    var open := IndexOfChar(s, '(');
    if open == |s| then None
    else
      var after := s[open + 1..];
      var close := IndexOfChar(after, ')');
      if close == |after| then None else Some(after[..close])
  }

  function ParseTypeDetails(column_type: string): Details { DetailsOf(Lower(Trim(column_type))) }

  function DetailsOf(lower: string): Details {
    WithNumbers(TypeName(lower), match Inner(lower) case None => [] case Some(inner) => Numbers(Parts(inner)))
  }

  /** One number is the length, two are length and scale; anything else is ignored. */
  function WithNumbers(name: string, numbers: seq<Option<nat>>): Details {
    if |numbers| == 1 && numbers[0].Some? then Details(name, numbers[0], None)
    else if |numbers| == 2 && numbers[0].Some? && numbers[1].Some? then Details(name, numbers[0], numbers[1])
    else Details(name, None, None)
  }

  // ---- Writing and reading back ----

  /** What is written after the name of the type. */
  function ArgsText(length: Option<nat>, scale: Option<nat>): string {
    if length.Some? && scale.Some? then "(" + Decimal(length.value) + "," + Decimal(scale.value) + ")"
    else if length.Some? then "(" + Decimal(length.value) + ")"
    else ""
  }

  predicate TypeWidths(column: Column) {
    (column.length.Some? ==> column.length.value < U32Limit) && (column.scale.Some? ==> column.scale.value < U32Limit)
  }

  lemma {:induction false} LowerParts(a: string, b: string)
    ensures Lower(a + b) == Lower(a) + Lower(b)
  {
    if a == "" {
      assert a + b == b;
    } else {
      assert (a + b)[1..] == a[1..] + b;
      LowerParts(a[1..], b);
    }
  }

  lemma {:induction false} LowerAt(s: string)
    ensures |Lower(s)| == |s| && forall i :: 0 <= i < |s| ==> Lower(s)[i] == LowerChar(s[i])
  {
    if s != "" { LowerAt(s[1..]); }
  }

  lemma LowerStays(s: string)
    requires forall i :: 0 <= i < |s| ==> LowerChar(s[i]) == s[i]
    ensures Lower(s) == s
  {
    LowerAt(s);
  }

  lemma LowerTwice(s: string)
    ensures Lower(Lower(s)) == Lower(s)
  {
    LowerAt(s);
    LowerStays(Lower(s));
  }

  predicate Trimmed(s: string) { s != "" ==> !IsUnicodeSpace(s[0]) && !IsUnicodeSpace(s[|s| - 1]) }

  lemma TrimmedStays(s: string)
    requires Trimmed(s)
    ensures Trim(s) == s
  {
  }

  lemma TrimTrims(s: string)
    ensures Trimmed(Trim(s)) && Trimmed(Lower(Trim(s)))
  {
    TrimStartDone(s);
    TrimEndDone(TrimStart(s, UnicodeSpaces));
    LowerAt(Trim(s));
    hide TrimStart, TrimEnd, Lower;
  }

  lemma DecimalIsPlain(n: nat)
    ensures var s := Decimal(n);
      Trimmed(s) && ',' !in s && ')' !in s && '(' !in s && Lower(s) == s && (n < U32Limit ==> ParseU32(s) == Some(n))
  {
    var s := Decimal(n);
    DecimalValue(n);
    hide Decimal, ValueOf;
    assert s[0] in s && s[|s| - 1] in s;
    forall i | 0 <= i < |s|
      ensures LowerChar(s[i]) == s[i]
    {
      assert s[i] in s;
    }
    LowerStays(s);
  }

  lemma NoCommaOnePart(s: string)
    requires ',' !in s
    ensures Parts(s) == [s]
  {
    IndexOfNone(s, ',');
  }

  lemma OneNumber(n: nat)
    requires n < U32Limit
    ensures Parts(Decimal(n)) == [Decimal(n)] && Numbers([Decimal(n)]) == [Some(n)]
  {
    DecimalIsPlain(n);
    TrimmedStays(Decimal(n));
    hide ParseU32, Trim, Decimal;
    NoCommaOnePart(Decimal(n));
    hide Parts;
  }

  lemma TwoParts(a: string, b: string)
    requires ',' !in a && ',' !in b
    ensures Parts(a + ("," + b)) == [a, b]
  {
    var inner := a + ("," + b);
    assert inner == a + [','] + b;
    IndexOfMark(a, ',', b);
    NoCommaOnePart(b);
    assert inner[..|a|] == a && inner[|a| + 1..] == b;
    hide IndexOfChar;
  }

  lemma NumbersStep(first: string, rest: seq<string>)
    ensures Numbers([first] + rest) == Numbers([first]) + Numbers(rest)
  {
    hide ParseU32, Trim;
    assert ([first] + rest)[1..] == rest && [first][1..] == [];
  }

  lemma ArgsAreRead(length: nat, scale: Option<nat>)
    requires length < U32Limit && (scale.Some? ==> scale.value < U32Limit)
    ensures var inner := Decimal(length) + if scale.Some? then "," + Decimal(scale.value) else "";
      && ')' !in inner
      && Numbers(Parts(inner)) == if scale.Some? then [Some(length), scale] else [Some(length)]
  {
    hide Decimal, Numbers, Parts, ParseU32, Lower, Trim;
    DecimalIsPlain(length);
    OneNumber(length);
    if scale.Some? {
      var a, b := Decimal(length), Decimal(scale.value);
      DecimalIsPlain(scale.value);
      OneNumber(scale.value);
      TwoParts(a, b);
      NumbersStep(a, [b]);
      assert [a] + [b] == [a, b];
    } else {
      assert Decimal(length) + "" == Decimal(length);
    }
  }

  lemma InnerOf(name: string, inner: string)
    requires '(' !in name && ')' !in inner
    ensures Inner(name + ("(" + inner + ")")) == Some(inner)
  {
    var s := name + ("(" + inner + ")");
    assert s == name + ['('] + (inner + ")");
    IndexOfMark(name, '(', inner + ")");
    assert s[|name| + 1..] == inner + ")";
    assert inner + ")" == inner + [')'] + "";
    IndexOfMark(inner, ')', "");
  }

  lemma {:induction false} TypeNameOf(name: string, args: string)
    requires args == "" || args[0] == '('
    ensures TypeName(name + args) == TypeName(name)
  {
    if name == "" {
      assert name + args == args;
    } else {
      assert (name + args)[1..] == name[1..] + args;
      if !EndsTypeName(name[0]) { TypeNameOf(name[1..], args); }
    }
  }

  lemma ArgsAreLower(length: Option<nat>, scale: Option<nat>)
    ensures Lower(ArgsText(length, scale)) == ArgsText(length, scale)
  {
    var args := ArgsText(length, scale);
    forall i | 0 <= i < |args|
      ensures LowerChar(args[i]) == args[i]
    {
      hide Lower;
      if length.Some? { assert forall c <- Decimal(length.value) :: IsDigit(c); }
      if scale.Some? { assert forall c <- Decimal(scale.value) :: IsDigit(c); }
      hide Decimal;
      assert args[i] in args;
    }
    LowerStays(args);
  }

  lemma TextIsNormal(column: Column)
    ensures var name, args := Lower(Trim(column.data_type)), ArgsText(column.length, column.scale);
      TypeText(column) == name + args && Lower(Trim(name + args)) == name + args
  {
    var name, args := Lower(Trim(column.data_type)), ArgsText(column.length, column.scale);
    TrimTrims(column.data_type);
    LowerTwice(Trim(column.data_type));
    ArgsAreLower(column.length, column.scale);
    LowerParts(name, args);
    hide Lower, Trim, Decimal;
    assert Trimmed(name + args);
    TrimmedStays(name + args);
  }

  lemma ArgsAreInner(length: nat, scale: Option<nat>)
    ensures var inner := Decimal(length) + if scale.Some? then "," + Decimal(scale.value) else "";
      ArgsText(Some(length), scale) == "(" + inner + ")"
  {
    hide Decimal;
    if scale.Some? {
      assert "(" + Decimal(length) + "," + Decimal(scale.value) + ")"
          == "(" + (Decimal(length) + ("," + Decimal(scale.value))) + ")";
    } else {
      assert Decimal(length) + "" == Decimal(length);
    }
  }

  lemma LengthWritten(name: string, length: nat, scale: Option<nat>)
    requires '(' !in name && length < U32Limit && (scale.Some? ==> scale.value < U32Limit)
    ensures Inner(name + ArgsText(Some(length), scale)).Some?
    ensures Numbers(Parts(Inner(name + ArgsText(Some(length), scale)).value))
         == if scale.Some? then [Some(length), scale] else [Some(length)]
  {
    hide Numbers, Parts, Inner, Decimal, ArgsText;
    var inner := Decimal(length) + if scale.Some? then "," + Decimal(scale.value) else "";
    ArgsAreRead(length, scale);
    InnerOf(name, inner);
    ArgsAreInner(length, scale);
  }

  lemma DetailsWritten(name: string, length: Option<nat>, scale: Option<nat>)
    requires '(' !in name && (length.Some? ==> length.value < U32Limit) && (scale.Some? ==> scale.value < U32Limit)
    ensures DetailsOf(name + ArgsText(length, scale))
         == Details(TypeName(name), length, if length.Some? then scale else None)
  {
    hide TypeName, Numbers, Parts, Inner, Decimal, ArgsText;
    ArgsStart(length, scale);
    TypeNameOf(name, ArgsText(length, scale));
    if length.Some? {
      LengthWritten(name, length.value, scale);
    } else {
      assert name + "" == name;
      NothingInside(name);
    }
  }

  lemma ArgsStart(length: Option<nat>, scale: Option<nat>)
    ensures var args := ArgsText(length, scale);
      (args == "" || args[0] == '(') && (length.None? <==> args == "")
  {
    hide Decimal;
  }

  lemma NothingInside(s: string)
    requires '(' !in s
    ensures Inner(s) == None
  {
    IndexOfNone(s, '(');
  }

  /** A name that ends only where the text does. */
  predicate OneName(name: string) { forall c <- name :: !EndsTypeName(c) }

  lemma TypeNameFits(name: string)
    ensures TypeName(name) == name <==> OneName(name)
    ensures OneName(name) ==> '(' !in name
  {
    if TypeName(name) != name {
      assert name[|TypeName(name)|] in name && EndsTypeName(name[|TypeName(name)|]);
    }
  }

  lemma DetailsHaveTheName(lower: string)
    ensures DetailsOf(lower).data_type == TypeName(lower)
  {
    hide TypeName, Numbers, Inner;
  }

  lemma DetailsExactly(name: string, length: Option<nat>, scale: Option<nat>)
    requires (length.Some? ==> length.value < U32Limit) && (scale.Some? ==> scale.value < U32Limit)
    ensures DetailsOf(name + ArgsText(length, scale)) == Details(name, length, scale)
       <==> OneName(name) && (scale.Some? ==> length.Some?)
  {
    hide *;
    TypeNameFits(name);
    ArgsStart(length, scale);
    TypeNameOf(name, ArgsText(length, scale));
    DetailsHaveTheName(name + ArgsText(length, scale));
    if OneName(name) {
      DetailsWritten(name, length, scale);
    }
  }

  /**
   * What the designer writes for a type is read back as its name, length and scale exactly when the name is one word
   * without a parenthesis and no scale goes without a length.
   */
  lemma TypeDetailsReadBack(column: Column)
    requires TypeWidths(column)
    ensures var name := Lower(Trim(column.data_type));
      ParseTypeDetails(TypeText(column)) == Details(name, column.length, column.scale)
      <==> OneName(name) && (column.scale.Some? ==> column.length.Some?)
  {
    hide TypeText, Lower, Trim, DetailsOf, ArgsText, OneName;
    TextIsNormal(column);
    DetailsExactly(Lower(Trim(column.data_type)), column.length, column.scale);
  }
}
