/** The `Range` header of a resumed download, and what the serving side answers. */
module RangeHeader {
  import opened Text

  const U64Limit: nat := 0x1_0000_0000_0000_0000

  /** Rust's `parse::<u64>`: an optional plus sign, at least one digit, and a value that fits. */
  function ParseU64(s: string): Result<nat> {
    var digits := if s != "" && s[0] == '+' then s[1..] else s;
    if digits == "" || !AllDigits(digits) then Err("invalid digit")
    else if ValueOf(digits) >= U64Limit then Err("out of range")
    else Ok(ValueOf(digits))
  }

  lemma DecimalParses(n: nat)
    ensures ParseU64(Decimal(n)) == if n < U64Limit then Ok(n) else Err("out of range")
  {
    DecimalValue(n);
    assert Decimal(n)[0] in Decimal(n);
  }

  const BytesEquals := "bytes="

  datatype StatusCode = Full | PartialContent

  datatype Served = Served(start: nat, status: StatusCode)

  function ParseRangeHeader(header: Option<string>, file_size: nat): Result<Served> {
    if header.None? then Ok(Served(0, Full))
    else
      var raw := header.value;
      var rest := if BytesEquals <= raw then raw[|BytesEquals|..] else "";
      if !(BytesEquals <= raw) || rest == "" || rest[|rest| - 1] != '-' then Ok(Served(0, Full))
      else
        var start :- ParseU64(rest[..|rest| - 1]);
        if start < file_size then Ok(Served(start, PartialContent)) else Err("out of range")
  }

  /** The header a download sends: none at the beginning of the file. */
  function RequestHeader(offset: nat): Option<string> {
    if offset > 0 then Some(BytesEquals + Decimal(offset) + "-") else None
  }

  datatype Reply = Reply(status: StatusCode, content_length: string, content_range: Option<string>)

  function ReplyHeaders(served: Served, file_size: nat): Reply
    requires served.start <= file_size
  {
    Reply(served.status, Decimal(file_size - served.start),
      if served.status == PartialContent then
        var last := if file_size > 0 then file_size - 1 else 0;
        Some("bytes " + Decimal(served.start) + "-" + Decimal(last) + "/" + Decimal(file_size))
      else None)
  }

  /** What section 14.4 of RFC 9110 lets a recipient read from a Content-Range field. */
  datatype ContentRange = ContentRange(first: nat, last: nat, complete: nat)

  function ReadNumber(s: string): Option<nat> {
    if s != "" && AllDigits(s) then Some(ValueOf(s)) else None
  }

  function ParseContentRange(field: string): Option<ContentRange> {
    if !("bytes " <= field) then None
    else
      var rest := field[6..];
      var dash, slash := IndexOfChar(rest, '-'), IndexOfChar(rest, '/');
      if !(dash < slash < |rest|) then None
      else
        var first, last, complete :=
          ReadNumber(rest[..dash]), ReadNumber(rest[dash + 1..slash]), ReadNumber(rest[slash + 1..]);
        if first.Some? && last.Some? && complete.Some? then
          Some(ContentRange(first.value, last.value, complete.value))
        else None
  }

  lemma Cut(a: string, mark: char, b: string)
    requires mark !in a
    ensures IndexOfChar(a + [mark] + b, mark) == |a|
    ensures (a + [mark] + b)[..|a|] == a && (a + [mark] + b)[|a| + 1..] == b
  {
    IndexOfMark(a, mark, b);
  }

  /** A Content-Range field is cut at its two marks whatever digits stand around them. */
  lemma ContentRangeFields(a: string, b: string, c: string)
    requires AllDigits(a) && AllDigits(b) && AllDigits(c) && a != "" && b != "" && c != ""
    ensures ParseContentRange("bytes " + a + "-" + b + "/" + c)
      == Some(ContentRange(ValueOf(a), ValueOf(b), ValueOf(c)))
  {
    hide IndexOfChar, ValueOf;
    var rest := a + "-" + b + "/" + c;
    assert ("bytes " + a + "-" + b + "/" + c)[6..] == rest;
    var front := a + "-" + b;
    Cut(a, '-', b + "/" + c);
    assert rest == a + ['-'] + (b + "/" + c);
    Cut(front, '/', c);
    assert rest == front + ['/'] + c;
    assert rest[|a| + 1..|front|] == front[|a| + 1..] == b;
  }

  lemma ContentRangeParses(first: nat, last: nat, complete: nat)
    ensures ParseContentRange("bytes " + Decimal(first) + "-" + Decimal(last) + "/" + Decimal(complete))
      == Some(ContentRange(first, last, complete))
  {
    ContentRangeFields(Decimal(first), Decimal(last), Decimal(complete));
    DecimalValue(first);
    DecimalValue(last);
    DecimalValue(complete);
  }

  /**
   * A resumed download is served exactly when something is left to send: offset 0 always, any other offset
   * below the size only, and only if it is a number of 64 bits. The body then starts at the offset asked for.
   */
  lemma OffsetIsServed(offset: nat, file_size: nat)
    ensures
      var served := ParseRangeHeader(RequestHeader(offset), file_size);
      && (served.Ok? <==> offset == 0 || (offset < file_size && offset < U64Limit))
      && (served.Ok? ==> served.value == Served(offset, if offset == 0 then Full else PartialContent))
  {
    if offset > 0 {
      DecimalParses(offset);
      hide ParseU64;
      var raw := BytesEquals + Decimal(offset) + "-";
      assert raw[|BytesEquals|..] == Decimal(offset) + "-";
      assert (Decimal(offset) + "-")[..|Decimal(offset)|] == Decimal(offset);
    }
  }

  /**
   * A partial reply describes its body: the range starts at the offset, ends with the file, and its length is
   * the Content-Length (sections 8.6, 14.4 and 15.3.7 of RFC 9110).
   */
  lemma PartialReplyMatches(offset: nat, file_size: nat)
    requires 0 < offset < file_size && offset < U64Limit
    ensures
      var served := ParseRangeHeader(RequestHeader(offset), file_size);
      served.Ok? && served.value.start <= file_size &&
      var reply := ReplyHeaders(served.value, file_size);
      && reply.status == PartialContent
      && reply.content_range.Some?
      && ParseContentRange(reply.content_range.value) == Some(ContentRange(offset, file_size - 1, file_size))
      && ReadNumber(reply.content_length) == Some((file_size - 1) - offset + 1)
  {
    hide ParseRangeHeader, RequestHeader, ParseContentRange, ValueOf, Decimal;
    OffsetIsServed(offset, file_size);
    ContentRangeParses(offset, file_size - 1, file_size);
    DecimalValue(file_size - offset);
  }
}
