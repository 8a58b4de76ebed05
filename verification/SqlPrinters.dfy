/** How identifiers and string literals are written into MySQL statements. */
module SqlPrinters {
  import opened Text

  function QuoteIdentifier(s: string): string { "`" + Doubled(s, '`') + "`" }

  function EscapeLiteral(s: string): string {
    if s == "" then ""
    else (if s[0] == '\\' then "\\\\" else if s[0] == '\'' then "\\'" else [s[0]]) + EscapeLiteral(s[1..])
  }

  function QuoteLiteral(s: string): string { "'" + EscapeLiteral(s) + "'" }

  function QuotedNames(names: seq<string>): seq<string> {
    if names == [] then [] else [QuoteIdentifier(names[0])] + QuotedNames(names[1..])
  }

  function TableText(database: string, table: string): string {
    QuoteIdentifier(database) + "." + QuoteIdentifier(table)
  }
}
