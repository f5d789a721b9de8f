/**
 * The field quoting of the contributions CSV export: a value holding a
 * double quote, a comma or a line feed is wrapped in double quotes with its
 * own double quotes doubled (rules 6 and 7 of section 2 of RFC 4180); any
 * other value is written as it is, and a missing value as the empty field.
 */
module Csv {
  import opened Wrappers

  /** The characters that force quoting (`/[",\n]/`). */
  predicate IsSpecial(c: char)
  {
    c == '"' || c == ',' || c == '\n'
  }

  predicate NeedsQuoting(s: string)
  {
    exists k :: 0 <= k < |s| && IsSpecial(s[k])
  }

  /** `replace(/"/g, '""')`. */
  function DoubleQuotes(s: string): (r: string)
    ensures |r| >= |s|
    ensures '"' !in s ==> r == s
  {
    if s == [] then []
    else (if s[0] == '"' then "\"\"" else [s[0]]) + DoubleQuotes(s[1..])
  }

  /** The `escape` helper of the export. */
  function Escape(value: Option<string>): (r: string)
    ensures value.None? ==> r == []
    ensures value.Some? && !NeedsQuoting(value.value) ==> r == value.value
    ensures value.Some? && NeedsQuoting(value.value) ==> |r| >= 2 && r[0] == '"' && r[|r| - 1] == '"'
  {
    match value
    case None => []
    case Some(s) => if NeedsQuoting(s) then "\"" + DoubleQuotes(s) + "\"" else s
  }

  /** Reads back the inside of a quoted field: `""` stands for one quote, a lone quote is malformed. */
  function Undouble(s: string): Option<string>
  {
    if s == [] then Some([])
    else if s[0] != '"' then
      match Undouble(s[1..])
      case Some(rest) => Some([s[0]] + rest)
      case None => None
    else if |s| >= 2 && s[1] == '"' then
      match Undouble(s[2..])
      case Some(rest) => Some("\"" + rest)
      case None => None
    else None
  }

  /** An RFC 4180 reader of one field. */
  function Unescape(field: string): Option<string>
  {
    if |field| >= 2 && field[0] == '"' && field[|field| - 1] == '"' then Undouble(field[1..|field| - 1])
    else if '"' in field then None
    else Some(field)
  }

  lemma {:induction false} UndoubleDoubleQuotes(s: string)
    ensures Undouble(DoubleQuotes(s)) == Some(s)
  {
    if s != [] {
      UndoubleDoubleQuotes(s[1..]);
      var rest := DoubleQuotes(s[1..]);
      if s[0] == '"' {
        assert DoubleQuotes(s) == "\"\"" + rest;
        assert ("\"\"" + rest)[2..] == rest;
      } else {
        assert DoubleQuotes(s) == [s[0]] + rest;
        assert ([s[0]] + rest)[1..] == rest;
      }
      assert [s[0]] + s[1..] == s;
    }
  }

  /** A reader gets every present value back from its escaped field. */
  lemma EscapeRoundTrip(s: string)
    ensures Unescape(Escape(Some(s))) == Some(s)
  {
    if NeedsQuoting(s) {
      var r := Escape(Some(s));
      assert r[1..|r| - 1] == DoubleQuotes(s);
      UndoubleDoubleQuotes(s);
    }
  }
}
