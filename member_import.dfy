/**
 * The onboarding member import: the addresses found in an uploaded CSV text
 * and the result the step reports. Reading the file and the bulk-import API
 * call are parameters: `None` for a file that cannot be read, a flag for an
 * API call that throws.
 */
module MemberImport {
  import opened Wrappers
  import JsString
  import Seqs

  /** No white space and no `@`: one `[^\s@]` run. */
  predicate Plain(s: string)
  {
    forall k :: 0 <= k < |s| ==> !JsString.IsWhitespace(s[k]) && s[k] != '@'
  }

  /**
   * `/^[^\s@]+@[^\s@]+\.[^\s@]+$/.test(s)`: `i` is the `@` and `k` the dot
   * that the three non-empty runs meet at.
   */
  predicate MatchesEmailPattern(s: string)
  {
    exists i, k | 0 < i < k < |s| :: SplitsAt(s, i, k)
  }

  /** `s` is a `[^\s@]` run, `@` at `i`, a run, `.` at `k`, and a run. */
  predicate SplitsAt(s: string, i: int, k: int)
  {
    0 < i && i + 1 < k && k + 1 < |s| && s[i] == '@' && s[k] == '.'
    && Plain(s[..i]) && Plain(s[i + 1..k]) && Plain(s[k + 1..])
  }

  /** The addresses kept from one line's comma-separated fields, trimmed, in order. */
  function FieldEmails(fields: seq<string>): seq<string>
  {
    if fields == [] then []
    else
      var email := JsString.Trim(fields[|fields| - 1]);
      FieldEmails(fields[..|fields| - 1]) + if email != "" && MatchesEmailPattern(email) then [email] else []
  }

  /** A blank line gives nothing; any other line gives the addresses among its trimmed fields. */
  function LineEmails(line: string): seq<string>
  {
    var trimmed := JsString.Trim(line);
    if trimmed == "" then [] else FieldEmails(JsString.Split(trimmed, ','))
  }

  /** The addresses of all lines, in order, duplicates included. */
  function Candidates(lines: seq<string>): seq<string>
  {
    if lines == [] then [] else Candidates(lines[..|lines| - 1]) + LineEmails(lines[|lines| - 1])
  }

  /** What `parseEmailsFromCSV` returns. */
  function ParsedEmails(csvText: string): seq<string>
  {
    Seqs.Dedupe(Candidates(JsString.Split(csvText, '\n')))
  }

  /** The inner loop of `parseEmailsFromCSV`: one line's fields tested in order. */
  method ScanFields(fields: seq<string>) returns (found: seq<string>)
    ensures found == FieldEmails(fields)
  {
    found := [];
    var j := 0;
    while j < |fields|
      invariant 0 <= j <= |fields|
      invariant found == FieldEmails(fields[..j])
    {
      var email := JsString.Trim(fields[j]);
      FieldEmailsStep(fields, j);
      if email != "" && MatchesEmailPattern(email) {
        found := found + [email];
      }
      j := j + 1;
    }
    assert fields[..j] == fields;
  }

  /** The body of the outer loop: a blank line is skipped, any other line has its fields scanned. */
  method ScanLine(line: string) returns (found: seq<string>)
    ensures found == LineEmails(line)
  {
    var trimmed := JsString.Trim(line);
    found := [];
    if trimmed != "" {
      found := ScanFields(JsString.Split(trimmed, ','));
    }
  }

  /** `parseEmailsFromCSV`: every field of every non-blank line is tested, then duplicates are removed. */
  method ParseEmailsFromCsv(csvText: string) returns (emails: seq<string>)
    ensures emails == ParsedEmails(csvText)
  {
    var lines := JsString.Split(csvText, '\n');
    var found := ScanLines(lines);
    emails := Seqs.Dedupe(found);
  }

  /** The outer loop of `parseEmailsFromCSV`: the addresses of every line, in order. */
  method ScanLines(lines: seq<string>) returns (found: seq<string>)
    ensures found == Candidates(lines)
  {
    found := [];
    var i := 0;
    while i < |lines|
      invariant 0 <= i <= |lines|
      invariant found == Candidates(lines[..i])
    {
      var fromLine := ScanLine(lines[i]);
      CandidatesStep(lines, i);
      found := found + fromLine;
      i := i + 1;
    }
    assert lines[..i] == lines;
  }

  lemma FieldEmailsStep(fields: seq<string>, j: nat)
    requires j < |fields|
    ensures var email := JsString.Trim(fields[j]);
            FieldEmails(fields[..j + 1]) == FieldEmails(fields[..j]) + if email != "" && MatchesEmailPattern(email) then [email] else []
  {
    assert fields[..j + 1][..j] == fields[..j];
  }

  lemma CandidatesStep(lines: seq<string>, i: nat)
    requires i < |lines|
    ensures Candidates(lines[..i + 1]) == Candidates(lines[..i]) + LineEmails(lines[i])
  {
    assert lines[..i + 1][..i] == lines[..i];
  }

  lemma PlainAt(s: string, a: nat, b: nat, m: nat)
    requires a <= m < b <= |s| && Plain(s[a..b])
    ensures !JsString.IsWhitespace(s[m]) && s[m] != '@'
  {
    assert s[m] == s[a..b][m - a];
  }

  /**
   * An address that matches the pattern holds exactly one `@`, neither first
   * nor last, and no white space.
   */
  lemma PatternFacts(s: string)
    requires MatchesEmailPattern(s)
    ensures exists i :: 0 < i < |s| - 1 && s[i] == '@' && forall m :: 0 <= m < |s| && m != i ==> s[m] != '@'
    ensures forall m :: 0 <= m < |s| ==> !JsString.IsWhitespace(s[m])
  {
    var i, k :| 0 < i < k < |s| && SplitsAt(s, i, k);
    assert Plain(s[0..i]) by { assert s[0..i] == s[..i]; }
    assert Plain(s[k + 1..|s|]) by { assert s[k + 1..|s|] == s[k + 1..]; }
    forall m | 0 <= m < |s| && m != i
      ensures s[m] != '@' && !JsString.IsWhitespace(s[m])
    {
      if m < i { PlainAt(s, 0, i, m); }
      else if m < k { PlainAt(s, i + 1, k, m); }
      else if k < m { PlainAt(s, k + 1, |s|, m); }
    }
  }

  /** Conversely, a local part, a host and a top-level part, none empty and none with white space or `@`, make an address. */
  lemma PatternFromParts(local: string, host: string, tld: string)
    requires local != [] && host != [] && tld != []
    requires Plain(local) && Plain(host) && Plain(tld)
    ensures MatchesEmailPattern(local + "@" + host + "." + tld)
  {
    var s := local + "@" + host + "." + tld;
    var i, k := |local|, |local| + 1 + |host|;
    assert s[..i] == local;
    assert s[i + 1..k] == host;
    assert s[k + 1..] == tld;
    assert s[i] == '@' && s[k] == '.';
    assert SplitsAt(s, i, k);
  }

  lemma {:induction false} FieldEmailsMatch(fields: seq<string>)
    ensures forall x :: x in FieldEmails(fields) ==> MatchesEmailPattern(x)
  {
    if fields != [] {
      FieldEmailsMatch(fields[..|fields| - 1]);
    }
  }

  lemma {:induction false} CandidatesMatch(lines: seq<string>)
    ensures forall x :: x in Candidates(lines) ==> MatchesEmailPattern(x)
  {
    if lines != [] {
      CandidatesMatch(lines[..|lines| - 1]);
      var trimmed := JsString.Trim(lines[|lines| - 1]);
      if trimmed != "" {
        FieldEmailsMatch(JsString.Split(trimmed, ','));
      }
    }
  }

  /** Every address returned matches the pattern. */
  lemma ParsedMatchPattern(csvText: string)
    ensures forall x :: x in ParsedEmails(csvText) ==> MatchesEmailPattern(x)
  {
    CandidatesMatch(JsString.Split(csvText, '\n'));
  }

  /** No address is returned twice, and the addresses keep the order in which the text first gives them. */
  lemma ParsedDistinctInOrder(csvText: string)
    ensures Seqs.NoDuplicates(ParsedEmails(csvText))
    ensures Seqs.IsSubsequence(ParsedEmails(csvText), Candidates(JsString.Split(csvText, '\n')))
    ensures forall x :: x in ParsedEmails(csvText) <==> x in Candidates(JsString.Split(csvText, '\n'))
    ensures var c, p := Candidates(JsString.Split(csvText, '\n')), ParsedEmails(csvText);
            forall i, j :: 0 <= i < j < |p| ==> Seqs.FirstPosition(c, p[i]) < Seqs.FirstPosition(c, p[j])
  {
    Seqs.DedupeIsSubsequence(Candidates(JsString.Split(csvText, '\n')));
    Seqs.DedupeKeepsFirstOrder(Candidates(JsString.Split(csvText, '\n')));
  }

  /** The trimmed comma-separated fields of a line, as `parseEmailsFromCSV` reads them. */
  function FieldsOf(line: string): seq<string>
  {
    JsString.Split(JsString.Trim(line), ',')
  }

  predicate IsFieldOf(x: string, line: string)
  {
    exists m | 0 <= m < |FieldsOf(line)| :: x == JsString.Trim(FieldsOf(line)[m])
  }

  /** `x` is a trimmed field of `line`, and `line` is not blank. */
  predicate FromLine(x: string, line: string)
  {
    JsString.Trim(line) != "" && IsFieldOf(x, line)
  }

  /** A field the pattern keeps is one of the line's trimmed comma-separated fields. */
  lemma {:induction false} FieldEmailsFromFields(fields: seq<string>, x: string)
    requires x in FieldEmails(fields)
    ensures exists m | 0 <= m < |fields| :: x == JsString.Trim(fields[m])
  {
    var init := fields[..|fields| - 1];
    if x in FieldEmails(init) {
      FieldEmailsFromFields(init, x);
      var m :| 0 <= m < |init| && x == JsString.Trim(init[m]);
      assert fields[m] == init[m];
    } else {
      assert x == JsString.Trim(fields[|fields| - 1]);
    }
  }

  /** What one line gives comes from that line. */
  lemma LineEmailsFromLine(line: string, x: string)
    requires x in LineEmails(line)
    ensures FromLine(x, line)
  {
    FieldEmailsFromFields(FieldsOf(line), x);
  }

  /** Nothing is invented: each address is a trimmed field of a non-blank line of the text. */
  lemma {:induction false} CandidatesFromLines(lines: seq<string>, x: string)
    requires x in Candidates(lines)
    ensures exists k | 0 <= k < |lines| :: FromLine(x, lines[k])
  {
    var init, last := lines[..|lines| - 1], lines[|lines| - 1];
    assert Candidates(lines) == Candidates(init) + LineEmails(last);
    if x in Candidates(init) {
      CandidatesFromLines(init, x);
      var k :| 0 <= k < |init| && FromLine(x, init[k]);
      assert lines[k] == init[k];
    } else {
      LineEmailsFromLine(last, x);
      assert FromLine(x, lines[|lines| - 1]);
    }
  }

  /** Blank lines add nothing, so a text of blank lines only, the empty text among them, gives no address. */
  lemma {:induction false} BlankLinesSkipped(lines: seq<string>)
    requires forall k :: 0 <= k < |lines| ==> JsString.Trim(lines[k]) == ""
    ensures Candidates(lines) == []
  {
    if lines != [] {
      BlankLinesSkipped(lines[..|lines| - 1]);
    }
  }

  lemma EmptyTextGivesNothing()
    ensures ParsedEmails("") == []
  {
    assert JsString.Split("", '\n') == [""];
    BlankLinesSkipped([""]);
  }

  /** `ImportResult`. */
  datatype ImportResult = ImportResult(success: bool, count: nat, errors: Option<seq<string>>)

  const NoEmailsFound := "No valid email addresses found in the file."
  const ImportFailed := "Import failed. Please check your file format."

  /**
   * `handleImport` once a file is selected. `text` is `None` when reading the
   * file throws and `apiFails` says whether the bulk import throws; `sent`
   * is the list handed to the API, `None` when it is not called.
   */
  method HandleImport(text: Option<string>, apiFails: bool) returns (result: ImportResult, sent: Option<seq<string>>)
    ensures text.None? ==> sent.None? && result == ImportResult(false, 0, Some([ImportFailed]))
    ensures text.Some? && ParsedEmails(text.value) == [] ==> sent.None? && result == ImportResult(false, 0, Some([NoEmailsFound]))
    ensures text.Some? && ParsedEmails(text.value) != [] ==> sent == Some(ParsedEmails(text.value))
    ensures text.Some? && ParsedEmails(text.value) != [] && !apiFails ==> result == ImportResult(true, |ParsedEmails(text.value)|, None)
    ensures text.Some? && ParsedEmails(text.value) != [] && apiFails ==> result == ImportResult(false, 0, Some([ImportFailed]))
    ensures result.success <==> sent.Some? && !apiFails
  {
    sent := None;
    if text.None? {
      return ImportResult(false, 0, Some([ImportFailed])), None;
    }
    var emails := ParseEmailsFromCsv(text.value);
    if |emails| == 0 {
      return ImportResult(false, 0, Some([NoEmailsFound])), None;
    }
    sent := Some(emails);
    if apiFails {
      result := ImportResult(false, 0, Some([ImportFailed]));
    } else {
      result := ImportResult(true, |emails|, None);
    }
  }
}
