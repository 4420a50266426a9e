/**
 * Resolving a banned IP to a user: the scan of the panel's access log for the
 * most recent "accepted" line that mentions the IP.
 */
module AccessLog {
  import opened Wrappers
  import opened Text

  /** A line is a hit when, stripped, it contains both the IP and "accepted". */
  predicate Qualifies(line: string, ip: string)
  {
    var stripped := Strip(line, Whitespace);
    Contains(stripped, ip) && Contains(stripped, "accepted")
  }

  /** The user named by a line: its last token with '[' and ']' stripped from both ends. */
  function EmailOf(line: string): string
  {
    Strip(LastToken(Strip(line, Whitespace)), {'[', ']'})
  }

  /** The email of the qualifying line nearest the end of `lines`, if any. */
  function LastMatch(lines: seq<string>, ip: string): Option<string>
  {
    if lines == [] then None
    else
      var last := lines[|lines| - 1];
      if Qualifies(last, ip) then Some(EmailOf(last)) else LastMatch(lines[..|lines| - 1], ip)
  }

  /**
   * LastMatch finds nothing exactly when no line qualifies, and otherwise the
   * email of a qualifying line after which no line qualifies.
   */
  lemma {:induction false} LastMatchIsLast(lines: seq<string>, ip: string)
    ensures LastMatch(lines, ip).None? <==> forall k :: 0 <= k < |lines| ==> !Qualifies(lines[k], ip)
    ensures LastMatch(lines, ip).Some? ==>
      exists k :: && 0 <= k < |lines| && Qualifies(lines[k], ip)
                  && LastMatch(lines, ip).value == EmailOf(lines[k])
                  && forall j :: k < j < |lines| ==> !Qualifies(lines[j], ip)
  {
    if lines != [] && !Qualifies(lines[|lines| - 1], ip) {
      var init := lines[..|lines| - 1];
      LastMatchIsLast(init, ip);
      assert forall k :: 0 <= k < |init| ==> init[k] == lines[k];
    }
  }

  /**
   * What the scan finds: the nearest-to-end qualifying line among all lines
   * but the first, since only a line preceded by '\n' is ever examined.
   * A log that cannot be read (`None`) gives nothing.
   */
  function EmailForIp(ip: string, log: Option<string>): Option<string>
  {
    match log
    case None => None
    case Some(text) => LastMatch(Lines(text)[1..], ip)
  }

  /** A match in the lines after the last one decides, else the earlier lines do. */
  lemma {:induction false} LastMatchAppend(a: seq<string>, b: seq<string>, ip: string)
    ensures LastMatch(a + b, ip) == if LastMatch(b, ip).Some? then LastMatch(b, ip) else LastMatch(a, ip)
  {
    if b != [] {
      var ab := a + b;
      assert ab[|ab| - 1] == b[|b| - 1];
      assert ab[..|ab| - 1] == a + b[..|b| - 1];
      LastMatchAppend(a, b[..|b| - 1], ip);
    } else {
      assert a + b == a;
    }
  }

  /** The stripped text of a qualifying line always has a last token, so `parts[-1]` cannot fail. */
  lemma QualifyingLineHasToken(line: string, ip: string)
    requires Qualifies(line, ip)
    ensures LastToken(Strip(line, Whitespace)) != []
  {
    var stripped := Strip(line, Whitespace);
    ContainsChars(stripped, "accepted", 0);
    assert "accepted"[0] == 'a' && 'a' !in Whitespace;
    var k :| 0 <= k < |stripped| && stripped[k] == 'a';
    LastTokenIsLastRun(stripped);
  }

  /** The file's first line is never examined: the scan answers from the lines after it. */
  lemma FirstLineNeverExamined(ip: string, first: string, rest: string)
    requires '\n' !in first
    ensures EmailForIp(ip, Some(first + "\n" + rest)) == LastMatch(Lines(rest), ip)
  {
    LinesAtNewline(first, rest);
    LinesOfLineFree(first);
    assert (Lines(first) + Lines(rest))[1..] == Lines(rest);
  }

  /** A log of a single line (no newline at all) never yields an email. */
  lemma SingleLineLogFindsNothing(ip: string, text: string)
    requires '\n' !in text
    ensures EmailForIp(ip, Some(text)) == None
  {
    LinesOfLineFree(text);
  }

  /**
   * Reads the log from its end to its start one character at a time,
   * rebuilding each line by prepending, and answers with the first line that
   * qualifies when a '\n' closes it off. When `position` runs past the start
   * the loop ends without examining the leftover first line.
   */
  method FindEmailForIp(ip: string, log: Option<string>) returns (email: Option<string>)
    ensures email == EmailForIp(ip, log)
  {
    if log.None? {
      return None;
    }
    var text := log.value;
    var position := |text|;
    var line: string := [];
    while position >= 0
      invariant -1 <= position <= |text|
      invariant line == Lines(text[Scanned(position, |text|)..])[0]
      invariant LastMatch(Lines(text[Scanned(position, |text|)..])[1..], ip) == None
    {
      var nextChar: string := if position < |text| then [text[position]] else [];
      if nextChar == "\n" {
        if Qualifies(line, ip) {
          QualifyingLineHasToken(line, ip);
          email := Some(EmailOf(line));
          ScanFindsLine(text, position, ip);
          return;
        }
        ScanPassesNewline(text, position, ip);
        line := [];
      } else {
        if position < |text| {
          ScanPassesChar(text, position);
        }
        line := nextChar + line;
      }
      position := position - 1;
    }
    assert text[0..] == text;
    email := None;
  }

  /** Reading a character other than '\n' prepends it to the line being rebuilt. */
  lemma ScanPassesChar(text: string, p: nat)
    requires p < |text| && text[p] != '\n'
    ensures Lines(text[p..])[0] == [text[p]] + Lines(text[p + 1..])[0]
    ensures Lines(text[p..])[1..] == Lines(text[p + 1..])[1..]
  {
    assert text[p..] == [text[p]] + text[p + 1..];
  }

  /** Reading a '\n' after a line that does not qualify leaves nothing found and starts a new line. */
  lemma ScanPassesNewline(text: string, p: nat, ip: string)
    requires p < |text| && text[p] == '\n'
    requires !Qualifies(Lines(text[p + 1..])[0], ip)
    requires LastMatch(Lines(text[p + 1..])[1..], ip) == None
    ensures Lines(text[p..])[0] == []
    ensures LastMatch(Lines(text[p..])[1..], ip) == None
  {
    var after := Lines(text[p + 1..]);
    assert text[p..] == "\n" + text[p + 1..];
    assert after == [after[0]] + after[1..];
    LastMatchAppend([after[0]], after[1..], ip);
  }

  /** Reading a '\n' after a qualifying line: that line is the answer of the whole log. */
  lemma ScanFindsLine(text: string, p: nat, ip: string)
    requires p < |text| && text[p] == '\n'
    requires Qualifies(Lines(text[p + 1..])[0], ip)
    requires LastMatch(Lines(text[p + 1..])[1..], ip) == None
    ensures LastMatch(Lines(text)[1..], ip) == Some(EmailOf(Lines(text[p + 1..])[0]))
  {
    var after := Lines(text[p + 1..]);
    var before := Lines(text[..p])[1..];
    LinesAroundNewline(text, p);
    assert after == [after[0]] + after[1..];
    LastMatchAppend([after[0]], after[1..], ip);
    LastMatchAppend(before, after, ip);
  }

  /** The examined lines of a text are those before a '\n' at `p`, then all lines after it. */
  lemma LinesAroundNewline(text: string, p: nat)
    requires p < |text| && text[p] == '\n'
    ensures Lines(text)[1..] == Lines(text[..p])[1..] + Lines(text[p + 1..])
  {
    var a, b := text[..p], text[p + 1..];
    assert text == a + "\n" + b;
    LinesAtNewline(a, b);
    var la, lb := Lines(a), Lines(b);
    assert (la + lb)[1..] == la[1..] + lb;
  }

  /** Where the consumed suffix starts when the scan is about to read `position`. */
  function Scanned(position: int, length: nat): (start: nat)
    requires -1 <= position <= length
    ensures start <= length
  {
    if position < length then position + 1 else length
  }
}
