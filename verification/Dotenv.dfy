/** The `.env` printer and parser of the console. */
module Dotenv {
  import opened Wrappers
  import opened Text

  datatype Entry = Entry(key: string, value: string)

  predicate IsKeyStart(c: char) {
    IsLowerLetter(c) || IsUpperLetter(c) || c == '_'
  }

  predicate IsKeyChar(c: char) {
    IsKeyStart(c) || IsDigit(c)
  }

  predicate IsKey(s: string) {
    s != "" && IsKeyStart(s[0]) && forall i | 0 <= i < |s| :: IsKeyChar(s[i])
  }

  // Printing.

  function EscapeChar(c: char): string {
    match c
    case '\\' => "\\\\"
    case '"' => "\\\""
    case '\n' => "\\n"
    case '\r' => "\\r"
    case '\t' => "\\t"
    case _ => [c]
  }

  function Escape(value: string): string {
    if value == "" then "" else EscapeChar(value[0]) + Escape(value[1..])
  }

  predicate NeedsQuotesFor(c: char) {
    c == '\n' || c == '\r' || c == '\t' || c == '#' || c == '"' || c == '\'' || c == '\\'
  }

  /** Values the unquoted form cannot carry. */
  predicate NeedsQuotes(value: string) {
    || (exists i | 0 <= i < |value| :: NeedsQuotesFor(value[i]))
    || (value != "" && (IsSpace(value[0]) || IsSpace(value[|value| - 1])))
  }

  /** The value part of a printed line. */
  function FormatValue(value: string): string {
    if NeedsQuotes(value) then "\"" + Escape(value) + "\"" else value
  }

  function FormatEntry(e: Entry): string {
    e.key + "=" + FormatValue(e.value)
  }

  function FormatLines(entries: seq<Entry>): seq<string> {
    seq(|entries|, i requires 0 <= i < |entries| => FormatEntry(entries[i]))
  }

  function Join(lines: seq<string>): string {
    if lines == [] then ""
    else if |lines| == 1 then lines[0]
    else lines[0] + "\n" + Join(lines[1..])
  }

  function FormatDotenv(entries: seq<Entry>): string {
    Join(FormatLines(entries))
  }

  // Parsing.

  /** `replace(/\r\n?/g, '\n')`. */
  function NormaliseNewlines(text: string): string {
    if text == "" then ""
    else if text[0] == '\r' then
      "\n" + NormaliseNewlines(if |text| > 1 && text[1] == '\n' then text[2..] else text[1..])
    else [text[0]] + NormaliseNewlines(text[1..])
  }

  function KeyLength(s: string): (n: nat)
    ensures n <= |s|
  {
    if s != "" && IsKeyStart(s[0]) then 1 + KeyCharsLength(s[1..]) else 0
  }

  function KeyCharsLength(s: string): (n: nat)
    ensures n <= |s|
  {
    if s != "" && IsKeyChar(s[0]) then 1 + KeyCharsLength(s[1..]) else 0
  }

  datatype Match = Match(key: string, rest: string)

  /** A key, an equals sign and the rest of the line, which must hold no line terminator. */
  function MatchAssignment(s: string): Option<Match> {
    var n := KeyLength(s);
    var tail := TrimLeft(s[n..]);
    if n == 0 || tail == "" || tail[0] != '=' then None
    else
      var rest := TrimLeft(tail[1..]);
      if OneLine(rest) then Some(Match(s[..n], rest)) else None
  }

  /** The line pattern: an assignment after an optional `export`, which may itself be the key. */
  function MatchLine(line: string): Option<Match> {
    MatchTrimmed(TrimLeft(line))
  }

  function MatchTrimmed(s: string): Option<Match> {
    var exported := if "export" <= s && |s| > 6 && IsSpace(s[6]) then MatchAssignment(TrimLeft(s[6..])) else None;
    if exported.Some? then exported else MatchAssignment(s)
  }

  /** The first closing quote from `i` on: a double quote does not close behind a backslash. */
  function ClosingQuote(s: string, quote: char, i: nat): (end: int)
    requires i <= |s|
    ensures end == -1 || i <= end < |s|
    decreases |s| - i
  {
    if i == |s| then -1
    else if s[i] == quote && !(quote == '"' && i > 0 && s[i - 1] == '\\') then i
    else ClosingQuote(s, quote, i + 1)
  }

  datatype Quoted = Quoted(raw: string, used: nat)

  /** The text up to the closing quote, taking in as many further lines as it needs. */
  function ReadQuoted(rest: string, quote: char, more: seq<string>): (q: Quoted)
    ensures q.used <= |more|
    decreases |more|
  {
    var end := ClosingQuote(rest, quote, 0);
    if end >= 0 then Quoted(rest[..end], 0)
    else if more == [] then Quoted(rest, 0)
    else
      var q := ReadQuoted(rest + "\n" + more[0], quote, more[1..]);
      Quoted(q.raw, q.used + 1)
  }

  function UnescapeChar(c: char): char {
    match c
    case 'n' => '\n'
    case 'r' => '\r'
    case 't' => '\t'
    case _ => c
  }

  predicate IsEscape(s: string) {
    |s| >= 2 && s[0] == '\\' && (s[1] == 'n' || s[1] == 'r' || s[1] == 't' || s[1] == '"' || s[1] == '\\')
  }

  function Unescape(s: string): string {
    if s == "" then ""
    else if IsEscape(s) then [UnescapeChar(s[1])] + Unescape(s[2..])
    else [s[0]] + Unescape(s[1..])
  }

  /** `replace(/\s+#.*$/, '')` on a text without line terminators. */
  function CutComment(s: string): string {
    if s == "" then ""
    else if IsSpace(s[0]) && TrimLeft(s) != "" && TrimLeft(s)[0] == '#' then ""
    else [s[0]] + CutComment(s[1..])
  }

  /** A `Map`: setting a known key keeps its place. */
  function Set(entries: seq<Entry>, key: string, value: string): seq<Entry> {
    if entries == [] then [Entry(key, value)]
    else if entries[0].key == key then [Entry(key, value)] + entries[1..]
    else [entries[0]] + Set(entries[1..], key, value)
  }

  predicate IsQuote(c: char) {
    c == '"' || c == '\''
  }

  /** One matched line's value and the number of further lines it took. */
  function ReadValue(rest: string, more: seq<string>): (q: Quoted)
    ensures q.used <= |more|
  {
    if rest != "" && IsQuote(rest[0]) then
      var q := ReadQuoted(rest[1..], rest[0], more);
      if rest[0] == '"' then Quoted(Unescape(q.raw), q.used) else q
    else Quoted(Trim(CutComment(rest)), 0)
  }

  function ParseLines(lines: seq<string>, entries: seq<Entry>): seq<Entry>
    decreases |lines|
  {
    if lines == [] then entries
    else
      var m := MatchLine(lines[0]);
      if m.None? then ParseLines(lines[1..], entries)
      else
        var q := ReadValue(m.value.rest, lines[1..]);
        ParseLines(lines[1..][q.used..], Set(entries, m.value.key, q.raw))
  }

  function Parse(text: string): seq<Entry> {
    ParseLines(Split(NormaliseNewlines(text), '\n'), [])
  }

  /** The inner loop: lines are taken in until the quote closes. */
  method TakeQuoted(lines: seq<string>, start: nat, quoted: string, quote: char) returns (raw: string, last: nat)
    requires start < |lines|
    ensures start <= last < |lines|
    ensures var q := ReadQuoted(quoted, quote, lines[start + 1..]); raw == q.raw && last == start + q.used
  {
    hide ClosingQuote;
    ghost var q := ReadQuoted(quoted, quote, lines[start + 1..]);
    var rest, i := quoted, start;
    while ClosingQuote(rest, quote, 0) < 0 && i + 1 < |lines|
      invariant start <= i < |lines|
      invariant ReadQuoted(rest, quote, lines[i + 1..]).raw == q.raw
      invariant i + ReadQuoted(rest, quote, lines[i + 1..]).used == start + q.used
      decreases |lines| - i
    {
      assert lines[i + 1..][1..] == lines[i + 2..];
      i := i + 1;
      rest := rest + "\n" + lines[i];
    }
    var end := ClosingQuote(rest, quote, 0);
    raw, last := if end == -1 then rest else rest[..end], i;
  }

  /** The parser's loop over the lines. */
  method ParseDotenv(text: string) returns (entries: seq<Entry>)
    ensures entries == Parse(text)
  {
    hide MatchLine, Unescape, CutComment, Trim, Set, Split, NormaliseNewlines, ReadQuoted;
    var lines := Split(NormaliseNewlines(text), '\n');
    entries := [];
    var i := 0;
    assert lines[0..] == lines;
    while i < |lines|
      invariant i <= |lines|
      invariant ParseLines(lines[i..], entries) == Parse(text)
    {
      var m := MatchLine(lines[i]);
      assert lines[i..][1..] == lines[i + 1..];
      if m.None? {
        i := i + 1;
        continue;
      }
      var key, rest := m.value.key, m.value.rest;
      if rest != "" && IsQuote(rest[0]) {
        var raw, last := TakeQuoted(lines, i, rest[1..], rest[0]);
        entries := Set(entries, key, if rest[0] == '"' then Unescape(raw) else raw);
        assert lines[i + 1..][last - i..] == lines[last + 1..];
        i := last;
      } else {
        entries := Set(entries, key, Trim(CutComment(rest)));
        assert lines[i + 1..][0..] == lines[i + 1..];
      }
      i := i + 1;
    }
  }

  // Escaping.

  lemma {:induction false} UnescapeEscape(value: string, tail: string)
    ensures Unescape(Escape(value) + tail) == value + Unescape(tail)
  {
    hide EscapeChar, IsEscape, Unescape;
    if value == "" {
      assert Escape(value) + tail == tail;
    } else {
      var rest := Escape(value[1..]) + tail;
      UnescapeEscape(value[1..], tail);
      UnescapeStep(value[0], rest);
      assert Escape(value) + tail == EscapeChar(value[0]) + rest;
      assert value == [value[0]] + value[1..];
    }
  }

  lemma UnescapeStep(c: char, rest: string)
    ensures Unescape(EscapeChar(c) + rest) == [c] + Unescape(rest)
  {
  }

  /** The only unescaped quote of a text that ends in one is that one, unless a backslash stands before it. */
  lemma {:induction false} EscapedQuotesAreProtected(value: string)
    ensures var s := Escape(value);
      && (forall i | 0 <= i < |s| && s[i] == '"' :: i > 0 && s[i - 1] == '\\')
      && (s == "" <==> value == "")
      && (value != "" ==> (s[|s| - 1] == '\\' <==> value[|value| - 1] == '\\'))
  {
    if value != "" {
      EscapedQuotesAreProtected(value[1..]);
      ProtectedStep(EscapeChar(value[0]), Escape(value[1..]));
    }
  }

  lemma ProtectedStep(head: string, rest: string)
    requires head != "" && forall i | 0 <= i < |head| && head[i] == '"' :: i > 0 && head[i - 1] == '\\'
    requires forall i | 0 <= i < |rest| && rest[i] == '"' :: i > 0 && rest[i - 1] == '\\'
    ensures var s := head + rest;
      && (forall i | 0 <= i < |s| && s[i] == '"' :: i > 0 && s[i - 1] == '\\')
      && s[|s| - 1] == if rest == "" then head[|head| - 1] else rest[|rest| - 1]
  {
  }

  lemma {:induction false} ClosingQuoteIs(s: string, quote: char, i: nat, end: nat)
    requires i <= end < |s|
    requires s[end] == quote && !(quote == '"' && end > 0 && s[end - 1] == '\\')
    requires forall k | i <= k < end && s[k] == quote :: quote == '"' && k > 0 && s[k - 1] == '\\'
    ensures ClosingQuote(s, quote, i) == end
    decreases end - i
  {
    if i < end {
      ClosingQuoteIs(s, quote, i + 1, end);
    }
  }

  lemma {:induction false} NoClosingQuote(s: string, quote: char, i: nat)
    requires i <= |s|
    requires forall k | i <= k < |s| && s[k] == quote :: quote == '"' && k > 0 && s[k - 1] == '\\'
    ensures ClosingQuote(s, quote, i) == -1
    decreases |s| - i
  {
    if i < |s| {
      NoClosingQuote(s, quote, i + 1);
    }
  }

  predicate EndsInBackslash(value: string) {
    value != "" && value[|value| - 1] == '\\'
  }

  /** A quoted value is read back exactly if it does not end in a backslash; otherwise the reader runs on. */
  lemma QuotedValue(value: string, more: seq<string>)
    ensures !EndsInBackslash(value) ==> ReadValue("\"" + Escape(value) + "\"", more) == Quoted(value, 0)
    ensures EndsInBackslash(value) ==> ReadValue("\"" + Escape(value) + "\"", more).raw != value
  {
    hide Escape, Unescape, ReadQuoted, ClosingQuote;
    var rest := "\"" + Escape(value) + "\"";
    assert rest[0] == '"' && rest[1..] == Escape(value) + "\"";
    if EndsInBackslash(value) {
      RunsOn(value, more);
    } else {
      ReadsBack(value, more);
    }
  }

  lemma RunsOn(value: string, more: seq<string>)
    requires EndsInBackslash(value)
    ensures Unescape(ReadQuoted(Escape(value) + "\"", '"', more).raw) != value
  {
    hide Escape, Unescape, ReadQuoted, ClosingQuote;
    var body := Escape(value) + "\"";
    EscapedQuotesAreProtected(value);
    assert forall k | 0 <= k < |body| && body[k] == '"' :: k > 0 && body[k - 1] == '\\';
    ReadQuotedRunsOn(body, more);
    var raw := ReadQuoted(body, '"', more).raw;
    UnescapeEscape(value, raw[|Escape(value)|..]);
    assert raw == Escape(value) + raw[|Escape(value)|..];
    assert raw[|Escape(value)|] == '"';
    QuoteStays(raw[|Escape(value)|..]);
  }

  lemma QuoteStays(tail: string)
    requires tail != "" && tail[0] == '"'
    ensures Unescape(tail) != ""
  {
  }

  lemma ReadsBack(value: string, more: seq<string>)
    requires !EndsInBackslash(value)
    ensures ReadQuoted(Escape(value) + "\"", '"', more) == Quoted(Escape(value), 0)
    ensures Unescape(Escape(value)) == value
  {
    hide Escape, Unescape, ClosingQuote;
    var body := Escape(value) + "\"";
    EscapedQuotesAreProtected(value);
    ClosingQuoteIs(body, '"', 0, |Escape(value)|);
    assert body[..|Escape(value)|] == Escape(value);
    UnescapeEscape(value, "");
    UnescapeNothing();
    assert Escape(value) + "" == Escape(value) && value + "" == value;
  }

  lemma UnescapeNothing()
    ensures Unescape("") == ""
  {
  }

  lemma {:induction false} ReadQuotedRunsOn(body: string, more: seq<string>)
    requires forall k | 0 <= k < |body| && body[k] == '"' :: k > 0 && body[k - 1] == '\\'
    ensures body <= ReadQuoted(body, '"', more).raw
    decreases |more|
  {
    NoClosingQuote(body, '"', 0);
    if more != [] {
      ReadQuotedKeeps(body + "\n" + more[0], body, more[1..]);
    }
  }

  lemma {:induction false} ReadQuotedKeeps(rest: string, body: string, more: seq<string>)
    requires body <= rest
    requires forall k | 0 <= k < |body| && body[k] == '"' :: k > 0 && body[k - 1] == '\\'
    ensures body <= ReadQuoted(rest, '"', more).raw
    decreases |more|
  {
    var end := ClosingQuote(rest, '"', 0);
    if end >= 0 {
      ClosingQuoteIsUnprotected(rest, '"', 0);
      assert forall k | 0 <= k < |body| :: body[k] == rest[k];
      assert end >= |body|;
      assert rest[..end][..|body|] == body;
    } else if more != [] {
      assert rest <= rest + "\n" + more[0];
      ReadQuotedKeeps(rest + "\n" + more[0], body, more[1..]);
    }
  }

  lemma {:induction false} ClosingQuoteIsUnprotected(s: string, quote: char, i: nat)
    requires i <= |s|
    ensures var end := ClosingQuote(s, quote, i);
      end >= 0 ==> s[end] == quote && !(quote == '"' && end > 0 && s[end - 1] == '\\')
    decreases |s| - i
  {
    if i < |s| {
      ClosingQuoteIsUnprotected(s, quote, i + 1);
    }
  }

  lemma {:induction false} NoCommentToCut(s: string)
    requires Free(s, '#')
    ensures CutComment(s) == s
  {
    if s != "" {
      NoCommentToCut(s[1..]);
      var lo := TrimLeftDrops(s);
    }
  }

  lemma PlainValue(value: string, more: seq<string>)
    requires !NeedsQuotes(value)
    ensures ReadValue(value, more) == Quoted(value, 0)
  {
    NoCommentToCut(value);
    TrimTight(value);
    if value != "" {
      assert !NeedsQuotesFor(value[0]);
    }
  }

  // Lines.

  lemma {:induction false} KeyCharsThenEquals(key: string, tail: string)
    requires forall i | 0 <= i < |key| :: IsKeyChar(key[i])
    requires tail != "" && tail[0] == '='
    ensures KeyCharsLength(key + tail) == |key|
  {
    if key == "" {
      assert key + tail == tail;
    } else {
      assert (key + tail)[1..] == key[1..] + tail;
      KeyCharsThenEquals(key[1..], tail);
    }
  }

  lemma AssignmentLine(key: string, rest: string)
    requires IsKey(key) && (rest == "" || !IsSpace(rest[0]))
    ensures MatchLine(key + "=" + rest) == if OneLine(rest) then Some(Match(key, rest)) else None
  {
    var line, tail := key + "=" + rest, "=" + rest;
    assert line == key + tail && line[1..] == key[1..] + tail;
    KeyCharsThenEquals(key[1..], tail);
    assert KeyLength(line) == |key|;
    assert line[|key|..] == tail && line[..|key|] == key && tail[1..] == rest;
    assert TrimLeft(line) == line;
    if "export" <= line && |line| > 6 {
      assert forall k | 0 <= k < 6 :: line[k] == "export"[k] != '=';
      assert line[|key|] == '=';
      assert line[6] == if |key| > 6 then key[6] else '=';
      assert !IsSpace(line[6]);
    }
  }

  /** The characters a regular expression's dot does not match although they do not end a line here. */
  predicate HasSeparator(value: string) {
    exists i | 0 <= i < |value| :: value[i] == '\U{2028}' || value[i] == '\U{2029}'
  }

  lemma {:induction false} EscapeOneLine(value: string)
    ensures OneLine(Escape(value)) <==> !HasSeparator(value)
    ensures Free(Escape(value), '\n') && Free(Escape(value), '\r')
  {
    if value != "" {
      EscapeOneLine(value[1..]);
      var head := EscapeChar(value[0]);
      OneLineConcat(head, Escape(value[1..]));
      EscapeCharOneLine(value[0]);
      HasSeparatorStep(value);
      assert forall i | 0 <= i < |Escape(value)| ::
        Escape(value)[i] == if i < |head| then head[i] else Escape(value[1..])[i - |head|];
    }
  }

  lemma EscapeCharOneLine(c: char)
    ensures OneLine(EscapeChar(c)) <==> c != '\U{2028}' && c != '\U{2029}'
    ensures Free(EscapeChar(c), '\n') && Free(EscapeChar(c), '\r')
  {
    if |EscapeChar(c)| == 1 {
      assert EscapeChar(c)[0] == c;
    }
  }

  lemma HasSeparatorStep(value: string)
    requires value != ""
    ensures HasSeparator(value) <==> value[0] == '\U{2028}' || value[0] == '\U{2029}' || HasSeparator(value[1..])
  {
  }

  lemma PlainOneLine(value: string)
    requires !NeedsQuotes(value)
    ensures OneLine(value) <==> !HasSeparator(value)
    ensures Free(value, '\n') && Free(value, '\r')
  {
  }

  lemma FormatValueOneLine(value: string)
    ensures OneLine(FormatValue(value)) <==> !HasSeparator(value)
    ensures Free(FormatValue(value), '\n') && Free(FormatValue(value), '\r')
    ensures FormatValue(value) == "" || !IsSpace(FormatValue(value)[0])
  {
    if NeedsQuotes(value) {
      EscapeOneLine(value);
      OneLineConcat("\"", Escape(value));
      OneLineConcat("\"" + Escape(value), "\"");
      assert OneLine("\"");
    } else {
      PlainOneLine(value);
    }
  }

  lemma KeyIsFree(key: string)
    requires IsKey(key)
    ensures Free(key, '\n') && Free(key, '\r')
  {
  }

  /** Every printed entry is one line, and its value part is read as a whole unless it holds a separator. */
  lemma PrintedLine(e: Entry)
    requires IsKey(e.key)
    ensures Free(FormatEntry(e), '\n') && Free(FormatEntry(e), '\r')
    ensures MatchLine(FormatEntry(e)) == if HasSeparator(e.value) then None else Some(Match(e.key, FormatValue(e.value)))
  {
    hide OneLine, HasSeparator, MatchLine, FormatValue, IsKey, IsSpace;
    var rest := FormatValue(e.value);
    FormatValueOneLine(e.value);
    KeyIsFree(e.key);
    AssignmentLine(e.key, rest);
    var line := e.key + "=" + rest;
    assert forall i | 0 <= i < |line| ::
      line[i] == if i < |e.key| then e.key[i] else if i == |e.key| then '=' else rest[i - |e.key| - 1];
  }

  /** The exact values the pair of functions carries. */
  predicate RoundTrips(value: string) {
    !EndsInBackslash(value) && !HasSeparator(value)
  }

  lemma PrintedValue(value: string, more: seq<string>)
    ensures !EndsInBackslash(value) ==> ReadValue(FormatValue(value), more) == Quoted(value, 0)
    ensures EndsInBackslash(value) ==> ReadValue(FormatValue(value), more).raw != value
  {
    if NeedsQuotes(value) {
      QuotedValue(value, more);
    } else {
      PlainValue(value, more);
      if EndsInBackslash(value) {
        assert NeedsQuotesFor(value[|value| - 1]);
      }
    }
  }

  // Texts of lines.

  lemma {:induction false} SplitJoin(lines: seq<string>)
    requires lines != [] && forall i | 0 <= i < |lines| :: Free(lines[i], '\n')
    ensures Split(Join(lines), '\n') == lines
  {
    if |lines| == 1 {
      SplitFree(lines[0], '\n');
    } else {
      SplitJoin(lines[1..]);
      SplitFirst(lines[0], '\n', Join(lines[1..]));
    }
  }

  lemma {:induction false} JoinFree(lines: seq<string>)
    requires forall i | 0 <= i < |lines| :: Free(lines[i], '\r')
    ensures Free(Join(lines), '\r')
  {
    if |lines| > 1 {
      JoinFree(lines[1..]);
      var text, rest := Join(lines), Join(lines[1..]);
      var n := |lines[0]|;
      assert forall i | 0 <= i < |text| :: text[i] == if i < n then lines[0][i] else if i == n then '\n' else rest[i - n - 1];
    }
  }

  lemma {:induction false} NothingToNormalise(text: string)
    requires Free(text, '\r')
    ensures NormaliseNewlines(text) == text
  {
    if text != "" {
      NothingToNormalise(text[1..]);
    }
  }

  // Entries.

  predicate ValidEntries(entries: seq<Entry>) {
    && (forall i | 0 <= i < |entries| :: IsKey(entries[i].key))
    && (forall i, j | 0 <= i < j < |entries| :: entries[i].key != entries[j].key)
  }

  predicate Fresh(key: string, entries: seq<Entry>) {
    forall i | 0 <= i < |entries| :: entries[i].key != key
  }

  function Lookup(entries: seq<Entry>, key: string): Option<string> {
    if entries == [] then None
    else if entries[0].key == key then Some(entries[0].value)
    else Lookup(entries[1..], key)
  }

  lemma {:induction false} SetAppends(entries: seq<Entry>, key: string, value: string)
    requires Fresh(key, entries)
    ensures Set(entries, key, value) == entries + [Entry(key, value)]
  {
    if entries != [] {
      SetAppends(entries[1..], key, value);
    }
  }

  lemma {:induction false} LookupSet(entries: seq<Entry>, key: string, value: string, other: string)
    ensures Lookup(Set(entries, key, value), other) == if other == key then Some(value) else Lookup(entries, other)
  {
    if entries != [] && entries[0].key != key {
      LookupSet(entries[1..], key, value, other);
      assert Set(entries, key, value)[1..] == Set(entries[1..], key, value);
    }
  }

  lemma {:induction false} LookupIn(entries: seq<Entry>, e: Entry, more: seq<Entry>)
    requires Fresh(e.key, entries)
    ensures Lookup(entries, e.key) == None
    ensures Lookup(entries + [e] + more, e.key) == Some(e.value)
  {
    if entries != [] {
      LookupIn(entries[1..], e, more);
      assert (entries + [e] + more)[1..] == entries[1..] + [e] + more;
    } else {
      assert entries + [e] + more == [e] + more;
    }
  }

  /** Lines of other entries do not touch a key, however many of them a quoted value takes in. */
  lemma {:induction false} OtherKeysUntouched(entries: seq<Entry>, parsed: seq<Entry>, key: string)
    requires Fresh(key, entries) && forall i | 0 <= i < |entries| :: IsKey(entries[i].key)
    ensures Lookup(ParseLines(FormatLines(entries), parsed), key) == Lookup(parsed, key)
    decreases |entries|
  {
    hide IsKey, HasSeparator, MatchLine, FormatEntry, FormatValue, ReadValue, Set, Lookup;
    if entries != [] {
      var e := entries[0];
      var lines := FormatLines(entries);
      PrintedLine(e);
      assert lines[0] == FormatEntry(e);
      assert lines[1..] == FormatLines(entries[1..]);
      if HasSeparator(e.value) {
        OtherKeysUntouched(entries[1..], parsed, key);
      } else {
        var q := ReadValue(FormatValue(e.value), lines[1..]);
        assert lines[1..][q.used..] == FormatLines(entries[1..][q.used..]);
        OtherKeysUntouched(entries[1..][q.used..], Set(parsed, e.key, q.raw), key);
        LookupSet(parsed, e.key, q.raw, key);
      }
    }
  }

  /** Reading the printed lines of entries gives those entries, in order, for exactly the values that carry. */
  lemma {:induction false} ParsePrintedLines(entries: seq<Entry>, parsed: seq<Entry>)
    requires ValidEntries(parsed + entries)
    ensures ParseLines(FormatLines(entries), parsed) == parsed + entries
            <==> forall e | e in entries :: RoundTrips(e.value)
    decreases |entries|
  {
    if entries == [] {
      assert parsed + entries == parsed;
    } else {
      var e, rest := entries[0], entries[1..];
      assert (parsed + entries)[|parsed|] == e;
      assert Fresh(e.key, parsed) by {
        assert forall i | 0 <= i < |parsed| :: (parsed + entries)[i] == parsed[i];
      }
      assert entries == [e] + rest;
      assert parsed + entries == (parsed + [e]) + rest;
      if RoundTrips(e.value) {
        GoodEntry(e, rest, parsed);
        ParsePrintedLines(rest, parsed + [e]);
      } else {
        BadEntry(e, rest, parsed);
      }
      hide ValidEntries, ParseLines, FormatLines, RoundTrips;
      assert forall x :: x in entries <==> x == e || x in rest;
    }
  }

  /** A value that carries is read and the reader goes on with the next line. */
  lemma GoodEntry(e: Entry, rest: seq<Entry>, parsed: seq<Entry>)
    requires IsKey(e.key) && Fresh(e.key, parsed) && RoundTrips(e.value)
    ensures ParseLines(FormatLines([e] + rest), parsed) == ParseLines(FormatLines(rest), parsed + [e])
  {
    var lines := FormatLines([e] + rest);
    assert lines[0] == FormatEntry(e);
    assert lines[1..] == FormatLines(rest);
    PrintedLine(e);
    PrintedValue(e.value, lines[1..]);
    SetAppends(parsed, e.key, e.value);
    assert lines[1..][0..] == lines[1..];
  }

  /** A value that does not carry is missing or different in the result. */
  lemma BadEntry(e: Entry, rest: seq<Entry>, parsed: seq<Entry>)
    requires ValidEntries((parsed + [e]) + rest) && Fresh(e.key, parsed) && !RoundTrips(e.value)
    ensures ParseLines(FormatLines([e] + rest), parsed) != parsed + [e] + rest
  {
    hide IsKey, HasSeparator, EndsInBackslash, MatchLine, FormatEntry, FormatValue, ReadValue, Set, Lookup;
    var entries := [e] + rest;
    var lines := FormatLines(entries);
    var all := (parsed + [e]) + rest;
    assert all[|parsed|] == e;
    assert lines[0] == FormatEntry(e);
    assert lines[1..] == FormatLines(rest);
    forall i | 0 <= i < |rest| ensures rest[i].key != e.key && IsKey(rest[i].key) {
      assert all[|parsed| + 1 + i] == rest[i];
    }
    PrintedLine(e);
    LookupIn(parsed, e, rest);
    if HasSeparator(e.value) {
      OtherKeysUntouched(rest, parsed, e.key);
    } else {
      PrintedValue(e.value, lines[1..]);
      var q := ReadValue(FormatValue(e.value), lines[1..]);
      assert lines[1..][q.used..] == FormatLines(rest[q.used..]);
      OtherKeysUntouched(rest[q.used..], Set(parsed, e.key, q.raw), e.key);
      LookupSet(parsed, e.key, q.raw, e.key);
    }
  }

  /** Round trip: for entries with distinct identifier keys, parsing the printed text gives back the entries in
      order if and only if no value ends in a backslash or holds one of the two separators. */
  lemma DotenvRoundTrip(entries: seq<Entry>)
    requires ValidEntries(entries)
    ensures Parse(FormatDotenv(entries)) == entries <==> forall e | e in entries :: RoundTrips(e.value)
  {
    var lines := FormatLines(entries);
    forall i | 0 <= i < |lines| ensures Free(lines[i], '\n') && Free(lines[i], '\r') {
      PrintedLine(entries[i]);
    }
    JoinFree(lines);
    NothingToNormalise(Join(lines));
    if entries == [] {
      assert MatchLine("") == None;
    } else {
      SplitJoin(lines);
      assert [] + entries == entries;
      ParsePrintedLines(entries, []);
    }
  }
  // What the parser reads in texts it did not print.

  predicate Blank(s: string) {
    forall i | 0 <= i < |s| :: IsSpace(s[i])
  }

  lemma {:induction false} TrimLeftOff(blank: string, rest: string)
    requires Blank(blank) && (rest == "" || !IsSpace(rest[0]))
    ensures TrimLeft(blank + rest) == rest
  {
    if blank == "" {
      assert blank + rest == rest;
    } else {
      TrimLeftOff(blank[1..], rest);
      assert (blank + rest)[1..] == blank[1..] + rest;
    }
  }

  /** `export` in front of a key, with the white space behind it. */
  predicate IsExport(s: string) {
    s == "" || (|s| > 6 && s[..6] == ['e', 'x', 'p', 'o', 'r', 't'] && Blank(s[6..]))
  }

  lemma {:induction false} KeyEnds(key: string, tail: string)
    requires forall i | 0 <= i < |key| :: IsKeyChar(key[i])
    requires tail == "" || !IsKeyChar(tail[0])
    ensures KeyCharsLength(key + tail) == |key|
  {
    if key == "" {
      assert key + tail == tail;
    } else {
      KeyEnds(key[1..], tail);
      assert (key + tail)[1..] == key[1..] + tail;
    }
  }

  lemma SpaceIsNoKey(c: char)
    requires IsSpace(c) || c == '='
    ensures !IsKeyChar(c) && !IsKeyStart(c)
  {
  }

  /** An assignment with any white space around the equals sign. */
  lemma AssignmentIsRead(key: string, before: string, after: string, rest: string)
    requires IsKey(key) && Blank(before) && Blank(after) && (rest == "" || !IsSpace(rest[0]))
    ensures MatchAssignment(key + before + "=" + after + rest) == if OneLine(rest) then Some(Match(key, rest)) else None
  {
    var tail := before + ("=" + (after + rest));
    var s := key + tail;
    assert key + before + "=" + after + rest == s;
    SpaceIsNoKey(tail[0]);
    KeyEnds(key[1..], tail);
    assert s[1..] == key[1..] + tail && s[|key|..] == tail && s[..|key|] == key;
    TrimLeftOff(before, "=" + (after + rest));
    TrimLeftOff(after, rest);
    assert ("=" + (after + rest))[1..] == after + rest;
    hide IsSpace, OneLine, TrimLeft, KeyCharsLength;
  }

  /** The line pattern: optional white space, an optional `export`, a key, an equals sign and the rest of the line, with
      any white space between them. */
  lemma LineIsRead(indent: string, export_: string, key: string, before: string, after: string, rest: string)
    requires Blank(indent) && IsExport(export_) && IsKey(key) && Blank(before) && Blank(after)
    requires OneLine(rest) && (rest == "" || !IsSpace(rest[0]))
    ensures MatchLine(indent + export_ + key + before + "=" + after + rest) == Some(Match(key, rest))
  {
    hide MatchAssignment, MatchTrimmed, IsKey, TrimLeft;
    var assignment := key + before + "=" + after + rest;
    AssignmentIsRead(key, before, after, rest);
    KeyIsNoSpace(key);
    var line := indent + (export_ + assignment);
    assert indent + export_ + key + before + "=" + after + rest == line;
    assert assignment[0] == key[0];
    if export_ == "" {
      assert export_ + assignment == assignment == key + before + "=" + (after + rest);
      PlainIsRead(key, before, after + rest);
    } else {
      ExportIsNoSpace(export_);
      ExportedIsRead(export_, assignment);
    }
    assert export_ + assignment != "" && !IsSpace((export_ + assignment)[0]);
    TrimLeftOff(indent, export_ + assignment);
  }

  lemma PlainIsRead(key: string, before: string, tail: string)
    requires IsKey(key) && Blank(before)
    ensures MatchTrimmed(key + before + "=" + tail) == MatchAssignment(key + before + "=" + tail)
  {
    hide MatchAssignment, IsKey, TrimLeft;
    NoExport(key, before, tail);
  }

  lemma ExportedIsRead(export_: string, assignment: string)
    requires IsExport(export_) && export_ != "" && assignment != "" && !IsSpace(assignment[0])
    requires MatchAssignment(assignment).Some?
    ensures MatchTrimmed(export_ + assignment) == MatchAssignment(assignment)
  {
    hide MatchAssignment, TrimLeft;
    ExportIsNoSpace(export_);
    assert (export_ + assignment)[6..] == export_[6..] + assignment;
    assert (export_ + assignment)[6] == export_[6];
    TrimLeftOff(export_[6..], assignment);
  }

  lemma KeyIsNoSpace(key: string)
    requires IsKey(key)
    ensures key != "" && !IsSpace(key[0])
  {
  }

  lemma ExportIsNoSpace(export_: string)
    requires IsExport(export_) && export_ != ""
    ensures !IsSpace(export_[0]) && IsSpace(export_[6]) && "export" <= export_
  {
    assert export_[0] == 'e' && export_[6..][0] == export_[6];
  }

  /** A key that is itself `export` is not taken for the prefix. */
  lemma NoExport(key: string, before: string, tail: string)
    requires IsKey(key) && Blank(before)
    ensures
      var s := key + before + "=" + tail;
      "export" <= s && |s| > 6 && IsSpace(s[6]) ==> MatchAssignment(TrimLeft(s[6..])) == None
  {
    var s := key + before + "=" + tail;
    if "export" <= s && |s| > 6 && IsSpace(s[6]) {
      if |key| > 6 {
        assert s[6] == key[6] && IsKeyChar(key[6]);
        SpaceIsNoKey(s[6]);
      }
      if |key| < 6 {
        assert s[|key|] == (before + "=")[0] && IsKeyChar("export"[|key|]);
        SpaceIsNoKey((before + "=")[0]);
      }
      assert s[6..] == before + ("=" + tail);
      TrimLeftOff(before, "=" + tail);
    }
  }

  /** And nothing else is an assignment: what is matched is of that form. */
  lemma MatchIsLine(line: string) returns (indent: string, export_: string, before: string, after: string)
    requires MatchLine(line).Some?
    ensures
      var m := MatchLine(line).value;
      && Blank(indent) && IsExport(export_) && IsKey(m.key) && Blank(before) && Blank(after)
      && OneLine(m.rest) && (m.rest == "" || !IsSpace(m.rest[0]))
      && line == indent + export_ + m.key + before + "=" + after + m.rest
  {
    indent := LeftOff(line);
    export_ := "";
    var s := TrimLeft(line);
    hide MatchAssignment, TrimLeft, IsKey, IsSpace, OneLine;
    if "export" <= s && |s| > 6 && IsSpace(s[6]) && MatchAssignment(TrimLeft(s[6..])).Some? {
      var off := LeftOff(s[6..]);
      SpaceStays(off, s[6..]);
      export_ := s[..6] + off;
      assert export_[6..] == off && s == export_ + TrimLeft(s[6..]);
      before, after := MatchIsAssignment(TrimLeft(s[6..]));
      assert s[..6] == "export" == ['e', 'x', 'p', 'o', 'r', 't'];
    } else {
      before, after := MatchIsAssignment(s);
    }
  }

  lemma SpaceStays(off: string, s: string)
    requires s != "" && IsSpace(s[0]) && s == off + TrimLeft(s)
    ensures off != ""
  {
    TrimLeftStarts(s);
    assert off == "" ==> off + TrimLeft(s) == TrimLeft(s);
  }

  lemma MatchIsAssignment(s: string) returns (before: string, after: string)
    requires MatchAssignment(s).Some?
    ensures
      var m := MatchAssignment(s).value;
      && IsKey(m.key) && Blank(before) && Blank(after) && OneLine(m.rest) && (m.rest == "" || !IsSpace(m.rest[0]))
      && s == m.key + before + "=" + after + m.rest
  {
    hide TrimLeft, IsSpace, OneLine, KeyLength, IsKey;
    var n := KeyLength(s);
    KeyLengthIsRead(s);
    var tail := TrimLeft(s[n..]);
    before := LeftOff(s[n..]);
    after := LeftOff(tail[1..]);
    TrimLeftStarts(tail[1..]);
    assert tail == "=" + tail[1..];
    assert s == s[..n] + s[n..];
  }

  lemma KeyLengthIsRead(s: string)
    ensures KeyLength(s) > 0 ==> IsKey(s[..KeyLength(s)])
  {
    if s != "" {
      KeyIsRead(s[1..]);
      assert forall i | 0 < i < |s| :: s[i] == s[1..][i - 1];
      hide KeyCharsLength;
    }
  }

  lemma {:induction false} KeyIsRead(s: string)
    ensures forall i | 0 <= i < KeyCharsLength(s) :: IsKeyChar(s[i])
  {
    if s != "" && IsKeyChar(s[0]) {
      KeyIsRead(s[1..]);
      forall i | 0 <= i < KeyCharsLength(s) ensures IsKeyChar(s[i]) {
        if i > 0 {
          assert s[i] == s[1..][i - 1];
        }
      }
    }
  }

  /** A hash sign behind white space. */
  predicate CommentAt(s: string, i: nat) {
    i + 1 < |s| && IsSpace(s[i]) && s[i + 1] == '#'
  }

  predicate HasComment(s: string) {
    exists i :: 0 <= i < |s| && CommentAt(s, i)
  }

  /** A comment starts at the first hash sign behind white space, and goes with all the white space before it. */
  lemma {:induction false} CommentIsCut(value: string, blank: string, comment: string)
    requires !HasComment(value) && (value == "" || !IsSpace(value[|value| - 1]))
    requires blank != "" && Blank(blank)
    ensures CutComment(value + blank + "#" + comment) == value
  {
    var s := value + blank + "#" + comment;
    var tail := "#" + comment;
    if value == "" {
      assert s == blank + tail;
      TrimLeftOff(blank, tail);
      assert s[0] == blank[0] && IsSpace(blank[0]);
    } else {
      assert s[1..] == value[1..] + blank + "#" + comment;
      assert forall i: nat | CommentAt(value[1..], i) :: CommentAt(value, i + 1);
      assert value[1..] != "" ==> value[1..][|value| - 2] == value[|value| - 1];
      CommentIsCut(value[1..], blank, comment);
      if IsSpace(value[0]) {
        SpaceBeforeText(value, blank + tail);
        assert s == value + (blank + tail);
      }
      assert [value[0]] + value[1..] == value;
    }
  }

  /** White space that is followed by something else than a hash sign is no comment. */
  lemma {:induction false} SpaceBeforeText(value: string, tail: string)
    requires value != "" && IsSpace(value[0]) && !IsSpace(value[|value| - 1]) && !HasComment(value)
    ensures TrimLeft(value + tail) != "" && TrimLeft(value + tail)[0] != '#'
  {
    assert (value + tail)[1..] == value[1..] + tail && (value + tail)[1] == value[1];
    assert !CommentAt(value, 0);
    if IsSpace(value[1]) {
      assert forall i: nat | CommentAt(value[1..], i) :: CommentAt(value, i + 1);
      SpaceBeforeText(value[1..], tail);
    }
  }

  /** Without one nothing is cut. */
  lemma {:induction false} NothingIsCut(s: string)
    requires !HasComment(s)
    ensures CutComment(s) == s
  {
    if s != "" {
      assert forall i: nat | CommentAt(s[1..], i) :: CommentAt(s, i + 1);
      NothingIsCut(s[1..]);
      if IsSpace(s[0]) {
        NoHashBehind(s);
      }
    }
  }

  lemma {:induction false} NoHashBehind(s: string)
    requires s != "" && IsSpace(s[0]) && !HasComment(s)
    ensures TrimLeft(s) == "" || TrimLeft(s)[0] != '#'
  {
    if |s| > 1 {
      assert !CommentAt(s, 0);
      if IsSpace(s[1]) {
        assert forall i: nat | CommentAt(s[1..], i) :: CommentAt(s, i + 1);
        NoHashBehind(s[1..]);
      }
    }
  }

  /** An unquoted value, with a comment or without: the text before it, without the white space at its ends. */
  lemma UnquotedValue(value: string, blank: string, comment: string, more: seq<string>)
    requires value != "" && !IsQuote(value[0]) && Tight(value) && !HasComment(value) && Blank(blank)
    ensures ReadValue(value + blank, more) == Quoted(value, 0)
    ensures blank != "" ==> ReadValue(value + blank + "#" + comment, more) == Quoted(value, 0)
  {
    if blank != "" {
      CommentIsCut(value, blank, comment);
    }
    NoCommentBeforeEnd(value, blank);
    NothingIsCut(value + blank);
    TrimRightOff(value, blank);
    TrimTight(value);
    hide CutComment, TrimLeft, TrimRight, HasComment;
    assert TrimLeft(value + blank) == value + blank by { StartsTight(value + blank); }
    assert TrimLeft(value) == value by { StartsTight(value); }
  }

  lemma StartsTight(s: string)
    requires s != "" && !IsSpace(s[0])
    ensures TrimLeft(s) == s
  {
  }

  lemma NoCommentBeforeEnd(value: string, blank: string)
    requires value != "" && !HasComment(value) && Blank(blank) && !IsSpace(value[|value| - 1])
    ensures !HasComment(value + blank)
  {
    var s := value + blank;
    forall i: nat | i + 1 < |s| ensures !CommentAt(s, i) {
      assert i + 1 < |value| ==> !CommentAt(value, i);
      assert i + 1 > |value| ==> s[i + 1] == blank[i + 1 - |value|];
    }
  }

  lemma {:induction false} TrimRightOff(s: string, blank: string)
    requires Blank(blank) && (s == "" || !IsSpace(s[|s| - 1]))
    ensures TrimRight(s + blank) == s
  {
    if blank == "" {
      assert s + blank == s;
    } else {
      var n := |blank| - 1;
      TrimRightOff(s, blank[..n]);
      assert (s + blank)[..|s + blank| - 1] == s + blank[..n];
    }
  }

  // Quotes and escapes, letter by letter.

  /** The escapes. */
  lemma EscapesAre(rest: string)
    ensures EscapeChar('\n') == ['\\', 'n'] && EscapeChar('\r') == ['\\', 'r'] && EscapeChar('\t') == ['\\', 't']
    ensures EscapeChar('"') == ['\\', '"'] && EscapeChar('\\') == ['\\', '\\']
    ensures Unescape(['\\', 'n'] + rest) == ['\n'] + Unescape(rest) && Unescape(['\\', 'r'] + rest) == ['\r'] + Unescape(rest)
    ensures Unescape(['\\', 't'] + rest) == ['\t'] + Unescape(rest)
    ensures Unescape(['\\', '"'] + rest) == ['"'] + Unescape(rest) && Unescape(['\\', '\\'] + rest) == ['\\'] + Unescape(rest)
  {
    hide IsSpace;
    UnescapeTwo('n', rest);
    UnescapeTwo('r', rest);
    UnescapeTwo('t', rest);
    UnescapeTwo('"', rest);
    UnescapeTwo('\\', rest);
  }

  lemma UnescapeTwo(c: char, rest: string)
    requires c in ['n', 'r', 't', '"', '\\']
    ensures Unescape(['\\', c] + rest) == [UnescapeChar(c)] + Unescape(rest)
  {
    assert (['\\', c] + rest)[2..] == rest;
  }

  /** All other characters are printed and read as they are; a backslash in front of another one stays. */
  lemma OthersAreLiteral(c: char, rest: string)
    requires c !in ['\n', '\r', '\t', '"', '\\']
    ensures EscapeChar(c) == [c] && Unescape([c] + rest) == [c] + Unescape(rest)
    ensures c !in ['n', 'r', 't'] ==> Unescape(['\\', c] + rest) == ['\\', c] + Unescape(rest)
  {
    assert ([c] + rest)[1..] == rest;
    assert (['\\', c] + rest)[1..] == [c] + rest;
    assert ['\\'] + ([c] + Unescape(rest)) == ['\\', c] + Unescape(rest);
  }

  /** A value is printed as it is exactly if it has none of seven characters and no white space at its ends. */
  lemma PrintedPlain(value: string)
    ensures FormatValue(value) == value <==>
      && (forall c | c in value :: c !in ['\n', '\r', '\t', '#', '"', '\'', '\\'])
      && Tight(value)
  {
    EscapeGrows(value);
    assert forall i | 0 <= i < |value| :: value[i] in value;
    if exists c :: c in value && NeedsQuotesFor(c) {
      var c :| c in value && NeedsQuotesFor(c);
      var i :| 0 <= i < |value| && value[i] == c;
    }
    assert forall c :: NeedsQuotesFor(c) <==> c in ['\n', '\r', '\t', '#', '"', '\'', '\\'];
    hide NeedsQuotesFor, IsSpace, Escape;
    if NeedsQuotes(value) {
      assert |FormatValue(value)| > |value|;
    }
  }

  lemma {:induction false} EscapeGrows(value: string)
    ensures |Escape(value)| >= |value|
  {
    if value != "" {
      EscapeGrows(value[1..]);
    }
  }

  /** Line breaks of all three kinds become one. */
  lemma {:induction false} NewlinesAre(before: string, after: string)
    requires Free(before, '\r')
    ensures NormaliseNewlines(before + ['\r', '\n'] + after) == before + ['\n'] + NormaliseNewlines(after)
    ensures after == "" || after[0] != '\n' ==>
      NormaliseNewlines(before + ['\r'] + after) == before + ['\n'] + NormaliseNewlines(after)
    ensures NormaliseNewlines(before + ['\n'] + after) == before + ['\n'] + NormaliseNewlines(after)
  {
    var crlf, cr, lf := before + ['\r', '\n'] + after, before + ['\r'] + after, before + ['\n'] + after;
    if before == "" {
      assert crlf[2..] == after && cr[1..] == after && lf[1..] == after;
    } else {
      assert Free(before[1..], '\r') && before[0] != '\r';
      hide Free;
      NewlinesAre(before[1..], after);
      assert crlf[1..] == before[1..] + ['\r', '\n'] + after;
      assert cr[1..] == before[1..] + ['\r'] + after && lf[1..] == before[1..] + ['\n'] + after;
      assert before == [before[0]] + before[1..];
    }
  }

  /** A quote closes, unless it is a double one behind a backslash. */
  predicate Closes(s: string, quote: char, i: nat) {
    i < |s| && s[i] == quote && (quote == '\'' || i == 0 || s[i - 1] != '\\')
  }

  /** A quoted text, and the first `n` of the lines after it. */
  function Spanning(rest: string, more: seq<string>, n: nat): string
    requires n <= |more|
  {
    if n == 0 then rest else Spanning(rest, more, n - 1) + "\n" + more[n - 1]
  }

  lemma {:induction false} SpanningNext(rest: string, more: seq<string>, n: nat)
    requires 0 < n <= |more|
    ensures Spanning(rest, more, n) == Spanning(rest + "\n" + more[0], more[1..], n - 1)
  {
    if n > 1 {
      SpanningNext(rest, more, n - 1);
    }
  }

  /** A quoted value ends at the first closing quote, on the first line that has one; without any, at the end. */
  lemma {:induction false} QuotedSpans(rest: string, quote: char, more: seq<string>)
    requires IsQuote(quote)
    ensures
      var q := ReadQuoted(rest, quote, more);
      var text := Spanning(rest, more, q.used);
      && (forall n, i: nat | 0 <= n < q.used :: !Closes(Spanning(rest, more, n), quote, i))
      && (if q.raw == text then q.used == |more| && forall i: nat :: !Closes(text, quote, i)
          else |q.raw| < |text| && q.raw == text[..|q.raw|] && Closes(text, quote, |q.raw|)
               && forall i: nat | i < |q.raw| :: !Closes(text, quote, i))
    decreases |more|
  {
    var q := ReadQuoted(rest, quote, more);
    FirstClosing(rest, quote, 0);
    var end := ClosingQuote(rest, quote, 0);
    if end < 0 && more != [] {
      var next := rest + "\n" + more[0];
      QuotedSpans(next, quote, more[1..]);
      SpanningNext(rest, more, q.used);
      forall n, i: nat | 0 <= n < q.used ensures !Closes(Spanning(rest, more, n), quote, i) {
        if n > 0 {
          SpanningNext(rest, more, n);
        }
      }
    }
  }

  lemma {:induction false} FirstClosing(s: string, quote: char, i: nat)
    requires i <= |s| && IsQuote(quote)
    ensures
      var end := ClosingQuote(s, quote, i);
      && (end >= 0 ==> Closes(s, quote, end))
      && forall k | i <= k < |s| && (end >= 0 ==> k < end) :: !Closes(s, quote, k)
    decreases |s| - i
  {
    if i < |s| && !Closes(s, quote, i) {
      FirstClosing(s, quote, i + 1);
    }
  }

  /** The last value of a key wins, in the place of the first. */
  lemma {:induction false} SetReplaces(before: seq<Entry>, e: Entry, after: seq<Entry>, value: string)
    requires Fresh(e.key, before)
    ensures Set(before + [e] + after, e.key, value) == before + [Entry(e.key, value)] + after
  {
    var all := before + [e] + after;
    if before == [] {
      assert all[1..] == after;
    } else {
      assert all[1..] == before[1..] + [e] + after;
      SetReplaces(before[1..], e, after, value);
    }
  }

  /** A line that is no assignment is skipped, and one that is sets its key to what its value says. */
  lemma LinesAreTaken(line: string, more: seq<string>, entries: seq<Entry>)
    ensures MatchLine(line) == None ==> ParseLines([line] + more, entries) == ParseLines(more, entries)
    ensures MatchLine(line).Some? ==>
      var m := MatchLine(line).value;
      var q := ReadValue(m.rest, more);
      ParseLines([line] + more, entries) == ParseLines(more[q.used..], Set(entries, m.key, q.raw))
  {
    assert ([line] + more)[1..] == more;
  }

  /** Any unquoted assignment, exported or not, with any white space and a comment: one entry. */
  lemma AssignmentIsParsed(indent: string, export_: string, key: string, before: string, after: string, value: string,
                           blank: string, comment: string)
    requires Blank(indent) && IsExport(export_) && IsKey(key) && Blank(before) && Blank(after) && Blank(blank) && blank != ""
    requires value != "" && !IsQuote(value[0]) && Tight(value) && !HasComment(value)
    requires OneLine(value + blank + "#" + comment)
    ensures ParseLines([indent + export_ + key + before + "=" + after + (value + blank + "#" + comment)], [])
      == [Entry(key, value)]
  {
    var rest := value + blank + "#" + comment;
    LineIsRead(indent, export_, key, before, after, rest);
    UnquotedValue(value, blank, comment, []);
    LinesAreTaken(indent + export_ + key + before + "=" + after + rest, [], []);
    hide MatchLine, ReadValue, IsKey, Blank, HasComment, OneLine;
    assert Set([], key, value) == [Entry(key, value)];
    var line := indent + export_ + key + before + "=" + after + rest;
    assert [line] + [] == [line];
  }
  /** The keys: letters, digits and underscores, without a digit in front. */
  lemma KeysAre(s: string)
    ensures IsKey(s) <==>
      && s != "" && s[0] !in "0123456789"
      && forall c | c in s ::
           c in "abcdefghijklmnopqrstuvwxyz" || c in "ABCDEFGHIJKLMNOPQRSTUVWXYZ" || c in "0123456789" || c == '_'
  {
    forall c
      ensures IsKeyChar(c) <==>
        c in "abcdefghijklmnopqrstuvwxyz" || c in "ABCDEFGHIJKLMNOPQRSTUVWXYZ" || c in "0123456789" || c == '_'
      ensures IsKeyStart(c) <==> IsKeyChar(c) && c !in "0123456789"
    {
      CharacterClasses(c);
    }
    assert forall i | 0 <= i < |s| :: s[i] in s;
    hide IsKeyStart, IsKeyChar;
  }
}
