/** What a docker command prints: cut into lines while it arrives, with a rolling tail for the error message. */
module DockerOutput {
  import opened Text

  const TAIL := 16384
  const MAX_LINE := 8192

  /** One stream so far: the text after the last line break, and the lines that were reported. */
  datatype Reader = Reader(pending: string, lines: seq<string>)

  function Cut(lines: seq<string>): (r: seq<string>)
    ensures |r| == |lines|
  {
    seq(|lines|, i requires 0 <= i < |lines| => Take(lines[i], MAX_LINE))
  }

  /** All pieces but the last, which the next chunk may go on. */
  function Complete(pieces: seq<string>): seq<string>
    requires pieces != []
  {
    pieces[..|pieces| - 1]
  }

  function Rest(pieces: seq<string>): string
    requires pieces != []
  {
    pieces[|pieces| - 1]
  }

  function Lines(text: string): (pieces: seq<string>)
    ensures pieces != []
  {
    Split(text, '\n')
  }

  /** A chunk arrives: complete lines are reported, and an overlong rest is reported and thrown away. */
  function Fed(r: Reader, chunk: string): Reader {
    var pieces := Lines(r.pending + chunk);
    var lines := r.lines + Cut(Complete(pieces));
    if |Rest(pieces)| > MAX_LINE then Reader("", lines + [Take(Rest(pieces), MAX_LINE)])
    else Reader(Rest(pieces), lines)
  }

  /** The stream ends: what is pending is the last line. */
  function Ended(r: Reader): seq<string> {
    if r.pending == "" then r.lines else r.lines + [r.pending]
  }

  function FedAll(chunks: seq<string>): Reader {
    if chunks == [] then Reader("", []) else Fed(FedAll(chunks[..|chunks| - 1]), chunks[|chunks| - 1])
  }

  lemma FedStep(chunks: seq<string>, text: string)
    ensures FedAll(chunks + [text]) == Fed(FedAll(chunks), text)
  {
  }

  function Concat(chunks: seq<string>): string {
    if chunks == [] then "" else Concat(chunks[..|chunks| - 1]) + chunks[|chunks| - 1]
  }

  /** The lines of a whole text: split at line breaks, without an empty piece at the end. */
  function LinesOf(text: string): seq<string> {
    if Rest(Lines(text)) == "" then Complete(Lines(text)) else Lines(text)
  }

  predicate Short(lines: seq<string>) {
    forall i | 0 <= i < |lines| :: |lines[i]| <= 8192
  }

  /** The lines of a text have no line breaks, and each with one behind it they make the text, which may lack the last. */
  lemma LinesAreWhole(text: string)
    ensures AllFree(LinesOf(text), '\n')
    ensures Terminated(LinesOf(text), '\n') == text + if text == "" || text[|text| - 1] == '\n' then "" else "\n"
  {
    SplitJoins(text, '\n');
    var pieces := Split(text, '\n');
    var whole, last := pieces[..|pieces| - 1], pieces[|pieces| - 1];
    hide Split;
    if last == "" {
      TerminatedEnds(whole, '\n');
    } else {
      assert whole + [last] == pieces;
      TerminatedSnoc(whole, last, '\n');
    }
  }

  lemma {:induction false} TerminatedSnoc(pieces: seq<string>, last: string, separator: char)
    ensures Terminated(pieces + [last], separator) == Terminated(pieces, separator) + last + [separator]
  {
    if pieces == [] {
      assert Terminated([], separator) == "";
    } else {
      TerminatedSnoc(pieces[1..], last, separator);
      assert (pieces + [last])[1..] == pieces[1..] + [last];
    }
  }

  lemma {:induction false} TerminatedEnds(pieces: seq<string>, separator: char)
    ensures
      var text := Terminated(pieces, separator);
      if pieces == [] then text == "" else text != "" && text[|text| - 1] == separator
  {
    if pieces != [] {
      TerminatedEnds(pieces[1..], separator);
    }
  }

  /** What a chunk reports, said of the text it completes: each whole line, cut to 8192 characters; and of the rest, if it
      is longer than that, the first 8192, the others being dropped. A shorter rest waits. */
  lemma FedReports(r: Reader, chunk: string, whole: seq<string>, rest: string)
    requires r.pending + chunk == Terminated(whole, '\n') + rest && AllFree(whole, '\n') && Free(rest, '\n')
    ensures
      var t := Fed(r, chunk);
      var reported := t.lines[|r.lines|..];
      && r.lines <= t.lines && |reported| == |whole| + (if |rest| > 8192 then 1 else 0)
      && (forall i | 0 <= i < |whole| :: reported[i] == if |whole[i]| <= 8192 then whole[i] else whole[i][..8192])
      && (if |rest| > 8192 then reported[|whole|] == rest[..8192] && t.pending == "" else t.pending == rest)
  {
    SplitTerminated(whole, rest, '\n');
    hide Split, Terminated;
    assert (whole + [rest])[..|whole|] == whole;
  }

  /** How the first character of a text changes its pieces. */
  function Prepend(c: char, pieces: seq<string>): (r: seq<string>)
    requires pieces != []
    ensures r != []
  {
    if c == '\n' then [""] + pieces else [[c] + pieces[0]] + pieces[1..]
  }

  lemma PrependParts(c: char, pieces: seq<string>, more: seq<string>)
    requires |pieces| > 0 && |more| > 0
    ensures |pieces| > 1 || c == '\n' ==>
      Complete(Prepend(c, pieces)) + more == Prepend(c, Complete(pieces) + more) &&
      Rest(Prepend(c, pieces)) == Rest(pieces)
    ensures |pieces| == 1 && c != '\n' ==>
      Complete(Prepend(c, pieces)) == [] && Rest(Prepend(c, pieces)) == [c] + Rest(pieces)
  {
  }

  lemma LinesStep(c: char, s: string)
    ensures Lines([c] + s) == Prepend(c, Lines(s))
  {
  }

  /** Splitting a text in two steps: the last piece of the first part goes on into the second. */
  lemma {:induction false} SplitConcat(s: string, t: string)
    ensures Lines(s + t) == Complete(Lines(s)) + Lines(Rest(Lines(s)) + t)
  {
    if s == "" {
      assert s + t == t && Rest(Lines(s)) + t == t;
    } else {
      var c, tail := s[0], s[1..];
      assert s == [c] + tail && s + t == [c] + (tail + t);
      hide Lines, Prepend, Complete, Rest;
      SplitConcat(tail, t);
      LinesStep(c, tail);
      LinesStep(c, tail + t);
      var pieces := Lines(tail);
      PrependParts(c, pieces, Lines(Rest(pieces) + t));
      if |pieces| == 1 && c != '\n' {
        OnePiece(pieces, Lines(Rest(pieces) + t));
        LinesStep(c, Rest(pieces) + t);
        assert [c] + (Rest(pieces) + t) == ([c] + Rest(pieces)) + t;
      }
    }
  }

  lemma OnePiece(pieces: seq<string>, more: seq<string>)
    requires |pieces| == 1
    ensures Complete(pieces) + more == more
  {
  }

  /** The piece that goes on only gets longer. */
  lemma {:induction false} RestIsFree(s: string)
    ensures Free(Rest(Lines(s)), '\n')
  {
    if s != "" {
      RestIsFree(s[1..]);
    }
  }

  lemma {:induction false} FirstPieceContains(s: string, t: string)
    requires Free(s, '\n')
    ensures |s| <= |Lines(s + t)[0]|
  {
    if s != "" {
      assert (s + t)[1..] == s[1..] + t;
      FirstPieceContains(s[1..], t);
    }
  }

  lemma ShortParts(pieces: seq<string>, more: seq<string>)
    requires pieces != [] && more != [] && Short(Complete(pieces) + more) && |Rest(pieces)| <= |more[0]|
    ensures Short(pieces) && Short(more)
  {
    var all := Complete(pieces) + more;
    assert forall i | 0 <= i < |pieces| - 1 :: all[i] == pieces[i];
    assert forall i | 0 <= i < |more| :: all[|pieces| - 1 + i] == more[i];
    assert |more[0]| <= MAX_LINE;
  }

  lemma CutShort(lines: seq<string>)
    requires lines != [] && Short(lines)
    ensures Cut(Complete(lines)) == Complete(lines) && |Rest(lines)| <= MAX_LINE
  {
  }

  lemma TwoSteps(pieces: seq<string>, more: seq<string>)
    requires pieces != [] && more != []
    ensures Complete(Complete(pieces) + more) == Complete(pieces) + Complete(more)
    ensures Rest(Complete(pieces) + more) == Rest(more)
  {
  }

  /** While no line is too long, the reader has reported all pieces but the last, which is pending. */
  lemma {:induction false} FedIsSplit(chunks: seq<string>)
    requires Short(Lines(Concat(chunks)))
    ensures FedAll(chunks) == Reader(Rest(Lines(Concat(chunks))), Complete(Lines(Concat(chunks))))
  {
    if chunks != [] {
      var before, chunk := Concat(chunks[..|chunks| - 1]), chunks[|chunks| - 1];
      var pieces := Lines(before);
      var next := Lines(Rest(pieces) + chunk);
      SplitConcat(before, chunk);
      RestIsFree(before);
      FirstPieceContains(Rest(pieces), chunk);
      hide Lines, Short, Cut, Complete, Rest;
      ShortParts(pieces, next);
      FedIsSplit(chunks[..|chunks| - 1]);
      CutShort(next);
      TwoSteps(pieces, next);
    }
  }

  /** Whatever arrives, nothing longer than 8192 characters is ever reported or kept. */
  lemma {:induction false} FedIsBounded(chunks: seq<string>)
    ensures |FedAll(chunks).pending| <= 8192 && forall i | 0 <= i < |FedAll(chunks).lines| :: |FedAll(chunks).lines[i]| <= 8192
    ensures Short(Ended(FedAll(chunks)))
  {
    if chunks != [] {
      FedIsBounded(chunks[..|chunks| - 1]);
    }
  }

  /** Streaming refines splitting: for every way of cutting a text into chunks, the lines reported are those of the
      whole text if and only if none of them is longer than 8192 characters. */
  lemma StreamingIsSplitting(chunks: seq<string>)
    ensures Ended(FedAll(chunks)) == LinesOf(Concat(chunks)) <==> Short(LinesOf(Concat(chunks)))
  {
    hide Lines, Concat, FedAll;
    FedIsBounded(chunks);
    if Short(LinesOf(Concat(chunks))) {
      ShortLines(Lines(Concat(chunks)));
      FedIsSplit(chunks);
      var pieces := Lines(Concat(chunks));
      assert Complete(pieces) + [Rest(pieces)] == pieces;
    }
  }

  lemma ShortLines(pieces: seq<string>)
    requires pieces != [] && Short(if Rest(pieces) == "" then Complete(pieces) else pieces)
    ensures Short(pieces)
  {
  }

  /** An overlong line is reported differently depending on where the chunks end. */
  lemma LongLinesDependOnChunks() returns (one: seq<string>, two: seq<string>)
    ensures Concat(one) == Concat(two) && Ended(FedAll(one)) != Ended(FedAll(two))
  {
    var long := seq(MAX_LINE + 1, _ => 'x');
    one, two := [long + ['\n']], [long, ['\n']];
    OneChunk(long);
    TwoChunks(long);
    assert one[..0] == [] && two[..1] == [long] && [long][..0] == [];
    hide FedAll, Ended;
    assert Concat([long]) == long by { assert "" + long == long; }
    assert Concat(one) == long + ['\n'] by { assert "" + (long + ['\n']) == long + ['\n']; }
  }

  lemma OneChunk(long: string)
    requires Free(long, '\n') && |long| > MAX_LINE
    ensures |Ended(FedAll([long + ['\n']]))| == 1
  {
    SplitFirst(long, '\n', "");
    assert long + ['\n'] + "" == long + ['\n'] && "" + (long + ['\n']) == long + ['\n'];
    hide Split, Take;
    assert [long + ['\n']][..0] == [];
    assert Lines("") == [""] by { SplitFree("", '\n'); }
  }

  lemma TwoChunks(long: string)
    requires Free(long, '\n') && |long| > MAX_LINE
    ensures |Ended(FedAll([long, ['\n']]))| == 2
  {
    assert [long, ['\n']][..1] == [long] && [long][..0] == [];
    assert FedAll([long]) == Fed(Reader("", []), long);
    hide FedAll;
    SplitFree(long, '\n');
    assert "" + long == long;
    hide Split, Take;
    assert FedAll([long]) == Reader("", [Take(long, MAX_LINE)]);
    assert "" + ['\n'] == "" + ['\n'] + "" == ['\n'];
    SplitFirst("", '\n', "");
    SplitFree("", '\n');
    FedStep([long], ['\n']);
    assert [long] + [['\n']] == [long, ['\n']];
  }

  /** The listener on one stream of a command. */
  class StreamReader {
    var pending: string
    var lines: seq<string>
    ghost var chunks: seq<string>

    ghost predicate Valid()
      reads this
    {
      FedAll(chunks) == Reader(pending, lines)
    }

    constructor ()
      ensures Valid() && chunks == []
    {
      pending, lines, chunks := "", [], [];
    }

    method OnData(text: string)
      requires Valid()
      modifies this
      ensures Valid() && chunks == old(chunks) + [text]
    {
      FedStep(chunks, text);
      hide Lines, FedAll, Take;
      var pieces := Lines(pending + text);
      pending := Rest(pieces);
      pieces := Complete(pieces);
      ghost var before := lines;
      for i := 0 to |pieces|
        invariant lines == before + Cut(pieces)[..i]
        invariant chunks == old(chunks) && pending == Rest(old(Lines(pending + text)))
      {
        lines := lines + [Take(pieces[i], MAX_LINE)];
      }
      if |pending| > MAX_LINE {
        lines := lines + [Take(pending, MAX_LINE)];
        pending := "";
      }
      chunks := chunks + [text];
    }

    /** The lines of the whole stream, if none was too long. */
    method OnEnd()
      requires Valid()
      modifies this`lines
      ensures lines == Ended(FedAll(chunks))
      ensures Short(lines)
      ensures lines == LinesOf(Concat(chunks)) <==> Short(LinesOf(Concat(chunks)))
    {
      FedIsBounded(chunks);
      StreamingIsSplitting(chunks);
      if pending != "" {
        lines := lines + [pending];
      }
    }
  }

  /** A running command: both streams, and the tail of everything printed, in the order it arrived. */
  class DockerCall {
    const stdout: StreamReader
    const stderr: StreamReader
    var output: string
    ghost var printed: string

    ghost predicate Valid()
      reads this, stdout, stderr
    {
      stdout != stderr && stdout.Valid() && stderr.Valid() && output == Last(printed, TAIL)
    }

    constructor ()
      ensures Valid() && fresh(stdout) && fresh(stderr) && printed == ""
      ensures stdout.chunks == [] && stderr.chunks == []
    {
      stdout := new StreamReader();
      stderr := new StreamReader();
      output, printed := "", "";
    }

    method OnData(reader: StreamReader, text: string)
      requires Valid() && reader in {stdout, stderr}
      modifies this`output, this`printed, reader
      ensures Valid() && printed == old(printed) + text
      ensures |output| == (if |printed| < 16384 then |printed| else 16384) && output == printed[|printed| - |output|..]
      ensures reader.chunks == old(reader.chunks) + [text]
    {
      output := Last(output + text, TAIL);
      printed := printed + text;
      LastOfLast(old(printed), text, TAIL);
      reader.OnData(text);
    }
  }

  /** The tail can be kept without keeping the text. */
  lemma LastOfLast(s: string, t: string, n: nat)
    ensures Last(Last(s, n) + t, n) == Last(s + t, n)
  {
    if |s| > n {
      var lost, kept := s[..|s| - n], s[|s| - n..];
      assert Last(s, n) == kept && s + t == lost + (kept + t);
      LastBehind(lost, kept + t, n);
    }
  }

  lemma LastBehind(lost: string, kept: string, n: nat)
    requires |kept| >= n
    ensures Last(lost + kept, n) == Last(kept, n)
  {
    assert (lost + kept)[|lost + kept| - n..] == kept[|kept| - n..];
  }
}
