/** The log buffer of a running build: a bounded ring, a pump that sends batches, and the count of lost lines. */
module AgentLogs {
  import opened Text
  import opened Wrappers

  const CAPACITY := 512
  const BATCH := 100
  const MAX_MESSAGE := 8192
  const MAX_ERROR := 2000

  datatype LogLine = LogLine(sequence: nat, container: string, message: string, ts: string)

  /** A batch as it is sent, with the drop count its first line reports. */
  datatype Batch = Batch(lines: seq<LogLine>, dropped: nat) {
    function First(): nat requires lines != [] { lines[0].sequence }
    function Final(): nat requires lines != [] { lines[|lines| - 1].sequence }
  }

  /** The `flushing` promise: none, a request under way, or one that is answered and about to be cleared. */
  datatype Flush = Idle | Flying(batch: Batch) | Settling

  /** The whole history of a build's log: everything emitted, where the buffer starts, the current drop count,
      the request under way, the acknowledged batches and the sequence numbers shifted out. */
  datatype Log = Log(
    emitted: seq<LogLine>,
    start: nat,
    dropped: nat,
    flush: Flush,
    acked: seq<Batch>,
    shifted: seq<nat>)

  const EMPTY := Log([], 0, 0, Idle, [], [])

  datatype Event =
    | Emit(container: string, text: string, ts: string)
    | StartFlush
    | Acknowledge
    | Reject
    | Settle

  function Notice(dropped: nat): string {
    "[" + Decimal(dropped) + " " + "earlier log lines were dropped while the server was unavailable]\n"
  }

  /** How many lines a message says were dropped, if it starts with a notice: a bracket, a number and the words. */
  function Told(message: string): Option<nat> {
    NumberBefore(message, " " + "earlier log lines were dropped while the server was unavailable]\n")
  }

  function NumberBefore(message: string, words: string): Option<nat> {
    if message == "" || message[0] != '[' then None
    else
      var n := DigitsLength(message[1..]);
      if n > 0 && words <= message[1 + n..] then Some(NumberOf(message[1..1 + n])) else None
  }

  lemma NoticeParts(count: nat)
    ensures
      var digits, words := Decimal(count), " " + "earlier log lines were dropped while the server was unavailable]\n";
      && Notice(count) == "[" + digits + words && |words| == 66 && words[0] == ' '
      && |Notice(count)| == 67 + |digits|
      && digits != "" && (forall i | 0 <= i < |digits| :: IsDigit(digits[i])) && NumberOf(digits) == count
  {
    DecimalDigits(count);
    DecimalIsRead(count);
  }

  /** A notice in front of any message tells its count, exactly if it fits into a message. */
  lemma NoticeIsTold(count: nat, message: string)
    ensures Told(Take(Notice(count) + message, 8192)) == Some(count) <==> |Notice(count)| <= 8192
  {
    NoticeParts(count);
    hide Decimal, Notice, NumberOf, DigitsLength, IsDigit;
    var digits, words := Decimal(count), " " + "earlier log lines were dropped while the server was unavailable]\n";
    var all := Notice(count) + message;
    var sent := Take(all, 8192);
    assert all == "[" + digits + (words + message);
    if |Notice(count)| <= 8192 {
      var rest := Take(message, 8192 - |Notice(count)|);
      assert sent == "[" + digits + (words + rest);
      WholeNotice(digits, words, rest);
    } else {
      CutNotice(digits, words, sent);
    }
  }

  lemma WholeNotice(digits: string, words: string, rest: string)
    requires digits != "" && forall i | 0 <= i < |digits| :: IsDigit(digits[i])
    requires words != "" && words[0] == ' '
    ensures NumberBefore("[" + digits + (words + rest), words) == Some(NumberOf(digits))
  {
    hide IsDigit, DigitsLength, NumberOf, NumberBefore;
    SpaceIsNoDigit();
    var tail, sent := words + rest, "[" + digits + (words + rest);
    DigitsBefore(digits, tail);
    assert sent[1..] == digits + tail;
    NumberFound(sent, words, digits, rest);
  }

  lemma NumberFound(message: string, words: string, digits: string, rest: string)
    requires digits != "" && message == "[" + digits + (words + rest) && DigitsLength(message[1..]) == |digits|
    ensures NumberBefore(message, words) == Some(NumberOf(digits))
  {
    hide DigitsLength, NumberOf;
    var n := |digits|;
    assert message[1 + n..] == words + rest && message[1..1 + n] == digits;
  }

  lemma SpaceIsNoDigit()
    ensures !IsDigit(' ')
  {
  }

  lemma CutNotice(digits: string, words: string, sent: string)
    requires |sent| == 8192 < 67 + |digits| && forall i | 0 <= i < |digits| && i + 1 < |sent| :: sent[1 + i] == digits[i]
    requires forall i | 0 <= i < |digits| :: IsDigit(digits[i])
    requires |words| == 66
    ensures NumberBefore(sent, words) == None
  {
    var n := if |digits| < 8191 then |digits| else 8191;
    assert sent[1..1 + n] == digits[..n] && sent[1..] == sent[1..1 + n] + sent[1 + n..];
    LeadingDigits(sent[1..1 + n], sent[1 + n..]);
  }

  /** It does for every number the program counts exactly. */
  lemma NoticeFits(count: nat)
    requires count <= 9_007_199_254_740_991
    ensures |Notice(count)| <= 83
  {
    NoticeParts(count);
    assert PowerOfTen(4) == 10_000;
    assert PowerOfTen(8) == 100_000_000;
    assert PowerOfTen(12) == 1_000_000_000_000;
    assert PowerOfTen(16) == 10_000_000_000_000_000;
    DecimalIsShort(count, 16);
  }

  /** Two counts never give the same message. */
  lemma NoticesDiffer(c: nat, d: nat, message: string, other: string)
    requires |Notice(c)| <= 8192 && |Notice(d)| <= 8192 && c != d
    ensures Take(Notice(c) + message, 8192) != Take(Notice(d) + other, 8192)
  {
    NoticeIsTold(c, message);
    NoticeIsTold(d, other);
    hide Notice;
  }

  /** A line that carries a notice differs from what was printed, unless that fills a message and starts with the very
      same notice. */
  lemma NotedDiffers(count: nat, message: string)
    requires |Notice(count)| <= 8192 && Take(Notice(count) + message, 8192) == message
    ensures |message| == 8192 && Told(message) == Some(count)
  {
    NoticeParts(count);
    NoticeIsTold(count, message);
    hide Notice, Told;
  }

  /** The lines of a batch: the first one carries the drop notice, if there is anything to report. */
  function WithNotice(lines: seq<LogLine>, dropped: nat): (r: seq<LogLine>)
    requires lines != []
    ensures |r| == |lines| && forall i | 0 <= i < |lines| :: r[i].sequence == lines[i].sequence
  {
    if dropped == 0 then lines
    else lines[0 := lines[0].(message := Take(Notice(dropped) + lines[0].message, MAX_MESSAGE))]
  }

  /** A line is added; a full buffer loses its first one. */
  function Emitted(s: Log, container: string, text: string, ts: string): Log
    requires s.start <= |s.emitted|
  {
    var grown := s.(emitted := s.emitted + [LogLine(|s.emitted|, container, Take(text, MAX_MESSAGE), ts)]);
    if |s.emitted| - s.start < CAPACITY then grown
    else grown.(start := s.start + 1, dropped := s.dropped + 1, shifted := s.shifted + [s.start])
  }

  /** The next batch is sent, unless one is under way or there is nothing to send. */
  function Flushed(s: Log): Log
    requires s.start <= |s.emitted|
  {
    if !s.flush.Idle? || s.start == |s.emitted| then s
    else
      var end := if |s.emitted| - s.start < BATCH then |s.emitted| else s.start + BATCH;
      s.(flush := Flying(Batch(WithNotice(s.emitted[s.start..end], s.dropped), s.dropped)))
  }

  /** The request under way succeeds: the buffer moves past the batch, and its drop count is settled. */
  function Acknowledged(s: Log): Log
    requires s.start <= |s.emitted| && s.flush.Flying? && s.flush.batch.lines != []
  {
    var b := s.flush.batch;
    var after := b.Final() + 1;
    s.(start := if after < s.start then s.start else if after <= |s.emitted| then after else |s.emitted|,
       dropped := if s.dropped < b.dropped then 0 else s.dropped - b.dropped,
       flush := Settling,
       acked := s.acked + [b])
  }

  /** What each step does to the history. */
  function Next(s: Log, e: Event): Log
    requires s.start <= |s.emitted|
  {
    match e
    case Emit(container, text, ts) => Emitted(s, container, text, ts)
    case StartFlush => Flushed(s)
    case Acknowledge => if s.flush.Flying? && s.flush.batch.lines != [] then Acknowledged(s) else s
    case Reject => if s.flush.Flying? then s.(flush := Settling) else s
    case Settle => if s.flush.Settling? then s.(flush := Idle) else s
  }

  function SumDropped(batches: seq<Batch>): nat {
    if batches == [] then 0 else SumDropped(batches[..|batches| - 1]) + batches[|batches| - 1].dropped
  }

  predicate Covers(b: Batch, n: nat) {
    b.lines != [] && b.First() <= n <= b.Final()
  }

  /** A batch holds a contiguous stretch of the emitted lines, unchanged but for the notice on the first. */
  predicate IsStretch(b: Batch, emitted: seq<LogLine>) {
    && 0 < |b.lines| <= BATCH
    && b.Final() < |emitted|
    && b.First() + |b.lines| == b.Final() + 1
    && b.lines == WithNotice(emitted[b.First()..b.Final() + 1], b.dropped)
  }

  ghost predicate Numbered(emitted: seq<LogLine>) {
    forall i | 0 <= i < |emitted| :: emitted[i].sequence == i && |emitted[i].message| <= MAX_MESSAGE
  }

  /** All lines of the batches come before number `n`. */
  ghost predicate Below(batches: seq<Batch>, n: nat) {
    forall i | 0 <= i < |batches| :: batches[i].lines != [] && batches[i].Final() < n
  }

  /** Every batch comes after all earlier ones. */
  ghost predicate Increasing(batches: seq<Batch>) {
    batches == [] ||
      var before, b := batches[..|batches| - 1], batches[|batches| - 1];
      b.lines != [] && Increasing(before) && Below(before, b.First())
  }

  ghost predicate AreStretches(batches: seq<Batch>, emitted: seq<LogLine>) {
    forall i | 0 <= i < |batches| :: IsStretch(batches[i], emitted)
  }

  /** Acknowledged batches are stretches of the log, in strictly increasing ranges below the buffer. */
  ghost predicate Ordered(s: Log) {
    AreStretches(s.acked, s.emitted) && Increasing(s.acked) && Below(s.acked, s.start)
  }

  /** Every line below the buffer was acknowledged or shifted out, and shifted lines are counted. */
  ghost predicate Accounted(s: Log) {
    && (forall i | 0 <= i < |s.shifted| :: s.shifted[i] < s.start)
    && (forall i, j | 0 <= i < j < |s.shifted| :: s.shifted[i] < s.shifted[j])
    && (forall n: nat | n < s.start :: n in s.shifted || exists i :: 0 <= i < |s.acked| && Covers(s.acked[i], n))
    && |s.shifted| == s.dropped + SumDropped(s.acked)
  }

  /** The request under way starts above everything acknowledged and not above the buffer; the drop count has not
      shrunk since, and where it has grown there is a line behind the batch. */
  ghost predicate InFlight(s: Log) {
    match s.flush
    case Flying(b) =>
      && IsStretch(b, s.emitted)
      && b.First() <= s.start < |s.emitted|
      && Below(s.acked, b.First())
      && b.dropped <= s.dropped
      && (b.dropped < s.dropped ==> b.Final() + 1 < |s.emitted|)
    case _ => s.dropped > 0 ==> s.start < |s.emitted|
  }

  ghost predicate Inv(s: Log) {
    && s.start <= |s.emitted|
    && |s.emitted| - s.start <= CAPACITY
    && Numbered(s.emitted)
    && Ordered(s)
    && Accounted(s)
    && InFlight(s)
  }

  lemma StretchGrows(b: Batch, emitted: seq<LogLine>, line: LogLine)
    requires IsStretch(b, emitted)
    ensures IsStretch(b, emitted + [line])
  {
  }

  lemma EmitKeepsStretches(batches: seq<Batch>, emitted: seq<LogLine>, line: LogLine)
    requires AreStretches(batches, emitted)
    ensures AreStretches(batches, emitted + [line])
  {
  }

  lemma EmitAccounts(s: Log, container: string, text: string, ts: string)
    requires s.start <= |s.emitted| && Accounted(s)
    ensures Accounted(Emitted(s, container, text, ts))
  {
  }

  lemma NumberedGrows(emitted: seq<LogLine>, container: string, text: string, ts: string)
    requires Numbered(emitted)
    ensures Numbered(emitted + [LogLine(|emitted|, container, Take(text, MAX_MESSAGE), ts)])
  {
  }

  lemma BelowWeakens(batches: seq<Batch>, m: nat, n: nat)
    requires Below(batches, m) && m <= n
    ensures Below(batches, n)
  {
  }

  lemma EmitKeepsInv(s: Log, container: string, text: string, ts: string)
    requires Inv(s)
    ensures Inv(Emitted(s, container, text, ts))
  {
    hide IsStretch, AreStretches, Increasing, Accounted, Numbered, Below, Take;
    var t := Emitted(s, container, text, ts);
    EmitKeepsStretches(s.acked, s.emitted, t.emitted[|s.emitted|]);
    EmitAccounts(s, container, text, ts);
    NumberedGrows(s.emitted, container, text, ts);
    BelowWeakens(s.acked, s.start, t.start);
    if s.flush.Flying? {
      StretchGrows(s.flush.batch, s.emitted, t.emitted[|s.emitted|]);
      StretchFinal(s.flush.batch, s.emitted);
    }
  }

  lemma StretchFinal(b: Batch, emitted: seq<LogLine>)
    requires IsStretch(b, emitted)
    ensures b.lines != [] && b.Final() < |emitted| && b.Final() - b.First() < BATCH
  {
  }

  lemma FlushKeepsInv(s: Log)
    requires Inv(s)
    ensures Inv(Flushed(s))
  {
    hide IsStretch, Numbered, AreStretches, Increasing, Below, SumDropped, Covers, WithNotice;
    if s.flush.Idle? && s.start < |s.emitted| {
      var end := if |s.emitted| - s.start < BATCH then |s.emitted| else s.start + BATCH;
      NewBatch(s.emitted, s.start, end, s.dropped);
    }
  }

  lemma NewBatch(emitted: seq<LogLine>, start: nat, end: nat, dropped: nat)
    requires start < end <= |emitted| && end - start <= BATCH && Numbered(emitted)
    ensures
      var b := Batch(WithNotice(emitted[start..end], dropped), dropped);
      IsStretch(b, emitted) && b.First() == start && b.Final() == end - 1
  {
    var lines := emitted[start..end];
    assert lines[0].sequence == start && lines[|lines| - 1].sequence == end - 1;
  }

  lemma StretchesGrow(batches: seq<Batch>, b: Batch, emitted: seq<LogLine>)
    requires AreStretches(batches, emitted) && IsStretch(b, emitted)
    ensures AreStretches(batches + [b], emitted)
  {
  }

  lemma BelowGrows(batches: seq<Batch>, b: Batch, m: nat, n: nat)
    requires Below(batches, m) && m <= n && b.lines != [] && b.Final() < n
    ensures Below(batches + [b], n)
  {
  }

  lemma IncreasingGrows(batches: seq<Batch>, b: Batch)
    requires Increasing(batches) && b.lines != [] && Below(batches, b.First())
    ensures Increasing(batches + [b])
  {
  }

  lemma AcknowledgeKeepsInv(s: Log)
    requires Inv(s) && s.flush.Flying?
    ensures s.flush.batch.lines != [] && Inv(Acknowledged(s))
  {
    hide IsStretch, Numbered, Accounted, AreStretches, Below, Increasing;
    var b := s.flush.batch;
    StretchFinal(b, s.emitted);
    IncreasingGrows(s.acked, b);
    StretchesGrow(s.acked, b, s.emitted);
    BelowGrows(s.acked, b, s.start, if b.Final() < s.start then s.start else b.Final() + 1);
    AcknowledgeAccounts(s);
  }

  lemma AcknowledgeAccounts(s: Log)
    requires s.start <= |s.emitted| && Accounted(s)
    requires s.flush.Flying? && s.flush.batch.lines != [] && s.flush.batch.dropped <= s.dropped
    requires s.flush.batch.First() <= s.start && s.flush.batch.Final() < |s.emitted|
    ensures Accounted(Acknowledged(s))
  {
    var t, b := Acknowledged(s), s.flush.batch;
    assert t.acked[..|s.acked|] == s.acked;
    forall n: nat | n < t.start
      ensures n in t.shifted || exists i :: 0 <= i < |t.acked| && Covers(t.acked[i], n)
    {
      if n >= s.start {
        assert Covers(t.acked[|s.acked|], n);
      } else if n !in s.shifted {
        var i :| 0 <= i < |s.acked| && Covers(s.acked[i], n);
        assert t.acked[i] == s.acked[i];
      }
    }
  }

  lemma NextKeepsInv(s: Log, e: Event)
    requires Inv(s)
    ensures Inv(Next(s, e))
  {
    match e
    case Emit(container, text, ts) => EmitKeepsInv(s, container, text, ts);
    case StartFlush => FlushKeepsInv(s);
    case Acknowledge =>
      if s.flush.Flying? {
        AcknowledgeKeepsInv(s);
      }
    case Reject =>
      if s.flush.Flying? {
        SettlingKeepsInv(s);
      }
    case Settle =>
  }

  lemma SettlingKeepsInv(s: Log)
    requires Inv(s) && s.flush.Flying?
    ensures Inv(s.(flush := Settling))
  {
    hide Numbered, AreStretches, Increasing, Below, IsStretch, Covers, SumDropped;
    assert Accounted(s.(flush := Settling));
  }

  lemma {:induction false} IncreasingPairs(batches: seq<Batch>, i: nat, j: nat)
    requires i < j < |batches| && Increasing(batches)
    ensures batches[i].lines != [] && batches[j].lines != [] && batches[i].Final() < batches[j].First()
  {
    if j < |batches| - 1 {
      IncreasingPairs(batches[..|batches| - 1], i, j);
    }
  }

  /** The log after any interleaving of pushes, pump ticks and replies. */
  function Run(events: seq<Event>): (s: Log)
    ensures s.start <= |s.emitted|
  {
    if events == [] then EMPTY else Next(Run(events[..|events| - 1]), events[|events| - 1])
  }

  lemma {:induction false} RunKeepsInv(events: seq<Event>)
    ensures Inv(Run(events))
  {
    hide Inv, Next;
    if events == [] {
      EmptyInv();
    } else {
      RunKeepsInv(events[..|events| - 1]);
      NextKeepsInv(Run(events[..|events| - 1]), events[|events| - 1]);
    }
  }

  /** Log accounting: over every interleaving, the lines shifted out are exactly those still to be reported and
      those acknowledged batches have reported; no line is acknowledged twice, and none is lost silently. */
  lemma {:induction false} LogAccounting(events: seq<Event>)
    ensures
      var s := Run(events);
      && |s.shifted| == s.dropped + SumDropped(s.acked)
      && (forall i, j | 0 <= i < j < |s.shifted| :: s.shifted[i] < s.shifted[j])
      && (forall n: nat | n < |s.emitted| ::
            n >= s.start || n in s.shifted || exists i :: 0 <= i < |s.acked| && Covers(s.acked[i], n))
      && (forall n: nat, i, j | 0 <= i < j < |s.acked| :: !(Covers(s.acked[i], n) && Covers(s.acked[j], n)))
  {
    RunKeepsInv(events);
    var s := Run(events);
    hide Run;
    forall n: nat, i, j | 0 <= i < j < |s.acked| ensures !(Covers(s.acked[i], n) && Covers(s.acked[j], n)) {
      IncreasingPairs(s.acked, i, j);
    }
  }

  /** The subtraction in an acknowledgement never goes below zero: the clamp is never used. */
  lemma {:induction false} DropCountNeverClamps(events: seq<Event>)
    ensures var s := Run(events); s.flush.Flying? ==> s.flush.batch.dropped <= s.dropped
  {
    RunKeepsInv(events);
    hide Run;
  }

  lemma {:induction false} DropsAreLines(events: seq<Event>)
    ensures Run(events).dropped <= Run(events).start
  {
    RunKeepsInv(events);
    var s := Run(events);
    hide Run;
    RisingBelow(s.shifted, s.start);
  }

  lemma {:induction false} RisingBelow(numbers: seq<nat>, n: nat)
    requires forall i | 0 <= i < |numbers| :: numbers[i] < n
    requires forall i, j | 0 <= i < j < |numbers| :: numbers[i] < numbers[j]
    ensures |numbers| <= n
  {
    if numbers != [] {
      var last := |numbers| - 1;
      RisingBelow(numbers[..last], numbers[last]);
    }
  }

  /** What a batch says over every run: after drops its first line tells a reader how many there were, in front of the
      line; without drops it is the line. All other lines are as they were emitted. */
  lemma BatchTells(events: seq<Event>)
    requires Run(events).flush.Flying? && |Notice(|Run(events).emitted|)| <= 8192
    ensures
      var s, b := Run(events), Run(events).flush.batch;
      && b.lines != [] && b.First() + |b.lines| <= |s.emitted|
      && (b.dropped > 0 ==> Told(b.lines[0].message) == Some(b.dropped))
      && (b.dropped > 0 ==> exists notice :: Take(notice + s.emitted[b.First()].message, 8192) == b.lines[0].message)
      && (b.dropped == 0 ==> b.lines[0] == s.emitted[b.First()])
      && (forall i | 0 < i < |b.lines| :: b.lines[i] == s.emitted[b.First() + i])
  {
    hide Run, Told, Notice, Inv;
    RunKeepsInv(events);
    DropsAreLines(events);
    var s, b := Run(events), Run(events).flush.batch;
    FlyingParts(s);
    StretchTells(b, s.emitted, |s.emitted|);
  }

  lemma FlyingParts(s: Log)
    requires Inv(s) && s.flush.Flying?
    ensures IsStretch(s.flush.batch, s.emitted) && Numbered(s.emitted) && s.flush.batch.dropped <= s.dropped
    ensures s.start <= |s.emitted|
  {
  }

  lemma StretchTells(b: Batch, emitted: seq<LogLine>, n: nat)
    requires IsStretch(b, emitted) && Numbered(emitted) && b.dropped <= n && |Notice(n)| <= 8192
    ensures b.lines != [] && b.First() + |b.lines| <= |emitted|
    ensures b.dropped > 0 ==>
      && Told(b.lines[0].message) == Some(b.dropped)
      && exists notice :: Take(notice + emitted[b.First()].message, 8192) == b.lines[0].message
    ensures b.dropped == 0 ==> b.lines[0] == emitted[b.First()]
    ensures forall i | 0 < i < |b.lines| :: b.lines[i] == emitted[b.First() + i]
  {
    hide Told, Notice, Take;
    NoticeIsTold(b.dropped, emitted[b.First()].message);
    NoticeGrows(b.dropped, n);
    assert b.dropped > 0 ==> Take(Notice(b.dropped) + emitted[b.First()].message, 8192) == b.lines[0].message;
  }

  lemma NoticeGrows(m: nat, n: nat)
    requires m <= n
    ensures |Notice(m)| <= |Notice(n)|
  {
    NoticeParts(m);
    NoticeParts(n);
    DecimalLength(m, n);
  }

  /** Nothing is left to report: every emitted line was acknowledged, or is one of the shifted lines that
      acknowledged batches report. */
  ghost predicate Complete(s: Log) {
    && s.dropped == 0
    && |s.shifted| == SumDropped(s.acked)
    && forall n: nat | n < |s.emitted| ::
         n in s.shifted || exists i :: 0 <= i < |s.acked| && Covers(s.acked[i], n)
  }

  /** Whenever a result may be posted — the buffer empty and no request under way — the log is complete. */
  lemma {:induction false} ResultGuard(events: seq<Event>)
    ensures var s := Run(events); s.start == |s.emitted| && s.flush.Idle? ==> Complete(s)
  {
    RunKeepsInv(events);
    hide Run;
  }

  lemma SettledIsComplete(s: Log)
    requires Inv(s) && s.start == |s.emitted| && s.flush.Idle?
    ensures Complete(s)
  {
  }

  /** Buffer shape, over every interleaving: at most 512 lines, numbered without a gap up to the newest; every batch
      sent holds at most 100 of the emitted lines, in order and unchanged but for the notice on its first line. */
  lemma {:induction false} BufferShape(events: seq<Event>)
    ensures
      var s := Run(events);
      && s.start <= |s.emitted| <= s.start + 512
      && (forall i | 0 <= i < |s.emitted| :: s.emitted[i].sequence == i)
      && (forall b | b in s.acked :: IsStretch(b, s.emitted) && |b.lines| <= 100)
      && (s.flush.Flying? ==> |s.flush.batch.lines| <= 100)
      && (s.flush.Flying? ==> IsStretch(s.flush.batch, s.emitted) && Below(s.acked, s.flush.batch.First()))
  {
    RunKeepsInv(events);
    hide Run;
  }

  // What the single steps do, said of the lines.

  function Pushed(events: seq<Event>): seq<Event> {
    if events == [] then []
    else
      var before, last := Pushed(events[..|events| - 1]), events[|events| - 1];
      if last.Emit? then before + [last] else before
  }

  /** A line is what was pushed, but for its number, and cut at 8192 characters. */
  predicate IsLineOf(line: LogLine, n: nat, e: Event) {
    && e.Emit? && line.sequence == n && line.container == e.container && line.ts == e.ts
    && line.message <= e.text && |line.message| == if |e.text| < 8192 then |e.text| else 8192
  }

  /** Over every interleaving the log holds what was pushed, all of it and in order. */
  lemma {:induction false} LinesArePushed(events: seq<Event>)
    ensures
      var s := Run(events);
      |s.emitted| == |Pushed(events)| && forall i | 0 <= i < |s.emitted| :: IsLineOf(s.emitted[i], i, Pushed(events)[i])
  {
    if events != [] {
      var before, last := events[..|events| - 1], events[|events| - 1];
      LinesArePushed(before);
      NextEmits(Run(before), last);
      hide Run, Next, Take;
      assert Run(events) == Next(Run(before), last) by { RunStep(events); }
    }
  }

  lemma RunStep(events: seq<Event>)
    requires events != []
    ensures Run(events) == Next(Run(events[..|events| - 1]), events[|events| - 1])
  {
  }

  lemma NextEmits(s: Log, e: Event)
    requires s.start <= |s.emitted|
    ensures !e.Emit? ==> Next(s, e).emitted == s.emitted
    ensures e.Emit? ==>
      && |Next(s, e).emitted| == |s.emitted| + 1 && Next(s, e).emitted[..|s.emitted|] == s.emitted
      && IsLineOf(Next(s, e).emitted[|s.emitted|], |s.emitted|, e)
  {
  }

  /** A line is lost exactly when 512 are buffered, and then it is the oldest and it is counted. */
  lemma LossOnlyWhenFull(s: Log, e: Event)
    requires Inv(s) && e.Emit?
    ensures
      var t := Next(s, e);
      && t.flush == s.flush && t.acked == s.acked
      && if |s.emitted| - s.start == 512 then
           t.start == s.start + 1 && t.dropped == s.dropped + 1 && t.shifted == s.shifted + [s.start]
         else t.start == s.start && t.dropped == s.dropped && t.shifted == s.shifted
  {
    hide Numbered, Ordered, Accounted, InFlight;
  }

  /** A batch is sent exactly when none is under way and there are lines: the oldest ones, as many as there are up to a
      hundred, with the drop count of the moment. */
  lemma FlushSends(s: Log)
    requires Inv(s)
    ensures
      var t := Next(s, StartFlush);
      if s.flush.Idle? && s.start < |s.emitted| then
        && t.flush.Flying? && t == s.(flush := t.flush)
        && var b := t.flush.batch;
           && |b.lines| == (if |s.emitted| - s.start < 100 then |s.emitted| - s.start else 100)
           && b.First() == s.start && b.dropped == s.dropped
      else t == s
  {
    hide Ordered, Accounted, InFlight, Notice, Take;
  }

  /** An answer takes the lines of the batch, and what was reported, off the buffer; a failure takes nothing. */
  lemma AnswerSettles(s: Log)
    requires Inv(s) && s.flush.Flying?
    ensures s.flush.batch.lines != []
    ensures
      var t, b := Next(s, Acknowledge), s.flush.batch;
      && t.start == (if b.Final() + 1 > s.start then b.Final() + 1 else s.start)
      && t.dropped == s.dropped - b.dropped && t.acked == s.acked + [b] && t.flush.Settling?
      && t.emitted == s.emitted && t.shifted == s.shifted
    ensures Next(s, Reject) == s.(flush := Settling)
    ensures Next(Next(s, Reject), Settle) == s.(flush := Idle)
  {
    hide Ordered, Accounted, Numbered, WithNotice;
  }

  // The buffer itself.

  /** `logs.filter(line => line.sequence > n)`. */
  function LinesAfter(lines: seq<LogLine>, n: nat): seq<LogLine> {
    if lines == [] then []
    else (if lines[0].sequence > n then [lines[0]] else []) + LinesAfter(lines[1..], n)
  }

  /** On a numbered stretch, filtering drops a prefix. */
  lemma {:induction false} LinesAfterIsSuffix(emitted: seq<LogLine>, start: nat, n: nat)
    requires start <= |emitted| && n < |emitted| && forall i | 0 <= i < |emitted| :: emitted[i].sequence == i
    ensures LinesAfter(emitted[start..], n) == emitted[if n < start then start else n + 1..]
    decreases |emitted| - start
  {
    NoLinesAfter(n);
    hide LinesAfter;
    if start < |emitted| {
      var line, rest := emitted[start], emitted[start + 1..];
      assert emitted[start..] == [line] + rest;
      LinesAfterStep(line, rest, n);
      LinesAfterIsSuffix(emitted, start + 1, n);
    } else {
      assert emitted[start..] == [];
    }
  }

  lemma LinesAfterStep(line: LogLine, rest: seq<LogLine>, n: nat)
    ensures LinesAfter([line] + rest, n) == if line.sequence > n then [line] + LinesAfter(rest, n) else LinesAfter(rest, n)
  {
    assert ([line] + rest)[1..] == rest;
  }

  lemma NoLinesAfter(n: nat)
    ensures LinesAfter([], n) == []
  {
  }

  function Window(s: Log): seq<LogLine>
    requires s.start <= |s.emitted|
  {
    s.emitted[s.start..]
  }

  lemma EmptyInv()
    ensures Inv(EMPTY)
  {
  }

  lemma InvBounds(s: Log)
    requires Inv(s)
    ensures s.start <= |s.emitted| && |s.emitted| - s.start <= CAPACITY
    ensures s.flush.Flying? ==> s.flush.batch.lines != [] && s.flush.batch.Final() < |s.emitted|
  {
  }

  /** What an emitted line does to the window: a full one shifts. */
  lemma WindowAfterEmit(s: Log, container: string, text: string, ts: string)
    requires s.start <= |s.emitted| && |s.emitted| - s.start <= CAPACITY
    ensures
      var kept := if |Window(s)| >= CAPACITY then Window(s)[1..] else Window(s);
      Window(Emitted(s, container, text, ts))
        == kept + [LogLine(|s.emitted|, container, Take(text, MAX_MESSAGE), ts)]
  {
  }

  /** What an acknowledgement does to the window: filtering out the batch and all before it. */
  lemma WindowAfterAcknowledge(s: Log)
    requires Inv(s) && s.flush.Flying? && s.flush.batch.lines != []
    ensures Window(Acknowledged(s)) == LinesAfter(Window(s), s.flush.batch.Final())
  {
    hide Accounted, Ordered, IsStretch;
    InvBounds(s);
    InvNumbers(s);
    hide Inv, InFlight, Numbered, LinesAfter;
    LinesAfterIsSuffix(s.emitted, s.start, s.flush.batch.Final());
  }

  lemma InvNumbers(s: Log)
    requires Inv(s)
    ensures forall i | 0 <= i < |s.emitted| :: s.emitted[i].sequence == i
  {
  }

  datatype BuildResult = Success | Failure(error: string)

  /** A build the agent knows, with its log buffer. */
  class ActiveTask {
    const id: string
    const leaseToken: nat
    var leaseExpiresAt: int
    var aborted: bool
    var finished: bool
    var result: BuildResult
    var logs: seq<LogLine>
    var nextSequence: nat
    var droppedLogs: int
    var flushing: Flush
    ghost var log: Log

    /** The fields are the current window of the history. */
    ghost predicate Valid()
      reads this
    {
      && Inv(log)
      && log.start <= |log.emitted|
      && logs == Window(log)
      && nextSequence == |log.emitted|
      && droppedLogs == log.dropped
      && flushing == log.flush
    }

    constructor (id: string, leaseToken: nat, leaseExpiresAt: int)
      ensures this.id == id && this.leaseToken == leaseToken && this.leaseExpiresAt == leaseExpiresAt && !aborted && !finished
      ensures log == EMPTY && Valid()
    {
      hide Inv;
      this.id, this.leaseToken, this.leaseExpiresAt := id, leaseToken, leaseExpiresAt;
      aborted, finished, result := false, false, Success;
      logs, nextSequence, droppedLogs, flushing := [], 0, 0, Idle;
      log := EMPTY;
      new;
      EmptyInv();
    }

    method Push(container: string, text: string, ts: string)
      requires Valid()
      modifies this`logs, this`nextSequence, this`droppedLogs, this`log
      ensures Valid() && log == Next(old(log), Emit(container, text, ts))
    {
      hide Inv, Window;
      InvBounds(log);
      WindowAfterEmit(log, container, text, ts);
      NextKeepsInv(log, Emit(container, text, ts));
      WindowLength(log);
      if |logs| >= CAPACITY {
        logs := logs[1..];
        droppedLogs := droppedLogs + 1;
      }
      logs := logs + [LogLine(nextSequence, container, Take(text, MAX_MESSAGE), ts)];
      nextSequence := nextSequence + 1;
      log := Next(log, Emit(container, text, ts));
    }

    /** What the pump sends, if it sends anything. */
    method StartFlushing() returns (sent: seq<LogLine>)
      requires Valid()
      modifies this`flushing, this`log
      ensures Valid() && log == Next(old(log), StartFlush)
      ensures sent == if old(log).flush.Idle? && log.flush.Flying? then log.flush.batch.lines else []
    {
      hide Inv, Window, Notice;
      WindowLength(log);
      NextKeepsInv(log, StartFlush);
      FlushedBatch(log);
      if !flushing.Idle? || |logs| == 0 {
        return [];
      }
      var lines := if |logs| < BATCH then logs else logs[..BATCH];
      if droppedLogs != 0 {
        lines := lines[0 := lines[0].(message := Take(Notice(droppedLogs) + lines[0].message, MAX_MESSAGE))];
      }
      flushing := Flying(Batch(lines, droppedLogs));
      log := Next(log, StartFlush);
      sent := lines;
    }

    /** The request under way was answered. */
    method Acknowledge()
      requires Valid() && flushing.Flying?
      modifies this`logs, this`droppedLogs, this`flushing, this`log
      ensures Valid() && log == Next(old(log), Event.Acknowledge)
    {
      hide Inv, Window;
      var b := flushing.batch;
      InvBounds(log);
      NextKeepsInv(log, Event.Acknowledge);
      WindowAfterAcknowledge(log);
      logs := LinesAfter(logs, b.lines[|b.lines| - 1].sequence);
      droppedLogs := if droppedLogs - b.dropped < 0 then 0 else droppedLogs - b.dropped;
      flushing := Settling;
      log := Next(log, Event.Acknowledge);
    }

    /** The request under way failed. */
    method Reject()
      requires Valid() && flushing.Flying?
      modifies this`flushing, this`log
      ensures Valid() && log == Next(old(log), Event.Reject)
    {
      hide Inv;
      NextKeepsInv(log, Event.Reject);
      flushing := Settling;
      log := Next(log, Event.Reject);
    }

    /** The promise is cleared. */
    method Settle()
      requires Valid() && flushing.Settling?
      modifies this`flushing, this`log
      ensures Valid() && log == Next(old(log), Event.Settle)
    {
      hide Inv;
      NextKeepsInv(log, Event.Settle);
      flushing := Idle;
      log := Next(log, Event.Settle);
    }

    method Abort()
      requires Valid()
      modifies this`aborted
      ensures Valid() && aborted
    {
      hide Inv, Window;
      aborted := true;
    }

    method SetLease(expiresAt: int)
      requires Valid()
      modifies this`leaseExpiresAt
      ensures Valid() && leaseExpiresAt == expiresAt
    {
      hide Inv, Window;
      leaseExpiresAt := expiresAt;
    }

    /** The build has ended, one way or the other; at most 2000 characters of an error are kept, and the log goes on
        being sent. */
    method Finish(error: Option<string>)
      requires Valid()
      modifies this`finished, this`result
      ensures Valid() && finished
      ensures error.None? ==> result == Success
      ensures error.Some? ==>
        result.Failure? && result.error <= error.value && |result.error| == if |error.value| < 2000 then |error.value| else 2000
    {
      hide Inv, Window, Take;
      finished, result := true, if error.None? then Success else Failure(Take(error.value, MAX_ERROR));
    }

    /** Whether the result may be posted: then the whole log is accounted for. */
    method MayPostResult() returns (ready: bool)
      requires Valid()
      ensures ready <==> finished && logs == [] && flushing.Idle?
      ensures ready ==> Complete(log)
    {
      hide Inv, Complete;
      WindowLength(log);
      if log.start == |log.emitted| && log.flush.Idle? {
        SettledIsComplete(log);
      }
      ready := finished && |logs| == 0 && flushing.Idle?;
    }
  }

  lemma WindowLength(s: Log)
    requires s.start <= |s.emitted|
    ensures |Window(s)| == |s.emitted| - s.start
  {
  }

  /** The batch a flush starts, in terms of the window. */
  lemma FlushedBatch(s: Log)
    requires s.start <= |s.emitted|
    ensures Window(Flushed(s)) == Window(s)
    ensures s.flush.Idle? && Window(s) != [] ==>
      var lines := if |Window(s)| < BATCH then Window(s) else Window(s)[..BATCH];
      Flushed(s) == s.(flush := Flying(Batch(WithNotice(lines, s.dropped), s.dropped)))
    ensures !s.flush.Idle? || Window(s) == [] ==> Flushed(s) == s
  {
    hide WithNotice;
    if s.start < |s.emitted| {
      var end := if |s.emitted| - s.start < BATCH then |s.emitted| else s.start + BATCH;
      assert s.emitted[s.start..end] == if |Window(s)| < BATCH then Window(s) else Window(s)[..BATCH];
    }
  }
}
