/** A build's log on its way to the server: requests and answers are lost, late or repeated, and the server ignores
    lines it already has. */
module LogDelivery {
  import opened Text
  import opened Wrappers
  import opened AgentLogs

  /** What identifies a line of one attempt in the server's table. */
  datatype Key = Key(container: string, sequence: nat)

  type Rows = map<Key, LogLine>

  function KeyOf(line: LogLine): Key {
    Key(line.container, line.sequence)
  }

  /** One insert that does nothing for lines that are there already. */
  function Inserted(rows: Rows, lines: seq<LogLine>): Rows {
    if lines == [] then rows
    else
      var before, last := Inserted(rows, lines[..|lines| - 1]), lines[|lines| - 1];
      if KeyOf(last) in before then before else before[KeyOf(last) := last]
  }

  /** The agent's log, every batch it ever sent, which of them have reached the server, and the server's table. */
  datatype World = World(log: Log, sent: seq<Batch>, arrived: set<nat>, rows: Rows)

  const START := World(EMPTY, [], {}, map[])

  /** A step of the agent, or one of its batches reaches the server: at any time, in any order, any number of times. */
  datatype Step = Agent(event: Event) | Arrive(n: nat)

  /** A request can only succeed once it has reached the server; it may fail although it has. */
  function Moved(w: World, step: Step): World
    requires w.log.start <= |w.log.emitted|
  {
    match step
    case Arrive(n) =>
      if n < |w.sent| then w.(rows := Inserted(w.rows, w.sent[n].lines), arrived := w.arrived + {n}) else w
    case Agent(e) =>
      if e.Acknowledge? && |w.sent| - 1 !in w.arrived then w
      else
        var log := Next(w.log, e);
        w.(log := log, sent := if w.log.flush.Idle? && log.flush.Flying? then w.sent + [log.flush.batch] else w.sent)
  }

  function History(steps: seq<Step>): (w: World)
    ensures w.log.start <= |w.log.emitted|
  {
    if steps == [] then START else Moved(History(steps[..|steps| - 1]), steps[|steps| - 1])
  }

  // What is promised.

  predicate Stored(rows: Rows, line: LogLine) {
    KeyOf(line) in rows
  }

  /** A row is its line, but that it says that `count` lines before it were dropped. */
  predicate Notes(row: LogLine, line: LogLine, count: nat) {
    0 < count <= line.sequence && row == line.(message := Take(Notice(count) + line.message, MAX_MESSAGE))
  }

  /** Line `j` is among those that the stored line `k` says were dropped. */
  predicate UnderNotice(rows: Rows, emitted: seq<LogLine>, j: nat, k: nat, count: nat) {
    && j < k < |emitted| && k - count <= j
    && Stored(rows, emitted[k]) && Notes(rows[KeyOf(emitted[k])], emitted[k], count)
  }

  ghost predicate Kept(rows: Rows, emitted: seq<LogLine>, j: nat) {
    && j < |emitted|
    && (Stored(rows, emitted[j]) || exists k, count :: UnderNotice(rows, emitted, j, k, count))
  }

  ghost predicate KeptBelow(rows: Rows, emitted: seq<LogLine>, n: int) {
    forall j: nat | j < n :: Kept(rows, emitted, j)
  }

  ghost predicate IsRowOf(key: Key, row: LogLine, emitted: seq<LogLine>) {
    && key.sequence < |emitted| && key == Key(emitted[key.sequence].container, key.sequence)
    && (row == emitted[key.sequence] || exists count :: Notes(row, emitted[key.sequence], count))
  }

  /** Every row is a line that was emitted, as it was but for a notice. */
  ghost predicate RowsAreLines(rows: Rows, emitted: seq<LogLine>) {
    forall key | key in rows :: IsRowOf(key, rows[key], emitted)
  }

  // The invariant.

  function AckedEnd(batches: seq<Batch>): nat {
    if batches == [] || batches[|batches| - 1].lines == [] then 0 else batches[|batches| - 1].Final() + 1
  }

  /** The drop count reaches back to the last acknowledged line. */
  predicate Reaches(s: Log) {
    && s.dropped <= s.start
    && s.start <= AckedEnd(s.acked) + s.dropped
    && (s.flush.Flying? && s.flush.batch.lines != [] ==> s.start + s.flush.batch.dropped <= s.flush.batch.First() + s.dropped)
  }

  /** A batch that was sent: whatever its notice does not speak of is kept already. */
  ghost predicate SentWell(b: Batch, rows: Rows, emitted: seq<LogLine>) {
    IsStretch(b, emitted) && b.dropped <= b.First() && KeptBelow(rows, emitted, b.First() - b.dropped)
  }

  ghost predicate AllSentWell(sent: seq<Batch>, rows: Rows, emitted: seq<LogLine>) {
    forall i | 0 <= i < |sent| :: SentWell(sent[i], rows, emitted)
  }

  /** With every row, all lines before it are kept. */
  ghost predicate NoGaps(rows: Rows, emitted: seq<LogLine>) {
    forall key | key in rows :: KeptBelow(rows, emitted, key.sequence)
  }

  ghost predicate AllArrived(arrived: set<nat>, sent: seq<Batch>, rows: Rows) {
    forall n | n in arrived :: n < |sent| && sent[n].lines != [] && Stored(rows, sent[n].lines[|sent[n].lines| - 1])
  }

  ghost predicate Table(rows: Rows, emitted: seq<LogLine>) {
    RowsAreLines(rows, emitted) && NoGaps(rows, emitted)
  }

  ghost predicate Sound(w: World) {
    && Inv(w.log) && Reaches(w.log)
    && Table(w.rows, w.log.emitted)
    && AllSentWell(w.sent, w.rows, w.log.emitted)
    && AllArrived(w.arrived, w.sent, w.rows)
    && KeptBelow(w.rows, w.log.emitted, AckedEnd(w.log.acked))
    && (w.log.flush.Flying? ==> w.sent != [] && w.sent[|w.sent| - 1] == w.log.flush.batch)
  }

  // Inserting.

  /** An insert adds the keys that were missing, with the lines that came, and leaves every row as it is. */
  lemma {:induction false} InsertAdds(rows: Rows, lines: seq<LogLine>)
    requires forall i, j | 0 <= i < j < |lines| :: KeyOf(lines[i]) != KeyOf(lines[j])
    ensures forall key | key in rows :: key in Inserted(rows, lines) && Inserted(rows, lines)[key] == rows[key]
    ensures forall i | 0 <= i < |lines| ::
      && Stored(Inserted(rows, lines), lines[i])
      && (!Stored(rows, lines[i]) ==> Inserted(rows, lines)[KeyOf(lines[i])] == lines[i])
    ensures forall key | key in Inserted(rows, lines) ::
      key in rows || exists i :: 0 <= i < |lines| && KeyOf(lines[i]) == key
  {
    if lines != [] {
      var n := |lines| - 1;
      InsertAdds(rows, lines[..n]);
      var before := Inserted(rows, lines[..n]);
      assert forall i | 0 <= i < n :: lines[..n][i] == lines[i];
      assert KeyOf(lines[n]) in before ==> KeyOf(lines[n]) in rows;
    }
  }

  // More rows and more lines.

  predicate Grown(rows: Rows, more: Rows) {
    forall key | key in rows :: key in more && more[key] == rows[key]
  }

  lemma StaysKept(rows: Rows, more: Rows, emitted: seq<LogLine>, longer: seq<LogLine>, n: int)
    requires KeptBelow(rows, emitted, n) && Grown(rows, more) && emitted <= longer
    ensures KeptBelow(more, longer, n)
  {
    forall j: nat | j < n ensures Kept(more, longer, j) {
      assert Kept(rows, emitted, j);
      if !Stored(rows, emitted[j]) {
        var k, count :| UnderNotice(rows, emitted, j, k, count);
        assert UnderNotice(more, longer, j, k, count);
      }
    }
  }

  lemma EmittedKeepsTable(rows: Rows, emitted: seq<LogLine>, line: LogLine)
    requires Table(rows, emitted)
    ensures Table(rows, emitted + [line])
  {
    hide KeptBelow;
    forall key | key in rows
      ensures IsRowOf(key, rows[key], emitted + [line]) && KeptBelow(rows, emitted + [line], key.sequence)
    {
      StaysKept(rows, rows, emitted, emitted + [line], key.sequence);
      assert IsRowOf(key, rows[key], emitted);
    }
  }

  lemma SentStaysWell(sent: seq<Batch>, rows: Rows, more: Rows, emitted: seq<LogLine>)
    requires AllSentWell(sent, rows, emitted) && Grown(rows, more)
    ensures AllSentWell(sent, more, emitted)
  {
    hide KeptBelow, IsStretch;
    forall i | 0 <= i < |sent| ensures SentWell(sent[i], more, emitted) {
      assert SentWell(sent[i], rows, emitted);
      assert sent[i].lines != [] by { StretchFinal(sent[i], emitted); }
      StaysKept(rows, more, emitted, emitted, sent[i].First() - sent[i].dropped);
    }
  }

  lemma SentStaysWellWith(sent: seq<Batch>, rows: Rows, emitted: seq<LogLine>, line: LogLine)
    requires AllSentWell(sent, rows, emitted)
    ensures AllSentWell(sent, rows, emitted + [line])
  {
    hide KeptBelow, IsStretch;
    forall i | 0 <= i < |sent| ensures SentWell(sent[i], rows, emitted + [line]) {
      assert SentWell(sent[i], rows, emitted);
      assert sent[i].lines != [] by { StretchFinal(sent[i], emitted); }
      StretchGrows(sent[i], emitted, line);
      StaysKept(rows, rows, emitted, emitted + [line], sent[i].First() - sent[i].dropped);
    }
  }

  // A batch arrives.

  /** What is in a batch: the lines of its range, with a notice on the first one. */
  lemma LinesOf(b: Batch, emitted: seq<LogLine>)
    requires IsStretch(b, emitted) && Numbered(emitted)
    ensures b.lines != [] && forall i | 0 <= i < |b.lines| ::
      && KeyOf(b.lines[i]) == KeyOf(emitted[b.First() + i])
      && (i > 0 || b.dropped == 0 ==> b.lines[i] == emitted[b.First() + i])
    ensures 0 < b.dropped <= b.First() ==> Notes(b.lines[0], emitted[b.First()], b.dropped)
    ensures forall i, j | 0 <= i < j < |b.lines| :: KeyOf(b.lines[i]) != KeyOf(b.lines[j])
    ensures b.First() + |b.lines| == b.Final() + 1 <= |emitted|
  {
    hide Notice, Take;
  }

  /** What an arrival does to the table: nothing to its rows, the lines of the batch are there, and the first one has
      the notice unless it was there already. */
  ghost predicate Took(rows: Rows, more: Rows, first: nat, final: nat, dropped: nat, emitted: seq<LogLine>) {
    && first <= final < |emitted| && Grown(rows, more)
    && (forall j | first <= j <= final :: Stored(more, emitted[j]))
    && (Stored(rows, emitted[first]) || dropped == 0 || Notes(more[KeyOf(emitted[first])], emitted[first], dropped))
    && (forall key | key in more :: key in rows || (first <= key.sequence <= final && IsRowOf(key, more[key], emitted)))
  }

  lemma ArrivalTakes(rows: Rows, emitted: seq<LogLine>, b: Batch)
    requires IsStretch(b, emitted) && Numbered(emitted) && b.dropped <= b.First()
    ensures b.lines != [] && Took(rows, Inserted(rows, b.lines), b.First(), b.Final(), b.dropped, emitted)
  {
    hide IsStretch, Inserted, Notes, WithNotice, Numbered, IsRowOf;
    LinesOf(b, emitted);
    InsertAdds(rows, b.lines);
    var more, first := Inserted(rows, b.lines), b.First();
    forall j | first <= j <= b.Final() ensures Stored(more, emitted[j]) {
      assert Stored(more, b.lines[j - first]);
    }
    forall key | key in more && key !in rows ensures first <= key.sequence <= b.Final() && IsRowOf(key, more[key], emitted) {
      var i :| 0 <= i < |b.lines| && KeyOf(b.lines[i]) == key;
      LineIsRow(b, emitted, i);
    }
  }

  lemma LineIsRow(b: Batch, emitted: seq<LogLine>, i: nat)
    requires IsStretch(b, emitted) && Numbered(emitted) && i < |b.lines| && b.dropped <= b.First()
    ensures IsRowOf(KeyOf(b.lines[i]), b.lines[i], emitted) && b.First() <= b.lines[i].sequence <= b.Final()
  {
    LinesOf(b, emitted);
    hide Notes, WithNotice;
    assert emitted[b.First() + i].sequence == b.First() + i;
  }

  lemma ArrivalKeepsRows(rows: Rows, more: Rows, first: nat, final: nat, dropped: nat, emitted: seq<LogLine>)
    requires RowsAreLines(rows, emitted) && Took(rows, more, first, final, dropped, emitted)
    ensures RowsAreLines(more, emitted)
  {
    hide IsRowOf, Stored, Notes;
  }

  /** After a batch has arrived, every line up to its end is kept. */
  lemma ArrivalKeepsLines(rows: Rows, more: Rows, first: nat, final: nat, dropped: nat, emitted: seq<LogLine>)
    requires NoGaps(rows, emitted) && Numbered(emitted) && KeptBelow(rows, emitted, first - dropped)
    requires Took(rows, more, first, final, dropped, emitted)
    ensures KeptBelow(more, emitted, final + 1)
  {
    StaysKept(rows, more, emitted, emitted, first - dropped);
    hide Notes, IsRowOf;
    if Stored(rows, emitted[first]) {
      assert KeptBelow(rows, emitted, KeyOf(emitted[first]).sequence);
      StaysKept(rows, more, emitted, emitted, first);
    }
    forall j: nat | j < final + 1 ensures Kept(more, emitted, j) {
      if j < first && !Stored(rows, emitted[first]) && j >= first - dropped {
        assert UnderNotice(more, emitted, j, first, dropped);
      }
    }
  }

  lemma ArrivalKeepsTable(rows: Rows, more: Rows, first: nat, final: nat, dropped: nat, emitted: seq<LogLine>)
    requires Table(rows, emitted) && Numbered(emitted) && KeptBelow(rows, emitted, first - dropped)
    requires Took(rows, more, first, final, dropped, emitted)
    ensures Table(more, emitted) && KeptBelow(more, emitted, final + 1)
  {
    ArrivalKeepsRows(rows, more, first, final, dropped, emitted);
    ArrivalKeepsLines(rows, more, first, final, dropped, emitted);
    hide Numbered, RowsAreLines, IsRowOf, Kept, Notes, Stored;
    forall key | key in more ensures KeptBelow(more, emitted, key.sequence) {
      if key in rows {
        assert KeptBelow(rows, emitted, key.sequence);
        StaysKept(rows, more, emitted, emitted, key.sequence);
      }
    }
  }

  lemma ArrivalKeepsSound(w: World, n: nat)
    requires Sound(w) && n < |w.sent|
    ensures Sound(Moved(w, Arrive(n)))
  {
    hide Inv, Table, KeptBelow, IsStretch, Reaches, Inserted, SentWell, AllSentWell, AllArrived, Took, Grown, Numbered;
    var b, rows, emitted := w.sent[n], w.rows, w.log.emitted;
    var more := Inserted(rows, b.lines);
    InvParts(w.log);
    SentIsWell(w.sent, rows, emitted, n);
    ArrivalTakes(rows, emitted, b);
    TookParts(rows, more, b.First(), b.Final(), b.dropped, emitted);
    ArrivalKeepsTable(rows, more, b.First(), b.Final(), b.dropped, emitted);
    SentStaysWell(w.sent, rows, more, emitted);
    StaysKept(rows, more, emitted, emitted, AckedEnd(w.log.acked));
    FinalIsStored(rows, more, b, emitted);
    ArrivedGrows(w, n, more);
  }

  lemma SentIsWell(sent: seq<Batch>, rows: Rows, emitted: seq<LogLine>, n: nat)
    requires AllSentWell(sent, rows, emitted) && n < |sent|
    ensures IsStretch(sent[n], emitted) && sent[n].lines != []
    ensures sent[n].dropped <= sent[n].First() <= sent[n].Final() < |emitted|
    ensures KeptBelow(rows, emitted, sent[n].First() - sent[n].dropped)
  {
    hide KeptBelow, WithNotice;
    assert SentWell(sent[n], rows, emitted);
  }

  lemma TookParts(rows: Rows, more: Rows, first: nat, final: nat, dropped: nat, emitted: seq<LogLine>)
    requires Took(rows, more, first, final, dropped, emitted)
    ensures Grown(rows, more)
  {
  }

  lemma FinalIsStored(rows: Rows, more: Rows, b: Batch, emitted: seq<LogLine>)
    requires IsStretch(b, emitted) && Numbered(emitted)
    requires Took(rows, more, b.First(), b.Final(), b.dropped, emitted)
    ensures b.lines != [] && Stored(more, b.lines[|b.lines| - 1])
  {
    hide IsStretch, Numbered, Notes, IsRowOf;
    LinesOf(b, emitted);
    assert KeyOf(b.lines[|b.lines| - 1]) == KeyOf(emitted[b.First() + (|b.lines| - 1)]);
  }

  lemma ArrivedGrows(w: World, n: nat, more: Rows)
    requires n < |w.sent| && w.sent[n].lines != [] && AllArrived(w.arrived, w.sent, w.rows) && Grown(w.rows, more)
    requires Stored(more, w.sent[n].lines[|w.sent[n].lines| - 1])
    ensures AllArrived(w.arrived + {n}, w.sent, more)
  {
  }

  lemma InvParts(s: Log)
    requires Inv(s)
    ensures s.start <= |s.emitted| && Numbered(s.emitted) && InFlight(s)
  {
  }

  // The agent moves.

  lemma NextReaches(s: Log, e: Event)
    requires Inv(s) && Reaches(s)
    ensures Reaches(Next(s, e))
  {
    hide Inv, Reaches, Flushed, Acknowledged, Emitted;
    InvParts(s);
    match e
    case Emit(container, text, ts) => EmitReaches(s, container, text, ts);
    case StartFlush => FlushReaches(s);
    case Acknowledge =>
      if s.flush.Flying? {
        AcknowledgeReaches(s);
      }
    case Reject => SettleReaches(s, e);
    case Settle => SettleReaches(s, e);
  }

  lemma EmitReaches(s: Log, container: string, text: string, ts: string)
    requires s.start <= |s.emitted| && Reaches(s)
    ensures Reaches(Emitted(s, container, text, ts))
  {
  }

  lemma SettleReaches(s: Log, e: Event)
    requires s.start <= |s.emitted| && Reaches(s) && (e.Reject? || e.Settle?)
    ensures Reaches(Next(s, e))
  {
  }

  lemma FlushReaches(s: Log)
    requires Inv(s) && Reaches(s)
    ensures Reaches(Flushed(s))
  {
    hide Inv, InFlight, IsStretch, WithNotice, AckedEnd;
    InvParts(s);
    if s.flush.Idle? && s.start < |s.emitted| {
      var end := if |s.emitted| - s.start < BATCH then |s.emitted| else s.start + BATCH;
      NewBatch(s.emitted, s.start, end, s.dropped);
    }
  }

  lemma AcknowledgeReaches(s: Log)
    requires Inv(s) && s.flush.Flying? && Reaches(s)
    ensures s.flush.batch.lines != [] && Reaches(Acknowledged(s))
  {
    hide Inv;
    FlightRange(s);
    var b := s.flush.batch;
    assert AckedEnd(s.acked + [b]) == b.Final() + 1;
  }

  lemma FlightRange(s: Log)
    requires Inv(s) && s.flush.Flying?
    ensures
      var b := s.flush.batch;
      s.start <= |s.emitted| && b.lines != [] && b.First() <= b.Final() < |s.emitted|
  {
    hide Numbered, Ordered, Accounted, WithNotice;
  }

  lemma EmitKeepsSound(w: World, container: string, text: string, ts: string)
    requires Sound(w)
    ensures Sound(Moved(w, Agent(Emit(container, text, ts))))
  {
    hide Inv, Table, KeptBelow, Reaches, AllSentWell, AllArrived, Take;
    InvParts(w.log);
    var log, next := w.log, Next(w.log, Emit(container, text, ts));
    NextKeepsInv(log, Emit(container, text, ts));
    NextReaches(log, Emit(container, text, ts));
    var line := next.emitted[|log.emitted|];
    assert next.emitted == log.emitted + [line];
    EmittedKeepsTable(w.rows, log.emitted, line);
    SentStaysWellWith(w.sent, w.rows, log.emitted, line);
    StaysKept(w.rows, w.rows, log.emitted, log.emitted + [line], AckedEnd(log.acked));
  }

  lemma SendKeepsSound(w: World)
    requires Sound(w)
    ensures Sound(Moved(w, Agent(StartFlush)))
  {
    hide Inv, Table, KeptBelow, Reaches, AllSentWell, AllArrived, SentWell, Flushed, AckedEnd;
    InvParts(w.log);
    var log, next := w.log, Flushed(w.log);
    NextKeepsInv(log, StartFlush);
    NextReaches(log, StartFlush);
    FlushedFrame(log);
    if log.flush.Idle? && next.flush.Flying? {
      NewBatchIsWell(w);
      OneMoreSent(w, next.flush.batch);
    }
  }

  lemma OneMoreSent(w: World, b: Batch)
    requires AllSentWell(w.sent, w.rows, w.log.emitted) && SentWell(b, w.rows, w.log.emitted)
    requires AllArrived(w.arrived, w.sent, w.rows)
    ensures AllSentWell(w.sent + [b], w.rows, w.log.emitted) && AllArrived(w.arrived, w.sent + [b], w.rows)
  {
    hide SentWell;
  }

  lemma FlushedFrame(s: Log)
    requires s.start <= |s.emitted|
    ensures
      var t := Flushed(s);
      && t.emitted == s.emitted && t.acked == s.acked && (!s.flush.Idle? || !t.flush.Flying? ==> t == s)
  {
  }

  lemma NewBatchIsWell(w: World)
    requires Sound(w) && w.log.flush.Idle? && Flushed(w.log).flush.Flying?
    ensures SentWell(Flushed(w.log).flush.batch, w.rows, w.log.emitted)
  {
    hide Inv, Table, AllSentWell, AllArrived, Kept, IsStretch, WithNotice, Numbered;
    var s := w.log;
    InvParts(s);
    var end := if |s.emitted| - s.start < BATCH then |s.emitted| else s.start + BATCH;
    NewBatch(s.emitted, s.start, end, s.dropped);
  }

  lemma AcknowledgeKeepsSound(w: World)
    requires Sound(w)
    ensures Sound(Moved(w, Agent(Acknowledge)))
  {
    hide Inv, Table, KeptBelow, Reaches, AllSentWell, AllArrived, Acknowledged, AckedEnd;
    InvParts(w.log);
    NextKeepsInv(w.log, Acknowledge);
    NextReaches(w.log, Acknowledge);
    if w.log.flush.Flying? && |w.sent| - 1 in w.arrived {
      ArrivedIsKept(w, |w.sent| - 1);
      AcknowledgedFrame(w.log);
    }
  }

  lemma AcknowledgedFrame(s: Log)
    requires s.start <= |s.emitted| && s.flush.Flying? && s.flush.batch.lines != []
    ensures
      var t := Acknowledged(s);
      t.emitted == s.emitted && !t.flush.Flying? && AckedEnd(t.acked) == s.flush.batch.Final() + 1
  {
  }

  lemma ArrivedIsKept(w: World, n: nat)
    requires Sound(w) && n in w.arrived
    ensures n < |w.sent| && w.sent[n].lines != [] && KeptBelow(w.rows, w.log.emitted, w.sent[n].Final() + 1)
  {
    hide Inv, Reaches, RowsAreLines, AllSentWell, IsStretch, Numbered, Kept;
    var b, emitted := w.sent[n], w.log.emitted;
    InvParts(w.log);
    SentIsWell(w.sent, w.rows, emitted, n);
    LinesOf(b, emitted);
    var last := b.lines[|b.lines| - 1];
    assert KeptBelow(w.rows, emitted, KeyOf(last).sequence);
    assert KeyOf(last) == KeyOf(emitted[b.First() + (|b.lines| - 1)]);
    StoredIsKept(w.rows, emitted, b.Final());
  }

  lemma StoredIsKept(rows: Rows, emitted: seq<LogLine>, j: nat)
    requires j < |emitted| && Stored(rows, emitted[j])
    ensures Kept(rows, emitted, j)
  {
  }

  lemma MovedKeepsSound(w: World, step: Step)
    requires Sound(w)
    ensures Sound(Moved(w, step))
  {
    hide Sound, Next, Inserted;
    match step
    case Arrive(n) =>
      if n < |w.sent| {
        ArrivalKeepsSound(w, n);
      }
    case Agent(e) =>
      match e {
        case Emit(container, text, ts) => EmitKeepsSound(w, container, text, ts);
        case StartFlush => SendKeepsSound(w);
        case Acknowledge => AcknowledgeKeepsSound(w);
        case Reject => SettleKeepsSound(w, e);
        case Settle => SettleKeepsSound(w, e);
      }
  }

  lemma SettleKeepsSound(w: World, e: Event)
    requires Sound(w) && (e.Reject? || e.Settle?)
    ensures Sound(Moved(w, Agent(e)))
  {
    hide Inv, Table, KeptBelow, Reaches, AllSentWell, AllArrived;
    InvParts(w.log);
    NextKeepsInv(w.log, e);
    NextReaches(w.log, e);
  }

  lemma StartIsSound()
    ensures Sound(START)
  {
    EmptyInv();
    hide Inv;
  }

  lemma {:induction false} HistoryIsSound(steps: seq<Step>)
    ensures Sound(History(steps))
  {
    if steps == [] {
      StartIsSound();
    } else {
      hide Sound, Moved;
      HistoryIsSound(steps[..|steps| - 1]);
      MovedKeepsSound(History(steps[..|steps| - 1]), steps[|steps| - 1]);
    }
  }

  // The results.

  /** Line `j` has its row, or a later row has a notice that covers it: so many lines before it were dropped, which is
      what a reader of the row is told, as long as a count of all lines would fit into a message. */
  ghost predicate InTable(rows: Rows, emitted: seq<LogLine>, j: nat) {
    && j < |emitted|
    && (|| Stored(rows, emitted[j])
        || exists k, count :: UnderNotice(rows, emitted, j, k, count) && IsTold(rows, emitted, k, count))
  }

  predicate IsTold(rows: Rows, emitted: seq<LogLine>, k: nat, count: nat)
    requires k < |emitted| && Stored(rows, emitted[k])
  {
    |Notice(|emitted|)| <= 8192 ==> Told(rows[KeyOf(emitted[k])].message) == Some(count)
  }

  ghost predicate InTableBelow(w: World, n: int) {
    forall j: nat | j < n :: InTable(w.rows, w.log.emitted, j)
  }

  lemma KeptIsInTable(w: World, n: int)
    requires KeptBelow(w.rows, w.log.emitted, n) && Numbered(w.log.emitted)
    ensures InTableBelow(w, n)
  {
    hide Told, Notice;
    var rows, emitted := w.rows, w.log.emitted;
    forall j: nat | j < n ensures InTable(rows, emitted, j) {
      assert Kept(rows, emitted, j);
      if !Stored(rows, emitted[j]) {
        var k: nat, count: nat :| UnderNotice(rows, emitted, j, k, count);
        NoticeIsTold(count, emitted[k].message);
        NoticeGrows(count, |emitted|);
        assert IsTold(rows, emitted, k, count);
      }
    }
  }

  /** Whatever is lost, late or repeated: every row of the table is an emitted line, unchanged but for a notice, each
      line has one row at most, and up to every row and every acknowledged line nothing is missing without a notice. */
  lemma NothingIsMissing(steps: seq<Step>)
    ensures
      var w := History(steps);
      && RowsAreLines(w.rows, w.log.emitted)
      && (forall key | key in w.rows :: InTableBelow(w, key.sequence))
      && (forall b | b in w.log.acked && b.lines != [] :: InTableBelow(w, b.Final() + 1))
  {
    hide History, Inv, AllSentWell, AllArrived, RowsAreLines, Reaches, KeptBelow, InTableBelow, AckedEnd;
    HistoryIsSound(steps);
    var w := History(steps);
    InvParts(w.log);
    forall key | key in w.rows ensures InTableBelow(w, key.sequence) {
      KeptIsInTable(w, key.sequence);
    }
    AckedIsInTable(w);
  }

  lemma AckedIsInTable(w: World)
    requires Inv(w.log) && KeptBelow(w.rows, w.log.emitted, AckedEnd(w.log.acked))
    ensures forall b | b in w.log.acked && b.lines != [] :: InTableBelow(w, b.Final() + 1)
  {
    hide Inv, KeptBelow, InTableBelow, AckedEnd;
    InvParts(w.log);
    forall b | b in w.log.acked && b.lines != [] ensures InTableBelow(w, b.Final() + 1) {
      var i :| 0 <= i < |w.log.acked| && w.log.acked[i] == b;
      AckedBelowEnd(w.log, i);
      FewerAreKept(w.rows, w.log.emitted, AckedEnd(w.log.acked), b.Final() + 1);
      KeptIsInTable(w, b.Final() + 1);
    }
  }

  lemma AckedBelowEnd(s: Log, i: nat)
    requires Inv(s) && i < |s.acked|
    ensures s.acked[i].lines != [] && s.acked[i].Final() + 1 <= AckedEnd(s.acked)
  {
    hide Inv;
    AckedIncrease(s);
    if i < |s.acked| - 1 {
      IncreasingPairs(s.acked, i, |s.acked| - 1);
    }
  }

  lemma FewerAreKept(rows: Rows, emitted: seq<LogLine>, n: int, m: int)
    requires KeptBelow(rows, emitted, n) && m <= n
    ensures KeptBelow(rows, emitted, m)
  {
    hide Kept;
  }

  /** When a result may be posted, every line of the build is in the table or under a notice there. */
  lemma ResultMeansDelivered(steps: seq<Step>)
    ensures
      var w := History(steps);
      w.log.start == |w.log.emitted| && w.log.flush.Idle? ==> InTableBelow(w, |w.log.emitted|)
  {
    hide History, Inv, KeptBelow, AllSentWell, AllArrived, Table, AckedEnd;
    HistoryIsSound(steps);
    var w := History(steps);
    if w.log.start == |w.log.emitted| && w.log.flush.Idle? {
      InvParts(w.log);
      SettledIsComplete(w.log);
      FewerAreKept(w.rows, w.log.emitted, AckedEnd(w.log.acked), |w.log.emitted|);
      KeptIsInTable(w, |w.log.emitted|);
    }
  }

  /** A row never changes, whatever comes after it. */
  lemma {:induction false} RowsNeverChange(steps: seq<Step>, more: seq<Step>)
    ensures Grown(History(steps).rows, History(steps + more).rows)
  {
    hide History, Inv, Sound, Moved;
    if more == [] {
      assert steps + more == steps;
    } else {
      var n := |more| - 1;
      RowsNeverChange(steps, more[..n]);
      HistoryStep(steps + more);
      assert (steps + more)[..|steps| + n] == steps + more[..n];
      HistoryIsSound(steps + more[..n]);
      MovedKeepsRows(History(steps + more[..n]), more[n]);
    }
  }

  lemma HistoryStep(steps: seq<Step>)
    requires steps != []
    ensures History(steps) == Moved(History(steps[..|steps| - 1]), steps[|steps| - 1])
  {
  }

  lemma AckedIncrease(s: Log)
    requires Inv(s)
    ensures Increasing(s.acked) && forall b | b in s.acked :: b.lines != [] && b.First() <= b.Final()
  {
    hide Increasing, Accounted, Numbered, WithNotice;
  }

  lemma MovedKeepsRows(w: World, step: Step)
    requires Sound(w) && w.log.start <= |w.log.emitted|
    ensures Grown(w.rows, Moved(w, step).rows)
  {
    hide Inv, Inserted, Table, AllSentWell, IsStretch, Took, Numbered, Next, Reaches;
    if step.Arrive? && step.n < |w.sent| {
      InvParts(w.log);
      SentIsWell(w.sent, w.rows, w.log.emitted, step.n);
      var b := w.sent[step.n];
      ArrivalTakes(w.rows, w.log.emitted, b);
      TookParts(w.rows, Inserted(w.rows, b.lines), b.First(), b.Final(), b.dropped, w.log.emitted);
    }
  }
}
