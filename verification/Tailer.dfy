/** The incremental access-log reader and its batch writer (internal/diagnostics/tailer.go). */
module Tailer {
  import opened Rows
  import opened Text

  const DEFAULT_MAX_BYTES := 30 * 1024 * 1024
  const DEFAULT_BATCH_SIZE := 1000

  /** The finished lines of a text and what follows the last newline. */
  function CompleteLines(text: string): seq<string> {
    var parts := Split(text, '\n');
    parts[..|parts| - 1]
  }

  function Unfinished(text: string): string {
    var parts := Split(text, '\n');
    parts[|parts| - 1]
  }

  function Parsed<E>(parse: string -> Option<E>, lines: seq<string>): seq<E> {
    if lines == [] then []
    else Parsed(parse, lines[..|lines| - 1]) +
         match parse(lines[|lines| - 1]) { case Some(ev) => [ev] case None => [] }
  }

  lemma {:induction false} ParsedAppend<E>(parse: string -> Option<E>, a: seq<string>, b: seq<string>)
    ensures Parsed(parse, a + b) == Parsed(parse, a) + Parsed(parse, b)
  {
    if b == [] {
      assert a + b == a;
    } else {
      ParsedAppend(parse, a, b[..|b| - 1]);
      assert (a + b)[..|a + b| - 1] == a + b[..|b| - 1];
    }
  }

  /** Reading on from an unfinished line gives the lines of the whole text. */
  lemma LinesContinue(seen: string, chunk: string)
    ensures CompleteLines(seen + chunk) == CompleteLines(seen) + CompleteLines(Unfinished(seen) + chunk)
    ensures Unfinished(seen + chunk) == Unfinished(Unfinished(seen) + chunk)
  {
    SplitAppend(seen, chunk, '\n');
  }

  lemma NothingUnfinished(text: string)
    requires text != "" && text[|text| - 1] == '\n'
    ensures Unfinished(text) == ""
  {
    var line := text[..|text| - 1];
    assert text == line + "\n";
    SplitAppend(line, "\n", '\n');
    SplitPiecesClean(line, '\n');
    SplitAtSep(Unfinished(line), "", '\n');
    assert Unfinished(line) + ['\n'] + "" == Unfinished(line) + "\n";
  }

  // ---------------------------------------------------------------------------------------------
  // One read

  /** offset, partial and offsetInitialized, together with the offset saved in the store. */
  datatype Cursor = Cursor(offset: nat, partial: string, initialized: bool, saved: Option<int>)

  /** Which of the calls a read makes fail. */
  datatype ReadFaults = ReadFaults(stat: bool, getMeta: bool, read: bool, truncate: bool, setMeta: bool)

  /** The access log as a read finds it: its size when it is examined and its bytes when it is read. */
  datatype LogFile = LogFile(size: nat, bytes: string)

  function StartOffset(saved: Option<int>, size: nat): nat {
    if saved.Some? && 0 <= saved.value <= size then saved.value else size
  }

  /** The cursor after the part of readNewEvents that precedes opening the file. */
  function Positioned(c: Cursor, size: nat): Cursor {
    var d := if c.initialized then c else c.(offset := StartOffset(c.saved, size), initialized := true);
    if size < d.offset then d.(offset := 0, partial := "") else d
  }

  function Chunk(bytes: string, offset: nat, maxBytes: nat): string {
    if offset >= |bytes| then ""
    else if |bytes| - offset <= maxBytes + 1 then bytes[offset..]
    else bytes[offset..offset + maxBytes + 1]
  }

  /** What a read leaves behind: the cursor, whether the log was truncated, and the text handed to
      the parser; None when the read returned an error. */
  datatype Outcome = Outcome(cursor: Cursor, truncated: bool, text: Option<string>)

  function Read(c: Cursor, log: LogFile, maxBytes: nat, f: ReadFaults): Outcome {
    if f.stat || (!c.initialized && f.getMeta) then Outcome(c, false, None)
    else
      var d := Positioned(c, log.size);
      var tooBig := maxBytes > 0 && log.size > maxBytes;
      if log.size == d.offset then
        if !tooBig then Outcome(d, false, Some(""))
        else Truncated(d, f, Some(""))
      else if f.read then Outcome(d, false, None)
      else
        var chunk := Chunk(log.bytes, d.offset, maxBytes);
        var moved := d.(offset := d.offset + |chunk|);
        if tooBig then
          var t := Truncated(moved, f, None);
          if f.truncate || f.setMeta then t
          else Outcome(t.cursor, true, Some(chunk))
        else if f.setMeta then Outcome(moved, false, None)
        else Outcome(moved.(saved := Some(moved.offset)), false, Some(chunk))
  }

  /** truncateScratchLog. */
  function Truncated(c: Cursor, f: ReadFaults, text: Option<string>): Outcome {
    if f.truncate then Outcome(c, false, None)
    else
      var d := c.(offset := 0, partial := "");
      if f.setMeta then Outcome(d, true, None) else Outcome(d.(saved := Some(0)), true, text)
  }

  /** The cursor and the events of a read, parsing included. */
  function ReadEvents<E>(c: Cursor, log: LogFile, maxBytes: nat, f: ReadFaults, parse: string -> Option<E>): (Cursor,
      Option<seq<E>>) {
    var o := Read(c, log, maxBytes, f);
    if o.text.None? then (o.cursor, None)
    else if o.text.value == "" then (o.cursor, Some([]))
    else
      var text := o.cursor.partial + o.text.value;
      (o.cursor.(partial := Unfinished(text)), Some(Parsed(parse, CompleteLines(text))))
  }

  // ---------------------------------------------------------------------------------------------
  // Batching

  /** The pending batch and everything the store has recorded. */
  datatype Sink<E> = Sink(batch: seq<E>, recorded: seq<E>)

  /** A failed flush keeps the batch. */
  function Flush<E>(s: Sink<E>, ok: bool): Sink<E> {
    if s.batch != [] && ok then Sink([], s.recorded + s.batch) else s
  }

  function Enqueue<E>(s: Sink<E>, events: seq<E>, batchSize: nat, flushes: nat -> bool): Sink<E> {
    if events == [] then s
    else
      var i := |events| - 1;
      var t := Enqueue(s, events[..i], batchSize, flushes);
      var u := t.(batch := t.batch + [events[i]]);
      if |u.batch| >= batchSize then Flush(u, flushes(i)) else u
  }

  lemma {:induction false} EnqueueKeepsOrder<E>(s: Sink<E>, events: seq<E>, batchSize: nat, flushes: nat -> bool)
    ensures var t := Enqueue(s, events, batchSize, flushes);
      t.recorded + t.batch == s.recorded + s.batch + events
  {
    if events != [] {
      var i := |events| - 1;
      EnqueueKeepsOrder(s, events[..i], batchSize, flushes);
      assert events == events[..i] + [events[i]];
      var t := Enqueue(s, events[..i], batchSize, flushes);
      assert t.recorded + (t.batch + [events[i]]) == (t.recorded + t.batch) + [events[i]];
    }
  }

  /** The tailer with its ticks. parse stands for ParseAccessLine, which finds nothing in an empty
      line. */
  class Tailer<E> {
    const parse: string -> Option<E>
    const maxBytes: nat
    const batchSize: nat
    var offset: nat
    var partial: string
    var offsetInitialized: bool
    var batch: seq<E>
    // The store: the saved offset and the events recorded so far.
    var saved: Option<int>
    var recorded: seq<E>

    constructor (parse: string -> Option<E>, maxBytes: int, batchSize: int, saved: Option<int>)
      ensures this.parse == parse && Position() == Cursor(0, "", false, saved) && Output() == Sink([], [])
      ensures this.maxBytes == (if maxBytes <= 0 then DEFAULT_MAX_BYTES else maxBytes)
      ensures this.batchSize == (if batchSize <= 0 then DEFAULT_BATCH_SIZE else batchSize)
    {
      this.parse := parse;
      this.maxBytes := if maxBytes <= 0 then DEFAULT_MAX_BYTES else maxBytes;
      this.batchSize := if batchSize <= 0 then DEFAULT_BATCH_SIZE else batchSize;
      offset, partial, offsetInitialized, batch := 0, "", false, [];
      this.saved, recorded := saved, [];
    }

    ghost function Position(): Cursor
      reads this
    {
      Cursor(offset, partial, offsetInitialized, saved)
    }

    ghost function Output(): Sink<E>
      reads this
    {
      Sink(batch, recorded)
    }

    method ParseChunk(chunk: string) returns (events: seq<E>)
      requires chunk != "" && parse("").None?
      modifies this`partial
      ensures partial == Unfinished(old(partial) + chunk)
      ensures events == Parsed(parse, CompleteLines(old(partial) + chunk))
    {
      hide Split;
      var text := partial + chunk;
      var lines := Split(text, '\n');
      if text[|text| - 1] != '\n' {
        partial := lines[|lines| - 1];
        lines := lines[..|lines| - 1];
      } else {
        NothingUnfinished(text);
        ParsedAppend(parse, CompleteLines(text), [""]);
        assert lines == CompleteLines(text) + [""];
        assert Parsed(parse, [""]) == [];
        partial := "";
      }
      events := [];
      for i := 0 to |lines|
        invariant events == Parsed(parse, lines[..i])
      {
        assert lines[..i + 1][..i] == lines[..i];
        match parse(lines[i])
        case Some(ev) => events := events + [ev];
        case None =>
      }
      assert lines[..|lines|] == lines;
    }

    /** Truncates the log and forgets the position in it. */
    method TruncateScratchLog(f: ReadFaults) returns (ok: bool)
      modifies this`offset, this`partial, this`saved
      ensures Position() == Truncated(old(Position()), f, None).cursor
      ensures ok <==> !f.truncate && !f.setMeta
    {
      if f.truncate {
        return false;
      }
      offset, partial := 0, "";
      if f.setMeta {
        return false;
      }
      saved := Some(0);
      return true;
    }

    /** The part of readNewEvents that decides where to read from. */
    method Locate(size: nat)
      modifies this`offset, this`partial, this`offsetInitialized
      ensures Position() == Positioned(old(Position()), size)
    {
      if !offsetInitialized {
        offset := if saved.Some? && 0 <= saved.value <= size then saved.value else size;
        offsetInitialized := true;
      }
      if size < offset {
        offset, partial := 0, "";
      }
    }

    /** The part of readNewEvents that reads; None is an error. */
    method ReadText(log: LogFile, f: ReadFaults) returns (text: Option<string>)
      modifies this`offset, this`partial, this`offsetInitialized, this`saved
      ensures var o := Read(old(Position()), log, maxBytes, f);
        Position() == o.cursor && text == o.text
    {
      if f.stat || (!offsetInitialized && f.getMeta) {
        return None;
      }
      Locate(log.size);
      var tooBig := maxBytes > 0 && log.size > maxBytes;
      if log.size == offset {
        var ok := true;
        if tooBig {
          ok := TruncateScratchLog(f);
        }
        return if ok then Some("") else None;
      }
      if f.read {
        return None;
      }
      var chunk := Chunk(log.bytes, offset, maxBytes);
      offset := offset + |chunk|;
      if tooBig {
        var ok := TruncateScratchLog(f);
        if !ok {
          return None;
        }
      }
      if f.setMeta {
        return None;
      }
      saved := Some(offset);
      return Some(chunk);
    }

    method ReadNewEvents(log: LogFile, f: ReadFaults) returns (r: Option<seq<E>>)
      requires parse("").None?
      modifies this`offset, this`partial, this`offsetInitialized, this`saved
      ensures (Position(), r) == ReadEvents(old(Position()), log, maxBytes, f, parse)
    {
      var text := ReadText(log, f);
      if text.None? {
        return None;
      }
      if text.value == "" {
        return Some([]);
      }
      var events := ParseChunk(text.value);
      return Some(events);
    }

    /** flush: a failed write keeps the batch for the next attempt. */
    method FlushBatch(ok: bool)
      modifies this`batch, this`recorded
      ensures Output() == Flush(old(Output()), ok)
    {
      if |batch| == 0 || !ok {
        return;
      }
      recorded := recorded + batch;
      batch := [];
    }

    /** A tick of the read ticker. */
    method ReadTick(log: LogFile, f: ReadFaults, flushes: nat -> bool)
      requires parse("").None?
      modifies this
      ensures var r := ReadEvents(old(Position()), log, maxBytes, f, parse);
        && Position() == r.0
        && Output() == if r.1.None? then old(Output()) else Enqueue(old(Output()), r.1.value, batchSize, flushes)
    {
      var r := ReadNewEvents(log, f);
      if r.None? {
        return;
      }
      ghost var position := Position();
      for i := 0 to |r.value|
        invariant Position() == position
        invariant Output() == Enqueue(old(Output()), r.value[..i], batchSize, flushes)
      {
        assert r.value[..i + 1][..i] == r.value[..i];
        batch := batch + [r.value[i]];
        if |batch| >= batchSize {
          FlushBatch(flushes(i));
        }
      }
      assert r.value[..|r.value|] == r.value;
    }
  }

  // ---------------------------------------------------------------------------------------------
  // Runs over a log that only grows

  /** The log and what the tailer made of it; returned collects the events of all successful reads. */
  datatype World<E> = World(bytes: string, cursor: Cursor, sink: Sink<E>, returned: seq<E>, start: nat)

  datatype Step =
    | Append(more: string)
    // The log may grow between the moment its size is taken and the moment it is read.
    | ReadTick(late: string, faults: ReadFaults, flushes: nat -> bool)
    | FlushTick(ok: bool)

  datatype Setup<!E> = Setup(parse: string -> Option<E>, maxBytes: nat, batchSize: nat)

  function Next<E>(setup: Setup<E>, w: World<E>, s: Step): World<E> {
    match s
    case Append(more) => w.(bytes := w.bytes + more)
    case FlushTick(ok) => w.(sink := Flush(w.sink, ok))
    case ReadTick(late, faults, flushes) =>
      var bytes := w.bytes + late;
      var (c, r) := ReadEvents(w.cursor, LogFile(|w.bytes|, bytes), setup.maxBytes, faults, setup.parse);
      var start := if !w.cursor.initialized && c.initialized then StartOffset(w.cursor.saved, |w.bytes|) else w.start;
      if r.None? then w.(bytes := bytes, cursor := c, start := start)
      else World(bytes, c, Enqueue(w.sink, r.value, setup.batchSize, flushes), w.returned + r.value, start)
  }

  function Run<E>(setup: Setup<E>, w: World<E>, steps: seq<Step>): World<E> {
    if steps == [] then w else Next(setup, Run(setup, w, steps[..|steps| - 1]), steps[|steps| - 1])
  }

  function Fresh<E>(bytes: string, saved: Option<int>): World<E> {
    World(bytes, Cursor(0, "", false, saved), Sink([], []), [], 0)
  }

  /** The bytes between the initial and the current offset. */
  function Covered<E>(w: World<E>): string
    requires w.start <= w.cursor.offset <= |w.bytes|
  {
    w.bytes[w.start..w.cursor.offset]
  }

  /** The reader is where parsing the whole covered stretch at once would be. */
  ghost predicate UpToDate<E>(setup: Setup<E>, w: World<E>) {
    && (w.cursor.initialized ==>
          && w.start <= w.cursor.offset <= |w.bytes|
          && w.returned == Parsed(setup.parse, CompleteLines(Covered(w)))
          && w.cursor.partial == Unfinished(Covered(w)))
    && (!w.cursor.initialized ==> w.returned == [] && w.cursor.partial == "")
    && w.sink.recorded + w.sink.batch == w.returned
  }

  /** A read that gets as far as taking text in and then cannot save the new offset, although that
      text finishes a line that parses or leaves a different unfinished line. */
  predicate Drops<E>(setup: Setup<E>, w: World<E>, s: Step) {
    && s.ReadTick? && s.faults.setMeta
    && !s.faults.stat && (w.cursor.initialized || !s.faults.getMeta) && !s.faults.read
    && var d := Positioned(w.cursor, |w.bytes|);
    && |w.bytes| != d.offset
    && var text := w.cursor.partial + Chunk(w.bytes + s.late, d.offset, setup.maxBytes);
    && (Parsed(setup.parse, CompleteLines(text)) != [] || Unfinished(text) != w.cursor.partial)
  }

  predicate WithinLimit<E>(setup: Setup<E>, w: World<E>, s: Step) {
    |Next(setup, w, s).bytes| <= setup.maxBytes
  }

  lemma NothingYet()
    ensures CompleteLines("") == [] && Unfinished("") == ""
  {
    assert Split("", '\n') == [""];
  }

  /** The bytes covered before a read, seen from the position the read starts at. */
  lemma ReadStartsWhereCovered<E>(setup: Setup<E>, w: World<E>, late: string) returns (start: nat, d: Cursor,
      seen: string)
    requires UpToDate(setup, w)
    ensures d == Positioned(w.cursor, |w.bytes|) && d.partial == w.cursor.partial
    ensures start == if w.cursor.initialized then w.start else StartOffset(w.cursor.saved, |w.bytes|)
    ensures start <= d.offset <= |w.bytes| && seen == (w.bytes + late)[start..d.offset]
    ensures w.returned == Parsed(setup.parse, CompleteLines(seen)) && w.cursor.partial == Unfinished(seen)
  {
    hide Split, CompleteLines, Unfinished;
    NothingYet();
    d := Positioned(w.cursor, |w.bytes|);
    start := if w.cursor.initialized then w.start else StartOffset(w.cursor.saved, |w.bytes|);
    seen := (w.bytes + late)[start..d.offset];
    assert seen == w.bytes[start..d.offset];
    if w.cursor.initialized {
      assert seen == Covered(w);
    } else {
      assert seen == "";
    }
  }

  /** For a log within its limit a step leaves the reader exact if and only if it does not drop text. */
  lemma StepIsExactExactlyWhen<E>(setup: Setup<E>, w: World<E>, s: Step)
    requires setup.parse("").None? && WithinLimit(setup, w, s) && UpToDate(setup, w)
    ensures UpToDate(setup, Next(setup, w, s)) <==> !Drops(setup, w, s)
  {
    match s
    case Append(more) =>
      if w.cursor.initialized {
        assert Covered(Next(setup, w, s)) == Covered(w);
      }
    case FlushTick(ok) =>
    case ReadTick(_, _, _) => ReadIsExactExactlyWhen(setup, w, s);
  }

  lemma ReadIsExactExactlyWhen<E>(setup: Setup<E>, w: World<E>, s: Step)
    requires setup.parse("").None? && s.ReadTick? && WithinLimit(setup, w, s) && UpToDate(setup, w)
    ensures UpToDate(setup, Next(setup, w, s)) <==> !Drops(setup, w, s)
  {
    hide Enqueue, Split, CompleteLines, Unfinished;
    var start, d, seen := ReadStartsWhereCovered(setup, w, s.late);
    var after, bytes := Next(setup, w, s), w.bytes + s.late;
    assert |bytes| == |after.bytes| <= setup.maxBytes;
    if after.cursor.initialized && after.cursor.offset != d.offset {
      var chunk := bytes[d.offset..];
      assert after.cursor.offset == |bytes| && Chunk(bytes, d.offset, setup.maxBytes) == chunk;
      assert Covered(after) == seen + chunk;
      LinesContinue(seen, chunk);
      ParsedAppend(setup.parse, CompleteLines(seen), CompleteLines(d.partial + chunk));
    }
    var r := ReadEvents(w.cursor, LogFile(|w.bytes|, bytes), setup.maxBytes, s.faults, setup.parse).1;
    if r.Some? {
      EnqueueKeepsOrder(w.sink, r.value, setup.batchSize, s.flushes);
    }
  }

  /** For a log that only grows and stays within its limit, under any schedule of appends, reads and
      flushes (of which any may fail): the events returned so far are, after every step, exactly the
      parsed complete lines between the initial and the current offset, with the partial line the
      unfinished tail and recorded events followed by the pending batch the returned events in order,
      if and only if no read drops text because its offset could not be saved. */
  lemma {:induction false} IncrementalReadingIsExactExactlyWhen<E>(setup: Setup<E>, bytes: string, saved: Option<int>,
      steps: seq<Step>)
    requires setup.parse("").None?
    requires forall i :: 0 <= i < |steps| ==>
      WithinLimit(setup, Run(setup, Fresh<E>(bytes, saved), steps[..i]), steps[i])
    ensures (forall i :: 0 <= i <= |steps| ==> UpToDate(setup, Run(setup, Fresh<E>(bytes, saved), steps[..i]))) <==>
      forall i :: 0 <= i < |steps| ==> !Drops(setup, Run(setup, Fresh<E>(bytes, saved), steps[..i]), steps[i])
  {
    hide UpToDate, Drops, Next, WithinLimit;
    if steps == [] {
      FreshIsUpToDate(setup, bytes, saved);
    } else {
      var n := |steps| - 1;
      var before := steps[..n];
      assert forall i :: 0 <= i <= n ==> before[..i] == steps[..i];
      assert forall i :: 0 <= i < n ==> before[i] == steps[i];
      assert steps[..|steps|] == steps;
      IncrementalReadingIsExactExactlyWhen(setup, bytes, saved, before);
      var w := Run(setup, Fresh<E>(bytes, saved), before);
      assert w == Run(setup, Fresh<E>(bytes, saved), steps[..n]);
      if UpToDate(setup, w) {
        StepIsExactExactlyWhen(setup, w, steps[n]);
      }
    }
  }

  lemma FreshIsUpToDate<E>(setup: Setup<E>, bytes: string, saved: Option<int>)
    ensures UpToDate(setup, Fresh<E>(bytes, saved))
  {
  }

  /** In particular reading is exact as long as offsets can be saved. */
  lemma IncrementalReadingIsExact<E>(setup: Setup<E>, bytes: string, saved: Option<int>, steps: seq<Step>)
    requires setup.parse("").None?
    requires forall i :: 0 <= i < |steps| ==>
      WithinLimit(setup, Run(setup, Fresh<E>(bytes, saved), steps[..i]), steps[i])
    requires forall i :: 0 <= i < |steps| && steps[i].ReadTick? ==> !steps[i].faults.setMeta
    ensures UpToDate(setup, Run(setup, Fresh<E>(bytes, saved), steps))
  {
    hide UpToDate, Next, WithinLimit, Run;
    IncrementalReadingIsExactExactlyWhen(setup, bytes, saved, steps);
    assert steps[..|steps|] == steps;
  }

  /** When nothing is pending any more, every line finished since the start has been recorded. */
  lemma DrainedMeansRecorded<E>(setup: Setup<E>, w: World<E>)
    requires UpToDate(setup, w) && w.cursor.initialized
    requires w.sink.batch == [] && w.cursor.offset == |w.bytes|
    ensures w.sink.recorded == Parsed(setup.parse, CompleteLines(w.bytes[w.start..]))
  {
    assert w.bytes[w.start..] == Covered(w);
  }

  /** The offset moves before it is saved: a reader started on a log of one line loses it for good when
      the save after its first read fails. */
  lemma FailedSaveDropsLines() returns (setup: Setup<string>, steps: seq<Step>)
    ensures |steps| == 2 && steps[0].ReadTick? && steps[1].ReadTick? && !steps[1].faults.setMeta
    ensures setup.parse("").None? && WithinLimit(setup, Fresh<string>("a\n", Some(0)), steps[0])
    ensures Drops(setup, Fresh<string>("a\n", Some(0)), steps[0])
    ensures var w := Run(setup, Fresh<string>("a\n", Some(0)), steps);
      w.cursor.offset == 2 && w.returned == [] && Parsed(setup.parse, CompleteLines("a\n")) == ["a"]
  {
    setup := Setup((line: string) => if line == "" then None else Some(line), 10, 10);
    var failing := ReadTick("", ReadFaults(false, false, false, false, true), i => true);
    var fine := ReadTick("", ReadFaults(false, false, false, false, false), i => true);
    steps := [failing, fine];
    var w0 := Fresh<string>("a\n", Some(0));
    OneLine();
    assert Parsed(setup.parse, ["a"]) == ["a"] by { assert ["a"][..0] == []; }
    assert w0.bytes + "" == "a\n" && Chunk("a\n", 0, 10) == "a\n" && "" + "a\n" == "a\n";
    var w1 := Next(setup, w0, failing);
    assert w1.cursor.offset == 2 && w1.returned == [] && w1.bytes == "a\n" && w1.cursor.initialized;
    var w2 := Next(setup, w1, fine);
    assert w1.bytes + "" == "a\n";
    assert w2.cursor.offset == 2 && w2.returned == [];
    assert steps[..1] == [failing] && [failing][..0] == [];
    assert Run(setup, w0, [failing]) == w1;
    assert Run(setup, w0, steps) == w2;
  }

  lemma OneLine()
    ensures CompleteLines("a\n") == ["a"] && Unfinished("a\n") == ""
  {
    assert Split("", '\n') == [""];
    SplitAtSep("a", "", '\n');
    assert "a" + ['\n'] + "" == "a\n";
  }
}
