/** Every figure of the diagnostics tables is the number of recorded events of its kind. */
module ConnectionCounts {
  import opened Rows
  import opened Connections
  import opened ConnectionRuns

  /** What the aggregates tell apart. */
  datatype Kind = HasResult(result: Result) | HasFamily(family: Family) | HasPort(port: int) | HasSource

  predicate Is(ev: Event, kind: Kind) {
    match kind
    case HasResult(r) => ev.result == r
    case HasFamily(f) => ev.family == f
    case HasPort(p) => ev.port == p
    case HasSource => ev.source != ""
  }

  /** Unknown results and missing ports are not counted. */
  predicate Counted(kind: Kind) {
    kind != HasResult(UnknownResult) && (kind.HasPort? ==> kind.port > 0)
  }

  const NO_ROW := HourRow(0, 0, 0, 0, 0, 0, 0, 0)

  function RowOf(t: Tables, k: HourKey): HourRow {
    if k in t.hourly then t.hourly[k] else NO_ROW
  }

  /** The figure the tables hold for a kind of event in a user's hour. Sources beyond the cap are in
      the overflow. */
  ghost function Figure(t: Tables, k: HourKey, kind: Kind): int
    requires Counted(kind)
  {
    var row := RowOf(t, k);
    match kind
    case HasResult(r) => if r == Accepted then row.accepted else row.rejected
    case HasFamily(f) =>
      (match f case IPv4 => row.ipv4 case IPv6 => row.ipv6 case Domain => row.domain case UnknownFamily => row.unknown)
    case HasPort(p) => Get(t.ports, PortKey(k, p))
    case HasSource => SourceSum(t.sources, k) + row.overflow
  }

  predicate Belongs(ev: Event, now: int, k: HourKey, kind: Kind) {
    ev.email != "" && KeyOf(ev, now) == k && Is(ev, kind)
  }

  function Tally(events: seq<Event>, now: int, k: HourKey, kind: Kind): nat {
    if events == [] then 0
    else Tally(events[..|events| - 1], now, k, kind) + if Belongs(events[|events| - 1], now, k, kind) then 1 else 0
  }

  lemma HourIsCounted(t: Tables, k0: HourKey, ev: Event, ts: int, k: HourKey, kind: Kind)
    requires Counted(kind)
    ensures var u := CountHour(t, k0, ev, ts);
      k0 in u.hourly &&
      Figure(u, k, kind) == Figure(t, k, kind) +
        if k == k0 && (kind.HasResult? || kind.HasFamily?) && Is(ev, kind) then 1 else 0
  {
    hide SourceSum;
  }

  lemma PortIsCounted(t: Tables, p: PortKey, k: HourKey, kind: Kind)
    requires Counted(kind)
    ensures Figure(CountPort(t, p), k, kind) == Figure(t, k, kind) +
      if kind.HasPort? && p == PortKey(k, kind.port) then 1 else 0
    ensures CountPort(t, p).hourly == t.hourly
  {
    hide SourceSum;
  }

  lemma SourceIsCounted(t: Tables, s: SourceKey, cap: nat, k: HourKey, kind: Kind)
    requires Counted(kind) && s.hour in t.hourly
    ensures Figure(CountSource(t, s, cap), k, kind) == Figure(t, k, kind) +
      if kind.HasSource? && s.hour == k then 1 else 0
  {
    hide SourceSum, SourceRows;
    SourceSumAfter(t.sources, s, Get(t.sources, s) + 1, k);
  }

  lemma EventIsCounted(t: Tables, ev: Event, lim: Limits, k: HourKey, kind: Kind)
    requires Counted(kind)
    ensures Figure(RecordOne(t, ev, lim), k, kind) == Figure(t, k, kind) +
      if Belongs(ev, lim.now, k, kind) then 1 else 0
  {
    hide CountHour, CountPort, CountSource, Capture, TimeOf, SourceSum;
    if ev.email != "" {
      var k0 := KeyOf(ev, lim.now);
      var t1 := CountHour(t, k0, ev, TimeOf(ev, lim.now));
      HourIsCounted(t, k0, ev, TimeOf(ev, lim.now), k, kind);
      var t2 := if ev.port > 0 then CountPort(t1, PortKey(k0, ev.port)) else t1;
      PortIsCounted(t1, PortKey(k0, ev.port), k, kind);
      SourceIsCounted(t2, SourceKey(k0, ev.source), lim.sources, k, kind);
      CaptureKeepsAggregates(Aggregate(t, ev, lim), ev, TimeOf(ev, lim.now), lim.debug, lim.now);
    }
  }

  /** Recording a batch adds to every figure exactly the number of its events of that kind. */
  lemma {:induction false} BatchIsCounted(t: Tables, events: seq<Event>, lim: Limits, k: HourKey, kind: Kind)
    requires Counted(kind)
    ensures Figure(RecordAll(t, events, lim), k, kind) == Figure(t, k, kind) + Tally(events, lim.now, k, kind)
  {
    hide RecordOne, Figure, Belongs;
    if events != [] {
      BatchIsCounted(t, events[..|events| - 1], lim, k, kind);
      EventIsCounted(RecordAll(t, events[..|events| - 1], lim), events[|events| - 1], lim, k, kind);
    }
  }

  /** A cleanup that executed so many statements has deleted the rows that hold the figure. */
  predicate Reaches(kind: Kind, done: nat) {
    if kind.HasPort? then done >= 6 else done >= 4
  }

  /** How many events of a kind were recorded for a user's hour since the rows that hold the figure were
      last cleaned up. */
  function RecordedOf(ops: seq<Op>, k: HourKey, kind: Kind): nat {
    if ops == [] then 0
    else
      var n := RecordedOf(ops[..|ops| - 1], k, kind);
      match ops[|ops| - 1]
      case Record(events, _, now, commits) => if commits then n + Tally(events, now, k, kind) else n
      case Cleanup(now, retention, done) => if Reaches(kind, done) &&
        k.start < now - RetentionOf(retention) then 0 else n
      case _ => n
  }

  lemma OldSourcesGone(sources: map<SourceKey, int>, cutoff: int, k: HourKey)
    requires k.start < cutoff
    ensures SourceSum(map s | s in sources && s.hour.start >= cutoff :: sources[s], k) == 0
  {
    var left := map s | s in sources && s.hour.start >= cutoff :: sources[s];
    assert (map s | s in left && s.hour == k :: left[s]) == map[];
  }

  lemma CleanupKeepsFigures(t: Tables, now: int, retention: int, done: nat, k: HourKey, kind: Kind)
    requires Counted(kind) && (kind.HasSource? ==> done != 4)
    ensures Figure(Cleaned(t, now, retention, done), k, kind) ==
      if Reaches(kind, done) && k.start < now - RetentionOf(retention) then 0 else Figure(t, k, kind)
  {
    hide SourceSum, SourceRows, WithoutEmails, Since;
    var cutoff := now - RetentionOf(retention);
    if done >= 4 {
      if k.start >= cutoff {
        YoungSourcesKept(t.sources, cutoff, k);
      } else {
        OldSourcesGone(t.sources, cutoff, k);
      }
    }
  }

  /** No cleanup stops between deleting the overflow, which is in the hourly rows, and the source rows. */
  ghost predicate NoStopAtSources(ops: seq<Op>) {
    forall i :: 0 <= i < |ops| && ops[i].Cleanup? ==> ops[i].done != 4
  }

  /** In every state reached by recording, debug sessions and cleanups, wherever these stop, the accepted,
      rejected, family and port figures of a user's hour are exactly the numbers of events of that kind
      recorded for it since the rows of the figure were last deleted; so are its source counts with their
      overflow when no cleanup stops between the two. */
  lemma {:induction false} RunsCountEveryKind(ops: seq<Op>, sourceCap: int, k: HourKey, kind: Kind)
    requires Counted(kind) && (kind.HasSource? ==> NoStopAtSources(ops))
    ensures Figure(Run(ops, sourceCap), k, kind) == RecordedOf(ops, k, kind)
  {
    hide Figure, RecordAll, Cleaned;
    if ops == [] {
      NothingCounted(k, kind);
    } else {
      RunsCountEveryKind(ops[..|ops| - 1], sourceCap, k, kind);
      var t := Run(ops[..|ops| - 1], sourceCap);
      match ops[|ops| - 1]
      case Record(events, debugCap, now, commits) =>
        BatchIsCounted(t, events, LimitsOf(sourceCap, debugCap, now), k, kind);
      case Cleanup(now, retention, done) => CleanupKeepsFigures(t, now, retention, done, k, kind);
      case Start(email, duration, now, commits) => SessionsKeepFigures(t, email, duration, now, k, kind);
      case Stop(email, commits) => SessionsKeepFigures(t, email, 0, 0, k, kind);
    }
  }

  lemma NothingCounted(k: HourKey, kind: Kind)
    requires Counted(kind)
    ensures Figure(NO_TABLES, k, kind) == 0
  {
    assert (map s | s in NO_TABLES.sources && s.hour == k :: NO_TABLES.sources[s]) == map[];
  }

  lemma SessionsKeepFigures(t: Tables, email: string, duration: int, now: int, k: HourKey, kind: Kind)
    requires Counted(kind)
    ensures Figure(Started(t, email, duration, now), k, kind) == Figure(t, k, kind)
    ensures Figure(Stopped(t, email), k, kind) == Figure(t, k, kind)
  {
    hide SourceSum;
  }
}
