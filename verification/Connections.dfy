/** Connection diagnostics in the agent's store: hourly aggregates with caps, debug capture and the
    multi-statement cleanup (internal/store/remote/diagnostics.go). */
module Connections {
  import opened Rows
  import opened Text
  import Traffic

  type Email = string

  const DEFAULT_SOURCE_CAP := 256
  const DEFAULT_DEBUG_CAP := 1000
  const DEFAULT_RETENTION := 7 * 86400
  const MAX_SESSION := 24 * 3600
  const DEFAULT_SESSION := 15 * 60

  /** A parsed access-log line. */
  datatype RawEvent = RawEvent(
    email: string, ts: Option<int>, result: string, source: string, destination: string, port: int, family: string)

  datatype Result = Accepted | Rejected | UnknownResult
  datatype Family = IPv4 | IPv6 | Domain | UnknownFamily

  /** The same with every field normalized for storage. */
  datatype Event = Event(
    email: Email, ts: Option<int>, result: Result, source: string, destination: string, port: int, family: Family)

  /** A user's hour: the key of connection_hourly. */
  datatype HourKey = HourKey(email: Email, start: int)
  datatype PortKey = PortKey(hour: HourKey, port: int)

  /** A source bucket is the trimmed source network itself, standing for its hash. */
  datatype SourceKey = SourceKey(hour: HourKey, bucket: string)

  datatype HourRow = HourRow(
    accepted: int, rejected: int, ipv4: int, ipv6: int, domain: int, unknown: int, overflow: int, lastSeen: int)
  {
    /** Every recorded event has exactly one destination family. */
    function Events(): int {
      ipv4 + ipv6 + domain + unknown
    }
  }

  datatype Session = Session(started: int, expires: int)

  datatype DebugEvent = DebugEvent(
    email: Email, ts: int, result: Result, source: string, destination: string, port: int, family: Family)

  datatype Tables = Tables(
    hourly: map<HourKey, HourRow>, ports: map<PortKey, int>, sources: map<SourceKey, int>,
    sessions: map<Email, Session>, debug: seq<DebugEvent>)

  const NO_TABLES := Tables(map[], map[], map[], map[], [])

  // ---------------------------------------------------------------------------------------------
  // Normalization

  function NormalizeResult(result: string): Result {
    var r := Lower(Trim(result));
    if r == "accepted" || r == "accept" then Accepted
    else if r == "rejected" || r == "reject" then Rejected
    else UnknownResult
  }

  function NormalizeFamily(family: string): Family {
    var f := Lower(Trim(family));
    if f == "ipv4" then IPv4 else if f == "ipv6" then IPv6 else if f == "domain" then Domain else UnknownFamily
  }

  function Normalize(raw: RawEvent): Event {
    Event(Trim(raw.email), raw.ts, NormalizeResult(raw.result), Trim(raw.source), Trim(raw.destination), raw.port,
          NormalizeFamily(raw.family))
  }

  function NormalizeAll(raw: seq<RawEvent>): seq<Event> {
    seq(|raw|, i requires 0 <= i < |raw| => Normalize(raw[i]))
  }

  function TimeOf(ev: Event, now: int): int {
    if ev.ts.Some? then ev.ts.value else now
  }

  function KeyOf(ev: Event, now: int): HourKey {
    HourKey(ev.email, Traffic.Bucket(TimeOf(ev, now), Traffic.HOUR))
  }

  function CapOf(cap: int, default: nat): (c: nat)
    requires default > 0
    ensures c > 0
  {
    if cap <= 0 then default else cap
  }

  // ---------------------------------------------------------------------------------------------
  // The statements of the recording transaction

  function One(b: bool): int {
    if b then 1 else 0
  }

  /** Upsert of connection_hourly. */
  function CountHour(t: Tables, k: HourKey, ev: Event, ts: int): Tables {
    var row := if k in t.hourly then t.hourly[k] else HourRow(0, 0, 0, 0, 0, 0, 0, ts);
    t.(hourly := t.hourly[k := HourRow(
      row.accepted + One(ev.result == Accepted), row.rejected + One(ev.result == Rejected),
      row.ipv4 + One(ev.family == IPv4), row.ipv6 + One(ev.family == IPv6),
      row.domain + One(ev.family == Domain), row.unknown + One(ev.family == UnknownFamily),
      row.overflow, if ts > row.lastSeen then ts else row.lastSeen)])
  }

  function CountPort(t: Tables, k: PortKey): Tables {
    t.(ports := t.ports[k := Get(t.ports, k) + 1])
  }

  /** SELECT COUNT(*) of a user's source rows in an hour. */
  function SourceRows(sources: map<SourceKey, int>, k: HourKey): nat {
    |OfHour(sources.Keys, k)|
  }

  function OfHour(keys: set<SourceKey>, k: HourKey): set<SourceKey> {
    set s | s in keys && s.hour == k
  }

  function CountOverflow(t: Tables, k: HourKey): Tables {
    if k in t.hourly then t.(hourly := t.hourly[k := t.hourly[k].(overflow := t.hourly[k].overflow + 1)]) else t
  }

  function CountSource(t: Tables, s: SourceKey, cap: nat): Tables {
    if s in t.sources then t.(sources := t.sources[s := t.sources[s] + 1])
    else if SourceRows(t.sources, s.hour) >= cap then CountOverflow(t, s.hour)
    else t.(sources := t.sources[s := 1])
  }

  function DebugCount(debug: seq<DebugEvent>, e: Email): nat {
    if debug == [] then 0 else DebugCount(debug[..|debug| - 1], e) + if debug[|debug| - 1].email == e then 1 else 0
  }

  predicate Active(sessions: map<Email, Session>, e: Email, now: int) {
    e in sessions && sessions[e].expires > now
  }

  function DebugRow(ev: Event, ts: int): DebugEvent {
    DebugEvent(ev.email, ts, ev.result, ev.source, ev.destination, ev.port, ev.family)
  }

  function Capture(t: Tables, ev: Event, ts: int, cap: nat, now: int): Tables {
    if Active(t.sessions, ev.email, now) && DebugCount(t.debug, ev.email) < cap
    then t.(debug := t.debug + [DebugRow(ev, ts)])
    else t
  }

  /** The caps and clock one call records with. */
  datatype Limits = Limits(sources: nat, debug: nat, now: int)

  /** The aggregate part of recording one event. */
  function Aggregate(t: Tables, ev: Event, lim: Limits): Tables {
    var k := KeyOf(ev, lim.now);
    var t1 := CountHour(t, k, ev, TimeOf(ev, lim.now));
    var t2 := if ev.port > 0 then CountPort(t1, PortKey(k, ev.port)) else t1;
    if ev.source != "" then CountSource(t2, SourceKey(k, ev.source), lim.sources) else t2
  }

  /** What one event does to the tables, reading every count from the tables themselves. */
  function RecordOne(t: Tables, ev: Event, lim: Limits): Tables {
    if ev.email == "" then t
    else Capture(Aggregate(t, ev, lim), ev, TimeOf(ev, lim.now), lim.debug, lim.now)
  }

  function RecordAll(t: Tables, events: seq<Event>, lim: Limits): Tables {
    if events == [] then t else RecordOne(RecordAll(t, events[..|events| - 1], lim), events[|events| - 1], lim)
  }

  lemma RecordAllStep(t: Tables, events: seq<Event>, i: nat, lim: Limits)
    requires i < |events|
    ensures RecordAll(t, events[..i + 1], lim) == RecordOne(RecordAll(t, events[..i], lim), events[i], lim)
  {
    assert events[..i + 1][..i] == events[..i];
  }

  /** Recording two batches one after the other is recording their concatenation. */
  lemma {:induction false} BatchesCompose(t: Tables, a: seq<Event>, b: seq<Event>, lim: Limits)
    ensures RecordAll(t, a + b, lim) == RecordAll(RecordAll(t, a, lim), b, lim)
  {
    if b == [] {
      assert a + b == a;
    } else {
      BatchesCompose(t, a, b[..|b| - 1], lim);
      assert (a + b)[..|a + b| - 1] == a + b[..|b| - 1];
    }
  }

  // ---------------------------------------------------------------------------------------------
  // The in-memory counts agree with the tables they cache

  lemma SourceRowsAfterInsert(sources: map<SourceKey, int>, s: SourceKey, n: int, k: HourKey)
    ensures SourceRows(sources[s := n], k) == SourceRows(sources, k) + if s !in sources && s.hour == k then 1 else 0
  {
    assert sources[s := n].Keys == sources.Keys + {s};
    OfHourAfterInsert(sources.Keys, s, k);
  }

  lemma OfHourAfterInsert(keys: set<SourceKey>, s: SourceKey, k: HourKey)
    ensures OfHour(keys + {s}, k) == OfHour(keys, k) + if s.hour == k then {s} else {}
    ensures |OfHour(keys + {s}, k)| == |OfHour(keys, k)| + if s !in keys && s.hour == k then 1 else 0
  {
    if s in keys {
      assert keys + {s} == keys;
    } else {
      assert OfHour(keys + {s}, k) == OfHour(keys, k) + if s.hour == k then {s} else {};
    }
  }

  lemma CountSourceKeepsRest(t: Tables, s: SourceKey, cap: nat)
    ensures var u := CountSource(t, s, cap);
      u.sessions == t.sessions && u.debug == t.debug && u.ports == t.ports
  {
  }

  lemma AggregateKeepsRest(t: Tables, ev: Event, lim: Limits)
    ensures Aggregate(t, ev, lim).sessions == t.sessions && Aggregate(t, ev, lim).debug == t.debug
  {
    var k := KeyOf(ev, lim.now);
    var t1 := CountHour(t, k, ev, TimeOf(ev, lim.now));
    var t2 := if ev.port > 0 then CountPort(t1, PortKey(k, ev.port)) else t1;
    CountSourceKeepsRest(t2, SourceKey(k, ev.source), lim.sources);
  }

  lemma RecordOneKeepsSessions(t: Tables, ev: Event, lim: Limits)
    ensures RecordOne(t, ev, lim).sessions == t.sessions
  {
    AggregateKeepsRest(t, ev, lim);
  }

  lemma {:induction false} SessionsUntouched(t: Tables, events: seq<Event>, lim: Limits)
    ensures RecordAll(t, events, lim).sessions == t.sessions
  {
    if events != [] {
      SessionsUntouched(t, events[..|events| - 1], lim);
      RecordOneKeepsSessions(RecordAll(t, events[..|events| - 1], lim), events[|events| - 1], lim);
    }
  }

  ghost predicate SourceCacheAgrees(cache: map<HourKey, int>, sources: map<SourceKey, int>) {
    forall k :: k in cache ==> cache[k] == SourceRows(sources, k)
  }

  ghost predicate DebugCacheAgrees(cache: map<Email, int>, sessions: map<Email, Session>, debug: seq<DebugEvent>,
      now: int) {
    && (forall e :: e in cache <==> Active(sessions, e, now))
    && (forall e :: e in cache ==> cache[e] == DebugCount(debug, e))
  }

  class DiagnosticsStore {
    var hourly: map<HourKey, HourRow>
    var ports: map<PortKey, int>
    var sources: map<SourceKey, int>
    var sessions: map<Email, Session>
    var debug: seq<DebugEvent>

    constructor ()
      ensures Contents() == NO_TABLES
    {
      hourly, ports, sources, sessions, debug := map[], map[], map[], map[], [];
    }

    ghost function Contents(): Tables
      reads this
    {
      Tables(hourly, ports, sources, sessions, debug)
    }

    /** The debug counts of the sessions that are active when recording starts. */
    method DebugEventCounts(now: int) returns (counts: map<Email, int>)
      ensures DebugCacheAgrees(counts, sessions, debug, now)
    {
      counts := map e | e in sessions && sessions[e].expires > now :: DebugCount(debug, e);
    }

    /** Counts one source network, consulting the cached number of source rows of its hour. */
    static method CountSourceCached(t: Tables, s: SourceKey, cap: nat, cache: map<HourKey, int>)
      returns (u: Tables, counts: map<HourKey, int>)
      requires SourceCacheAgrees(cache, t.sources)
      ensures u == CountSource(t, s, cap)
      ensures SourceCacheAgrees(counts, u.sources)
    {
      if s in t.sources {
        u, counts := t.(sources := t.sources[s := t.sources[s] + 1]), cache;
        forall k | k in counts ensures counts[k] == SourceRows(u.sources, k) {
          SourceRowsAfterInsert(t.sources, s, t.sources[s] + 1, k);
        }
        return;
      }
      var current := if s.hour in cache then cache[s.hour] else SourceRows(t.sources, s.hour);
      if current >= cap {
        u := CountOverflow(t, s.hour);
      } else {
        u := t.(sources := t.sources[s := 1]);
        forall k ensures SourceRows(u.sources, k) == SourceRows(t.sources, k) + if s.hour == k then 1 else 0 {
          SourceRowsAfterInsert(t.sources, s, 1, k);
        }
        current := current + 1;
      }
      counts := cache[s.hour := current];
    }

    /** Captures one event if its user has a session, consulting the cached number of captures. */
    static method CaptureCached(t: Tables, ev: Event, ts: int, cap: nat, now: int, cache: map<Email, int>)
      returns (u: Tables, counts: map<Email, int>)
      requires DebugCacheAgrees(cache, t.sessions, t.debug, now)
      ensures u == Capture(t, ev, ts, cap, now)
      ensures DebugCacheAgrees(counts, u.sessions, u.debug, now)
    {
      var e := ev.email;
      u, counts := t, cache;
      if e in cache && cache[e] < cap {
        u := t.(debug := t.debug + [DebugRow(ev, ts)]);
        assert u.debug[..|u.debug| - 1] == t.debug;
        counts := cache[e := cache[e] + 1];
      }
    }

    /** The loop body of the recording transaction. */
    static method RecordOneCached(t: Tables, ev: Event, lim: Limits, sourceCache: map<HourKey, int>,
        debugCache: map<Email, int>)
      returns (u: Tables, sourceCounts: map<HourKey, int>, debugCounts: map<Email, int>)
      requires SourceCacheAgrees(sourceCache, t.sources)
      requires DebugCacheAgrees(debugCache, t.sessions, t.debug, lim.now)
      ensures u == RecordOne(t, ev, lim)
      ensures SourceCacheAgrees(sourceCounts, u.sources)
      ensures DebugCacheAgrees(debugCounts, u.sessions, u.debug, lim.now)
    {
      u, sourceCounts, debugCounts := t, sourceCache, debugCache;
      if ev.email == "" {
        return;
      }
      var k, ts := KeyOf(ev, lim.now), TimeOf(ev, lim.now);
      u := CountHour(u, k, ev, ts);
      if ev.port > 0 {
        u := CountPort(u, PortKey(k, ev.port));
      }
      if ev.source != "" {
        u, sourceCounts := CountSourceCached(u, SourceKey(k, ev.source), lim.sources, sourceCounts);
      }
      u, debugCounts := CaptureCached(u, ev, ts, lim.debug, lim.now, debugCounts);
    }

    /** One transaction over the batch, with the source and debug counts kept in memory; when it does
        not commit nothing changes. */
    method RecordConnectionEvents(events: seq<RawEvent>, sourceCap: int, debugCap: int, now: int,
        commits: bool) returns (ok: bool)
      modifies this
      ensures ok == (events == [] || commits)
      ensures Contents() ==
        if ok then RecordAll(old(Contents()), NormalizeAll(events), LimitsOf(sourceCap, debugCap, now))
                            else old(Contents())
    {
      if |events| == 0 {
        return true;
      }
      var lim := LimitsOf(sourceCap, debugCap, now);
      var debugCounts := DebugEventCounts(now);
      var sourceCounts: map<HourKey, int> := map[];
      var t := Tables(hourly, ports, sources, sessions, debug);
      ghost var start, all := t, NormalizeAll(events);
      for i := 0 to |events|
        invariant t == RecordAll(start, all[..i], lim)
        invariant SourceCacheAgrees(sourceCounts, t.sources)
        invariant DebugCacheAgrees(debugCounts, t.sessions, t.debug, now)
        invariant Contents() == start
      {
        RecordAllStep(start, all, i, lim);
        t, sourceCounts, debugCounts := RecordOneCached(t, Normalize(events[i]), lim, sourceCounts, debugCounts);
      }
      assert all[..|events|] == all;
      if !commits {
        return false;
      }
      SessionsUntouched(start, all, lim);
      hourly, ports, sources, debug := t.hourly, t.ports, t.sources, t.debug;
      return true;
    }

    method StartDebugSession(email: string, duration: int, now: int, commits: bool) returns (r: Option<Session>)
      modifies this`sessions
      ensures Contents() == if commits then Started(old(Contents()), email, duration, now) else old(Contents())
      ensures r.None? <==> Blank(email) || !commits
      ensures r.Some? ==> now < r.value.expires <= now + MAX_SESSION
    {
      var e := Trim(email);
      if e == "" {
        return None;
      }
      var d := duration;
      if d <= 0 {
        d := DEFAULT_SESSION;
      }
      if d > MAX_SESSION {
        d := MAX_SESSION;
      }
      if !commits {
        return None;
      }
      sessions := sessions[e := Session(now, now + d)];
      return Some(Session(now, now + d));
    }

    method StopDebugSession(email: string, commits: bool) returns (ok: bool)
      modifies this`sessions, this`debug
      ensures ok == commits
      ensures Contents() == if ok then Stopped(old(Contents()), email) else old(Contents())
    {
      if !commits {
        return false;
      }
      var e := Trim(email);
      sessions := sessions - {e};
      debug := WithoutEmails(debug, {e});
      return true;
    }

    /** Six statements outside any transaction: done of them succeed before one fails. */
    method CleanupConnectionDiagnostics(now: int, retention: int, done: nat) returns (ok: bool)
      modifies this
      ensures ok <==> done >= 6
      ensures Contents() == Cleaned(old(Contents()), now, retention, done)
    {
      var cutoff := now - RetentionOf(retention);
      if done < 1 { return false; }
      var expired := set e | e in sessions && sessions[e].expires <= now;
      debug := WithoutEmails(debug, expired);
      if done < 2 { return false; }
      sessions := sessions - expired;
      if done < 3 { return false; }
      debug := Since(debug, cutoff);
      if done < 4 { return false; }
      hourly := map k | k in hourly && k.start >= cutoff :: hourly[k];
      if done < 5 { return false; }
      sources := map k | k in sources && k.hour.start >= cutoff :: sources[k];
      if done < 6 { return false; }
      ports := map k | k in ports && k.hour.start >= cutoff :: ports[k];
      return true;
    }
  }

  function LimitsOf(sourceCap: int, debugCap: int, now: int): Limits {
    Limits(CapOf(sourceCap, DEFAULT_SOURCE_CAP), CapOf(debugCap, DEFAULT_DEBUG_CAP), now)
  }

  // ---------------------------------------------------------------------------------------------
  // Sessions and cleanup on values

  function SessionLength(duration: int): int {
    if duration <= 0 then DEFAULT_SESSION else if duration > MAX_SESSION then MAX_SESSION else duration
  }

  function Started(t: Tables, email: string, duration: int, now: int): Tables {
    if Trim(email) == "" then t
    else t.(sessions := t.sessions[Trim(email) := Session(now, now + SessionLength(duration))])
  }

  function WithoutEmails(debug: seq<DebugEvent>, gone: set<Email>): seq<DebugEvent> {
    if debug == [] then []
    else
      WithoutEmails(debug[..|debug| - 1], gone) +
      if debug[|debug| - 1].email in gone then [] else [debug[|debug| - 1]]
  }

  function Since(debug: seq<DebugEvent>, cutoff: int): seq<DebugEvent> {
    if debug == [] then []
    else Since(debug[..|debug| - 1], cutoff) + if debug[|debug| - 1].ts < cutoff then [] else [debug[|debug| - 1]]
  }

  function Stopped(t: Tables, email: string): Tables {
    t.(sessions := t.sessions - {Trim(email)}, debug := WithoutEmails(t.debug, {Trim(email)}))
  }

  function RetentionOf(retention: int): int {
    if retention <= 0 then DEFAULT_RETENTION else retention
  }

  function ExpiredEmails(sessions: map<Email, Session>, now: int): set<Email> {
    set e | e in sessions && sessions[e].expires <= now
  }

  /** The tables after the first done statements of the cleanup. */
  function Cleaned(t: Tables, now: int, retention: int, done: nat): Tables {
    var cutoff := now - RetentionOf(retention);
    var expired := ExpiredEmails(t.sessions, now);
    var events := if done >= 1 then WithoutEmails(t.debug, expired) else t.debug;
    Tables(
      if done >= 4 then map k | k in t.hourly && k.start >= cutoff :: t.hourly[k] else t.hourly,
      if done >= 6 then map k | k in t.ports && k.hour.start >= cutoff :: t.ports[k] else t.ports,
      if done >= 5 then map k | k in t.sources && k.hour.start >= cutoff :: t.sources[k] else t.sources,
      if done >= 2 then t.sessions - expired else t.sessions,
      if done >= 3 then Since(events, cutoff) else events)
  }
}
