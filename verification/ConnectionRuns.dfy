/** What every run of recording, debug sessions and cleanup keeps in the diagnostics tables. */
module ConnectionRuns {
  import opened Rows
  import opened Text
  import opened Connections

  // ---------------------------------------------------------------------------------------------
  // Counts per user and hour

  ghost function PortSum(ports: map<PortKey, int>, k: HourKey): int {
    Sum(map p | p in ports && p.hour == k :: ports[p])
  }

  ghost function SourceSum(sources: map<SourceKey, int>, k: HourKey): int {
    Sum(map s | s in sources && s.hour == k :: sources[s])
  }

  lemma PortSumAfter(ports: map<PortKey, int>, p: PortKey, v: int, k: HourKey)
    ensures PortSum(ports[p := v], k) == PortSum(ports, k) + if p.hour == k then v - Get(ports, p) else 0
  {
    var before := map x | x in ports && x.hour == k :: ports[x];
    var after := map x | x in ports[p := v] && x.hour == k :: ports[p := v][x];
    if p.hour == k {
      assert after == before[p := v];
      SumUpdate(before, p, v);
    } else {
      assert after == before;
    }
  }

  lemma SourceSumAfter(sources: map<SourceKey, int>, s: SourceKey, v: int, k: HourKey)
    ensures SourceSum(sources[s := v], k) == SourceSum(sources, k) + if s.hour == k then v - Get(sources, s) else 0
  {
    var before := map x | x in sources && x.hour == k :: sources[x];
    var after := map x | x in sources[s := v] && x.hour == k :: sources[s := v][x];
    if s.hour == k {
      assert after == before[s := v];
      SumUpdate(before, s, v);
    } else {
      assert after == before;
    }
  }

  ghost predicate NoRowsOf(t: Tables, k: HourKey) {
    && (forall p :: p in t.ports ==> p.hour != k)
    && (forall s :: s in t.sources ==> s.hour != k)
  }

  /** The counts of one user's hour fit together, with room for some more ports and sources. */
  ghost predicate Fits(t: Tables, k: HourKey, cap: nat, morePorts: nat, moreSources: nat) {
    && SourceRows(t.sources, k) <= cap
    && if k in t.hourly then
         var row := t.hourly[k];
         && row.accepted >= 0 && row.rejected >= 0 && row.overflow >= 0
         && row.accepted + row.rejected <= row.Events()
         && PortSum(t.ports, k) + morePorts <= row.Events()
         && SourceSum(t.sources, k) + row.overflow + moreSources <= row.Events()
       else NoRowsOf(t, k)
  }

  /** Per user and hour: accepted and rejected results, port counts, and source counts with their
      overflow are each at most the number of events; the source rows respect the cap; and no port
      or source row stands without its hourly row. */
  ghost predicate Consistent(t: Tables, cap: nat) {
    forall k :: Fits(t, k, cap, 0, 0)
  }

  function EventsIn(t: Tables, k: HourKey): int {
    if k in t.hourly then t.hourly[k].Events() else 0
  }

  lemma EmptySums(t: Tables, k: HourKey)
    requires NoRowsOf(t, k)
    ensures PortSum(t.ports, k) == 0 && SourceSum(t.sources, k) == 0
  {
    assert (map p | p in t.ports && p.hour == k :: t.ports[p]) == map[];
    assert (map s | s in t.sources && s.hour == k :: t.sources[s]) == map[];
  }

  lemma CountHourFits(t: Tables, k0: HourKey, ev: Event, ts: int, k: HourKey, cap: nat)
    requires Fits(t, k, cap, 0, 0)
    ensures Fits(CountHour(t, k0, ev, ts), k, cap, if k == k0 then 1 else 0, if k == k0 then 1 else 0)
    ensures EventsIn(CountHour(t, k0, ev, ts), k) == EventsIn(t, k) + if k == k0 then 1 else 0
  {
    if k !in t.hourly {
      EmptySums(t, k);
    }
  }

  lemma CountPortFits(t: Tables, p: PortKey, k: HourKey, cap: nat, s: nat)
    requires p.hour in t.hourly && Fits(t, k, cap, if k == p.hour then 1 else 0, s)
    ensures Fits(CountPort(t, p), k, cap, 0, s)
  {
    PortSumAfter(t.ports, p, Get(t.ports, p) + 1, k);
  }

  lemma CountSourceFits(t: Tables, s: SourceKey, k: HourKey, cap: nat, p: nat)
    requires s.hour in t.hourly && Fits(t, k, cap, p, if k == s.hour then 1 else 0)
    ensures Fits(CountSource(t, s, cap), k, cap, p, 0)
    ensures EventsIn(CountSource(t, s, cap), k) == EventsIn(t, k)
  {
    hide PortSum, SourceSum, SourceRows;
    SourceSumAfter(t.sources, s, Get(t.sources, s) + 1, k);
    SourceRowsAfterInsert(t.sources, s, Get(t.sources, s) + 1, k);
  }

  lemma AggregateFits(t: Tables, ev: Event, lim: Limits, k: HourKey)
    requires Fits(t, k, lim.sources, 0, 0)
    ensures Fits(Aggregate(t, ev, lim), k, lim.sources, 0, 0)
    ensures EventsIn(Aggregate(t, ev, lim), k) == EventsIn(t, k) + if KeyOf(ev, lim.now) == k then 1 else 0
  {
    var k0 := KeyOf(ev, lim.now);
    var one := if k == k0 then 1 else 0;
    var t1 := CountHour(t, k0, ev, TimeOf(ev, lim.now));
    CountHourFits(t, k0, ev, TimeOf(ev, lim.now), k, lim.sources);
    var t2 := if ev.port > 0 then CountPort(t1, PortKey(k0, ev.port)) else t1;
    assert Fits(t2, k, lim.sources, 0, one) by {
      if ev.port > 0 {
        CountPortFits(t1, PortKey(k0, ev.port), k, lim.sources, one);
      }
    }
    if ev.source != "" {
      CountSourceFits(t2, SourceKey(k0, ev.source), k, lim.sources, 0);
    }
  }

  lemma CaptureKeepsAggregates(t: Tables, ev: Event, ts: int, cap: nat, now: int)
    ensures var u := Capture(t, ev, ts, cap, now);
      u.hourly == t.hourly && u.ports == t.ports && u.sources == t.sources
  {
  }

  lemma SameAggregatesFit(t: Tables, u: Tables, k: HourKey, cap: nat)
    requires u.hourly == t.hourly && u.ports == t.ports && u.sources == t.sources
    ensures Fits(u, k, cap, 0, 0) == Fits(t, k, cap, 0, 0) && EventsIn(u, k) == EventsIn(t, k)
  {
  }

  lemma RecordOneFits(t: Tables, ev: Event, lim: Limits, k: HourKey)
    requires Fits(t, k, lim.sources, 0, 0)
    ensures Fits(RecordOne(t, ev, lim), k, lim.sources, 0, 0)
    ensures EventsIn(RecordOne(t, ev, lim), k) == EventsIn(t, k) +
      if ev.email != "" && KeyOf(ev, lim.now) == k then 1 else 0
  {
    if ev.email == "" {
      return;
    }
    AggregateFits(t, ev, lim, k);
    CaptureKeepsAggregates(Aggregate(t, ev, lim), ev, TimeOf(ev, lim.now), lim.debug, lim.now);
    SameAggregatesFit(Aggregate(t, ev, lim), RecordOne(t, ev, lim), k, lim.sources);
  }

  function CountOf(events: seq<Event>, now: int, k: HourKey): nat {
    if events == [] then 0
    else
      var ev := events[|events| - 1];
      CountOf(events[..|events| - 1], now, k) + if ev.email != "" && KeyOf(ev, now) == k then 1 else 0
  }

  lemma {:induction false} RecordAllFits(t: Tables, events: seq<Event>, lim: Limits, k: HourKey)
    requires Fits(t, k, lim.sources, 0, 0)
    ensures Fits(RecordAll(t, events, lim), k, lim.sources, 0, 0)
    ensures EventsIn(RecordAll(t, events, lim), k) == EventsIn(t, k) + CountOf(events, lim.now, k)
  {
    if events != [] {
      RecordAllFits(t, events[..|events| - 1], lim, k);
      RecordOneFits(RecordAll(t, events[..|events| - 1], lim), events[|events| - 1], lim, k);
    }
  }

  // ---------------------------------------------------------------------------------------------
  // Cleanup and its prefixes

  ghost predicate OldSource(t: Tables, cutoff: int) {
    exists s :: s in t.sources && s.hour.start < cutoff
  }

  ghost predicate OldPort(t: Tables, cutoff: int) {
    exists p :: p in t.ports && p.hour.start < cutoff
  }

  lemma YoungPortsKept(ports: map<PortKey, int>, cutoff: int, k: HourKey)
    requires k.start >= cutoff
    ensures PortSum(map p | p in ports && p.hour.start >= cutoff :: ports[p], k) == PortSum(ports, k)
  {
    var left := map p | p in ports && p.hour.start >= cutoff :: ports[p];
    assert (map p | p in left && p.hour == k :: left[p]) == (map p | p in ports && p.hour == k :: ports[p]);
  }

  lemma YoungSourcesKept(sources: map<SourceKey, int>, cutoff: int, k: HourKey)
    requires k.start >= cutoff
    ensures var left := map s | s in sources && s.hour.start >= cutoff :: sources[s];
      SourceSum(left, k) == SourceSum(sources, k) && SourceRows(left, k) == SourceRows(sources, k)
  {
    var left := map s | s in sources && s.hour.start >= cutoff :: sources[s];
    assert (map s | s in left && s.hour == k :: left[s]) == (map s | s in sources && s.hour == k :: sources[s]);
    assert OfHour(left.Keys, k) == OfHour(sources.Keys, k);
  }

  /** An hour that stays keeps its rows under every prefix of the cleanup. */
  lemma YoungHourFits(t: Tables, now: int, retention: int, done: nat, k: HourKey, cap: nat)
    requires Fits(t, k, cap, 0, 0) && k.start >= now - RetentionOf(retention)
    ensures Fits(Cleaned(t, now, retention, done), k, cap, 0, 0)
    ensures EventsIn(Cleaned(t, now, retention, done), k) == EventsIn(t, k)
  {
    hide PortSum, SourceSum, SourceRows;
    var cutoff := now - RetentionOf(retention);
    YoungPortsKept(t.ports, cutoff, k);
    YoungSourcesKept(t.sources, cutoff, k);
  }

  /** An old hour is untouched by the first three statements and gone after all six. */
  lemma OldHourFits(t: Tables, now: int, retention: int, done: nat, k: HourKey, cap: nat)
    requires Fits(t, k, cap, 0, 0) && k.start < now - RetentionOf(retention)
    requires done <= 3 || done >= 6
    ensures Fits(Cleaned(t, now, retention, done), k, cap, 0, 0)
    ensures EventsIn(Cleaned(t, now, retention, done), k) == if done >= 4 then 0 else EventsIn(t, k)
  {
    var u := Cleaned(t, now, retention, done);
    if done >= 6 {
      assert OfHour(u.sources.Keys, k) == {};
    } else {
      SameAggregatesFit(t, u, k, cap);
    }
  }

  /** A cleanup that does not stop right after the hourly rows while old source or port rows remain, nor
      right after the source rows while old port rows remain. */
  ghost predicate StopsCleanly(t: Tables, now: int, retention: int, done: nat) {
    var cutoff := now - RetentionOf(retention);
    !(done == 4 && (OldSource(t, cutoff) || OldPort(t, cutoff))) && !(done == 5 && OldPort(t, cutoff))
  }

  /** The cleanup is not a transaction. Stopped after any prefix of its statements it leaves the
      aggregates consistent, except when it stops right after the hourly rows while old source or
      port rows remain, or right after the source rows while old port rows remain. */
  lemma PrefixIsConsistentExactlyWhen(t: Tables, now: int, retention: int, done: nat, cap: nat)
    requires Consistent(t, cap)
    ensures Consistent(Cleaned(t, now, retention, done), cap) <==> StopsCleanly(t, now, retention, done)
  {
    var cutoff := now - RetentionOf(retention);
    var u := Cleaned(t, now, retention, done);
    if done == 4 && OldSource(t, cutoff) {
      var s :| s in t.sources && s.hour.start < cutoff;
      assert s in u.sources && !Fits(u, s.hour, cap, 0, 0);
    } else if (done == 4 || done == 5) && OldPort(t, cutoff) {
      var p :| p in t.ports && p.hour.start < cutoff;
      assert p in u.ports && !Fits(u, p.hour, cap, 0, 0);
    } else {
      forall k ensures Fits(u, k, cap, 0, 0) {
        assert Fits(t, k, cap, 0, 0);
        if k.start >= cutoff {
          YoungHourFits(t, now, retention, done, k, cap);
        } else if done <= 3 || done >= 6 {
          OldHourFits(t, now, retention, done, k, cap);
        } else {
          assert NoRowsOf(u, k);
          assert OfHour(u.sources.Keys, k) == {};
        }
      }
    }
  }

  // ---------------------------------------------------------------------------------------------
  // Runs

  datatype Op =
    | Record(events: seq<Event>, debugCap: int, now: int, commits: bool)
    | Start(email: string, duration: int, now: int, commits: bool)
    | Stop(email: string, commits: bool)
    | Cleanup(now: int, retention: int, done: nat)

  function Apply(t: Tables, op: Op, sourceCap: int): Tables {
    match op
    case Record(events, debugCap, now, commits) =>
      if events == [] || !commits then t else RecordAll(t, events, LimitsOf(sourceCap, debugCap, now))
    case Start(email, duration, now, commits) => if commits then Started(t, email, duration, now) else t
    case Stop(email, commits) => if commits then Stopped(t, email) else t
    case Cleanup(now, retention, done) => Cleaned(t, now, retention, done)
  }

  function Run(ops: seq<Op>, sourceCap: int): Tables {
    if ops == [] then NO_TABLES else Apply(Run(ops[..|ops| - 1], sourceCap), ops[|ops| - 1], sourceCap)
  }

  /** How many events were recorded for a user's hour since it was last cleaned up. */
  function Recorded(ops: seq<Op>, k: HourKey): nat {
    if ops == [] then 0
    else
      var n := Recorded(ops[..|ops| - 1], k);
      match ops[|ops| - 1]
      case Record(events, _, now, commits) => if commits then n + CountOf(events, now, k) else n
      case Cleanup(now, retention, done) => if done >= 4 && k.start < now - RetentionOf(retention) then 0 else n
      case _ => n
  }

  /** A cleanup that gets as far as the aggregates finishes them. */
  ghost predicate WholeCleanups(ops: seq<Op>) {
    forall i :: 0 <= i < |ops| && ops[i].Cleanup? ==> ops[i].done <= 3 || ops[i].done >= 6
  }

  /** In every state reached by recording and cleanup with a fixed cap, the family counts of a user's
      hour sum to the number of events recorded for it, and every other count fits under that. */
  lemma {:induction false} RunsCountEveryEvent(ops: seq<Op>, sourceCap: int, k: HourKey)
    requires WholeCleanups(ops)
    ensures Fits(Run(ops, sourceCap), k, CapOf(sourceCap, DEFAULT_SOURCE_CAP), 0, 0)
    ensures EventsIn(Run(ops, sourceCap), k) == Recorded(ops, k)
  {
    if ops == [] {
      assert OfHour({}, k) == {};
    } else {
      RunsCountEveryEvent(ops[..|ops| - 1], sourceCap, k);
      var t := Run(ops[..|ops| - 1], sourceCap);
      match ops[|ops| - 1]
      case Record(events, debugCap, now, commits) => RecordAllFits(t, events, LimitsOf(sourceCap, debugCap, now), k);
      case Cleanup(now, retention, done) =>
        if k.start >= now - RetentionOf(retention) {
          YoungHourFits(t, now, retention, done, k, CapOf(sourceCap, DEFAULT_SOURCE_CAP));
        } else {
          OldHourFits(t, now, retention, done, k, CapOf(sourceCap, DEFAULT_SOURCE_CAP));
        }
      case Start(_, _, _, _) =>
      case Stop(_, _) =>
    }
  }

  // ---------------------------------------------------------------------------------------------
  // Runs with cleanups that stop anywhere

  lemma CountSourceEvents(t: Tables, s: SourceKey, cap: nat, k: HourKey)
    ensures EventsIn(CountSource(t, s, cap), k) == EventsIn(t, k)
  {
    hide SourceRows;
  }

  lemma CountHourEvents(t: Tables, k0: HourKey, ev: Event, ts: int, k: HourKey)
    ensures EventsIn(CountHour(t, k0, ev, ts), k) == EventsIn(t, k) + if k == k0 then 1 else 0
  {
  }

  lemma RecordOneEvents(t: Tables, ev: Event, lim: Limits, k: HourKey)
    ensures EventsIn(RecordOne(t, ev, lim), k) == EventsIn(t, k) +
      if ev.email != "" && KeyOf(ev, lim.now) == k then 1 else 0
  {
    hide CountHour, CountSource, KeyOf, Capture, SourceRows;
    var k0 := KeyOf(ev, lim.now);
    var t1 := CountHour(t, k0, ev, TimeOf(ev, lim.now));
    CountHourEvents(t, k0, ev, TimeOf(ev, lim.now), k);
    var t2 := if ev.port > 0 then CountPort(t1, PortKey(k0, ev.port)) else t1;
    CountSourceEvents(t2, SourceKey(k0, ev.source), lim.sources, k);
    CaptureKeepsAggregates(Aggregate(t, ev, lim), ev, TimeOf(ev, lim.now), lim.debug, lim.now);
  }

  lemma {:induction false} RecordAllEvents(t: Tables, events: seq<Event>, lim: Limits, k: HourKey)
    ensures EventsIn(RecordAll(t, events, lim), k) == EventsIn(t, k) + CountOf(events, lim.now, k)
  {
    hide RecordOne, EventsIn, KeyOf;
    if events != [] {
      RecordAllEvents(t, events[..|events| - 1], lim, k);
      RecordOneEvents(RecordAll(t, events[..|events| - 1], lim), events[|events| - 1], lim, k);
    }
  }

  /** Wherever cleanups stop, the family counts of a user's hour sum to the number of events recorded for
      it since its row was last deleted. */
  lemma {:induction false} StoppedRunsCountEveryEvent(ops: seq<Op>, sourceCap: int, k: HourKey)
    ensures EventsIn(Run(ops, sourceCap), k) == Recorded(ops, k)
  {
    hide RecordAll, WithoutEmails, Since;
    if ops != [] {
      StoppedRunsCountEveryEvent(ops[..|ops| - 1], sourceCap, k);
      if ops[|ops| - 1].Record? {
        var op := ops[|ops| - 1];
        RecordAllEvents(Run(ops[..|ops| - 1], sourceCap), op.events, LimitsOf(sourceCap, op.debugCap, op.now), k);
      }
    }
  }

  ghost predicate StopsCleanlyAt(ops: seq<Op>, sourceCap: int, i: nat)
    requires i < |ops|
  {
    ops[i].Cleanup? ==> StopsCleanly(Run(ops[..i], sourceCap), ops[i].now, ops[i].retention, ops[i].done)
  }

  lemma ApplyIsConsistentExactlyWhen(t: Tables, op: Op, sourceCap: int)
    requires Consistent(t, CapOf(sourceCap, DEFAULT_SOURCE_CAP))
    ensures Consistent(Apply(t, op, sourceCap), CapOf(sourceCap, DEFAULT_SOURCE_CAP)) <==>
      (op.Cleanup? ==> StopsCleanly(t, op.now, op.retention, op.done))
  {
    hide Fits, StopsCleanly;
    var cap := CapOf(sourceCap, DEFAULT_SOURCE_CAP);
    match op
    case Cleanup(now, retention, done) => PrefixIsConsistentExactlyWhen(t, now, retention, done, cap);
    case Record(events, debugCap, now, commits) =>
      forall k ensures Fits(RecordAll(t, events, LimitsOf(sourceCap, debugCap, now)), k, cap, 0, 0) {
        RecordAllFits(t, events, LimitsOf(sourceCap, debugCap, now), k);
      }
    case Start(email, duration, now, commits) =>
      forall k ensures Fits(Apply(t, op, sourceCap), k, cap, 0, 0) {
        SameAggregatesFit(t, Apply(t, op, sourceCap), k, cap);
      }
    case Stop(email, commits) =>
      forall k ensures Fits(Apply(t, op, sourceCap), k, cap, 0, 0) {
        SameAggregatesFit(t, Apply(t, op, sourceCap), k, cap);
      }
  }

  ghost predicate ConsistentAt(ops: seq<Op>, sourceCap: int, i: nat)
    requires i <= |ops|
  {
    Consistent(Run(ops[..i], sourceCap), CapOf(sourceCap, DEFAULT_SOURCE_CAP))
  }

  lemma NextIsConsistentExactlyWhen(ops: seq<Op>, sourceCap: int, i: nat)
    requires i < |ops| && ConsistentAt(ops, sourceCap, i)
    ensures ConsistentAt(ops, sourceCap, i + 1) <==> StopsCleanlyAt(ops, sourceCap, i)
  {
    hide Consistent, StopsCleanly, Apply;
    assert ops[..i + 1][..i] == ops[..i];
    ApplyIsConsistentExactlyWhen(Run(ops[..i], sourceCap), ops[i], sourceCap);
  }

  lemma {:induction false} CleanStopsStayConsistent(ops: seq<Op>, sourceCap: int, i: nat)
    requires i <= |ops| && forall j :: 0 <= j < i ==> StopsCleanlyAt(ops, sourceCap, j)
    ensures ConsistentAt(ops, sourceCap, i)
  {
    hide StopsCleanlyAt, Fits;
    if i == 0 {
      assert ops[..0] == [];
      forall k ensures Fits(NO_TABLES, k, CapOf(sourceCap, DEFAULT_SOURCE_CAP), 0, 0) {
        NoTablesFit(k, CapOf(sourceCap, DEFAULT_SOURCE_CAP));
      }
    } else {
      CleanStopsStayConsistent(ops, sourceCap, i - 1);
      NextIsConsistentExactlyWhen(ops, sourceCap, i - 1);
    }
  }

  lemma NoTablesFit(k: HourKey, cap: nat)
    ensures Fits(NO_TABLES, k, cap, 0, 0)
  {
    assert OfHour({}, k) == {};
  }

  lemma {:induction false} FirstBadStop(ops: seq<Op>, sourceCap: int, m: nat) returns (i: nat)
    requires m <= |ops| && exists j :: 0 <= j < m && !StopsCleanlyAt(ops, sourceCap, j)
    ensures i < m && !StopsCleanlyAt(ops, sourceCap, i) && forall j :: 0 <= j < i ==> StopsCleanlyAt(ops, sourceCap, j)
  {
    hide StopsCleanlyAt;
    if exists j :: 0 <= j < m - 1 && !StopsCleanlyAt(ops, sourceCap, j) {
      i := FirstBadStop(ops, sourceCap, m - 1);
    } else {
      i := m - 1;
    }
  }

  /** Over every run of recording, sessions and cleanups that may stop anywhere, the aggregates are
      consistent throughout if and only if every cleanup stops cleanly. */
  lemma RunIsConsistentExactlyWhen(ops: seq<Op>, sourceCap: int)
    ensures (forall i :: 0 <= i <= |ops| ==> ConsistentAt(ops, sourceCap, i)) <==>
            (forall i :: 0 <= i < |ops| ==> StopsCleanlyAt(ops, sourceCap, i))
  {
    hide StopsCleanlyAt, ConsistentAt;
    if forall i :: 0 <= i < |ops| ==> StopsCleanlyAt(ops, sourceCap, i) {
      forall i | 0 <= i <= |ops| ensures ConsistentAt(ops, sourceCap, i) {
        CleanStopsStayConsistent(ops, sourceCap, i);
      }
    } else {
      var i := FirstBadStop(ops, sourceCap, |ops|);
      CleanStopsStayConsistent(ops, sourceCap, i);
      NextIsConsistentExactlyWhen(ops, sourceCap, i);
      assert !ConsistentAt(ops, sourceCap, i + 1);
    }
  }

  // ---------------------------------------------------------------------------------------------
  // A whole cleanup repairs

  /** Once all its statements are executed a cleanup leaves consistent aggregates if and only if the hours
      it keeps were consistent. */
  lemma WholeCleanupRepairsExactlyWhen(t: Tables, now: int, retention: int, done: nat, cap: nat)
    requires done >= 6
    ensures Consistent(Cleaned(t, now, retention, done), cap) <==>
      forall k: HourKey :: k.start >= now - RetentionOf(retention) ==> Fits(t, k, cap, 0, 0)
  {
    hide PortSum, SourceSum;
    var cutoff, u := now - RetentionOf(retention), Cleaned(t, now, retention, done);
    forall k ensures Fits(u, k, cap, 0, 0) <==> (k.start >= cutoff ==> Fits(t, k, cap, 0, 0)) {
      if k.start >= cutoff {
        YoungHourIsTheSame(t, now, retention, done, k, cap);
      } else {
        assert OfHour(u.sources.Keys, k) == {};
      }
    }
  }

  lemma YoungHourIsTheSame(t: Tables, now: int, retention: int, done: nat, k: HourKey, cap: nat)
    requires k.start >= now - RetentionOf(retention)
    ensures Fits(Cleaned(t, now, retention, done), k, cap, 0, 0) <==> Fits(t, k, cap, 0, 0)
  {
    hide PortSum, SourceSum, SourceRows;
    var cutoff := now - RetentionOf(retention);
    YoungPortsKept(t.ports, cutoff, k);
    YoungSourcesKept(t.sources, cutoff, k);
  }

  /** No cleanup of the run that stopped between the hourly and the port rows had this hour in reach. */
  ghost predicate OutOfReach(ops: seq<Op>, k: HourKey) {
    forall i :: 0 <= i < |ops| && ops[i].Cleanup? && 4 <= ops[i].done <= 5 ==>
      k.start >= ops[i].now - RetentionOf(ops[i].retention)
  }

  /** Hours that no stopped cleanup had in reach are consistent after every run. */
  lemma {:induction false} OutOfReachFits(ops: seq<Op>, sourceCap: int, k: HourKey)
    requires OutOfReach(ops, k)
    ensures Fits(Run(ops, sourceCap), k, CapOf(sourceCap, DEFAULT_SOURCE_CAP), 0, 0)
  {
    var cap := CapOf(sourceCap, DEFAULT_SOURCE_CAP);
    if ops == [] {
      NoTablesFit(k, cap);
    } else {
      var before := ops[..|ops| - 1];
      assert OutOfReach(before, k);
      OutOfReachFits(before, sourceCap, k);
      ApplyFits(Run(before, sourceCap), ops[|ops| - 1], sourceCap, k);
    }
  }

  lemma ApplyFits(t: Tables, op: Op, sourceCap: int, k: HourKey)
    requires Fits(t, k, CapOf(sourceCap, DEFAULT_SOURCE_CAP), 0, 0)
    requires op.Cleanup? && 4 <= op.done <= 5 ==> k.start >= op.now - RetentionOf(op.retention)
    ensures Fits(Apply(t, op, sourceCap), k, CapOf(sourceCap, DEFAULT_SOURCE_CAP), 0, 0)
  {
    hide Fits, Cleaned, RecordAll;
    var cap := CapOf(sourceCap, DEFAULT_SOURCE_CAP);
    match op
    case Cleanup(now, retention, done) =>
      if k.start >= now - RetentionOf(retention) {
        YoungHourFits(t, now, retention, done, k, cap);
      } else {
        OldHourFits(t, now, retention, done, k, cap);
      }
    case Record(events, debugCap, now, commits) => RecordAllFits(t, events, LimitsOf(sourceCap, debugCap, now), k);
    case Start(email, duration, now, commits) => SameAggregatesFit(t, Apply(t, op, sourceCap), k, cap);
    case Stop(email, commits) => SameAggregatesFit(t, Apply(t, op, sourceCap), k, cap);
  }

  /** Whatever rows stopped cleanups have stranded, the next cleanup that executes all its statements, and
      reaches as far as they did, leaves consistent aggregates. */
  lemma LaterCleanupRepairs(ops: seq<Op>, sourceCap: int, now: int, retention: int, done: nat)
    requires done >= 6
    requires forall i :: 0 <= i < |ops| && ops[i].Cleanup? && 4 <= ops[i].done <= 5 ==>
      ops[i].now - RetentionOf(ops[i].retention) <= now - RetentionOf(retention)
    ensures Consistent(Run(ops + [Cleanup(now, retention, done)], sourceCap), CapOf(sourceCap, DEFAULT_SOURCE_CAP))
  {
    hide Fits, Cleaned;
    var cap, l := CapOf(sourceCap, DEFAULT_SOURCE_CAP), ops + [Cleanup(now, retention, done)];
    assert l[..|l| - 1] == ops;
    forall k: HourKey | k.start >= now - RetentionOf(retention) ensures Fits(Run(ops, sourceCap), k, cap, 0, 0) {
      assert OutOfReach(ops, k);
      OutOfReachFits(ops, sourceCap, k);
    }
    WholeCleanupRepairsExactlyWhen(Run(ops, sourceCap), now, retention, done, cap);
  }

  // ---------------------------------------------------------------------------------------------
  // Debug capture

  /** Captured events belong to a user with a session and never outnumber the cap. */
  ghost predicate CaptureBounded(t: Tables, cap: nat) {
    && (forall i :: 0 <= i < |t.debug| ==> t.debug[i].email in t.sessions)
    && (forall e :: DebugCount(t.debug, e) <= cap)
  }

  lemma {:induction false} CountWithoutEmails(debug: seq<DebugEvent>, gone: set<Email>, e: Email)
    ensures DebugCount(WithoutEmails(debug, gone), e) == if e in gone then 0 else DebugCount(debug, e)
  {
    if debug != [] {
      CountWithoutEmails(debug[..|debug| - 1], gone, e);
      var kept := WithoutEmails(debug, gone);
      if debug[|debug| - 1].email !in gone {
        assert kept[..|kept| - 1] == WithoutEmails(debug[..|debug| - 1], gone);
      } else {
        assert kept == WithoutEmails(debug[..|debug| - 1], gone);
      }
    }
  }

  lemma {:induction false} CountSince(debug: seq<DebugEvent>, cutoff: int, e: Email)
    ensures DebugCount(Since(debug, cutoff), e) <= DebugCount(debug, e)
  {
    if debug != [] {
      CountSince(debug[..|debug| - 1], cutoff, e);
      var kept := Since(debug, cutoff);
      if debug[|debug| - 1].ts >= cutoff {
        assert kept[..|kept| - 1] == Since(debug[..|debug| - 1], cutoff);
      } else {
        assert kept == Since(debug[..|debug| - 1], cutoff);
      }
    }
  }

  lemma {:induction false} CountedMeansPresent(debug: seq<DebugEvent>, e: Email)
    ensures DebugCount(debug, e) > 0 <==> exists i :: 0 <= i < |debug| && debug[i].email == e
  {
    if debug != [] {
      CountedMeansPresent(debug[..|debug| - 1], e);
      if exists i :: 0 <= i < |debug| && debug[i].email == e {
        var i :| 0 <= i < |debug| && debug[i].email == e;
        assert i < |debug| - 1 ==> debug[..|debug| - 1][i].email == e;
      }
    }
  }

  /** The same, said with counts only. */
  ghost predicate Bounded(t: Tables, cap: nat, e: Email) {
    DebugCount(t.debug, e) <= if e in t.sessions then cap else 0
  }

  lemma BoundedMeansCaptureBounded(t: Tables, cap: nat)
    ensures CaptureBounded(t, cap) <==> forall e :: Bounded(t, cap, e)
  {
    forall e ensures DebugCount(t.debug, e) > 0 <==> exists i :: 0 <= i < |t.debug| && t.debug[i].email == e {
      CountedMeansPresent(t.debug, e);
    }
    if forall e :: Bounded(t, cap, e) {
      forall i | 0 <= i < |t.debug| ensures t.debug[i].email in t.sessions {
        assert Bounded(t, cap, t.debug[i].email);
      }
      forall e ensures DebugCount(t.debug, e) <= cap {
        assert Bounded(t, cap, e);
      }
    }
  }

  lemma {:induction false} RecordAllBounded(t: Tables, events: seq<Event>, lim: Limits, e: Email)
    requires Bounded(t, lim.debug, e)
    ensures Bounded(RecordAll(t, events, lim), lim.debug, e)
  {
    hide Aggregate;
    if events != [] {
      var before, ev := RecordAll(t, events[..|events| - 1], lim), events[|events| - 1];
      RecordAllBounded(t, events[..|events| - 1], lim, e);
      var after := RecordOne(before, ev, lim);
      RecordOneKeepsSessions(before, ev, lim);
      AggregateKeepsRest(before, ev, lim);
      if after.debug != before.debug {
        assert after.debug[..|after.debug| - 1] == before.debug;
      }
    }
  }

  /** After every store operation, and after every prefix of the cleanup statements, debug events
      never outnumber the cap per user and never belong to a user without a session. */
  lemma {:induction false} RunsBoundCapture(ops: seq<Op>, sourceCap: int, debugCap: int)
    requires forall i :: 0 <= i < |ops| && ops[i].Record? ==> ops[i].debugCap == debugCap
    ensures CaptureBounded(Run(ops, sourceCap), CapOf(debugCap, DEFAULT_DEBUG_CAP))
  {
    forall e ensures Bounded(Run(ops, sourceCap), CapOf(debugCap, DEFAULT_DEBUG_CAP), e) {
      RunsBoundOne(ops, sourceCap, debugCap, e);
    }
    BoundedMeansCaptureBounded(Run(ops, sourceCap), CapOf(debugCap, DEFAULT_DEBUG_CAP));
  }

  lemma StartKeepsBound(t: Tables, email: string, duration: int, now: int, cap: nat, e: Email)
    requires Bounded(t, cap, e)
    ensures Bounded(Started(t, email, duration, now), cap, e)
  {
    hide Trim, SessionLength;
  }

  lemma StopKeepsBound(t: Tables, email: string, cap: nat, e: Email)
    requires Bounded(t, cap, e)
    ensures Bounded(Stopped(t, email), cap, e)
  {
    hide Trim;
    CountWithoutEmails(t.debug, {Trim(email)}, e);
  }

  lemma CleanupKeepsBound(t: Tables, now: int, retention: int, done: nat, cap: nat, e: Email)
    requires Bounded(t, cap, e)
    ensures Bounded(Cleaned(t, now, retention, done), cap, e)
  {
    var expired := ExpiredEmails(t.sessions, now);
    CountWithoutEmails(t.debug, expired, e);
    CountSince(WithoutEmails(t.debug, expired), now - RetentionOf(retention), e);
  }

  lemma {:induction false} RunsBoundOne(ops: seq<Op>, sourceCap: int, debugCap: int, e: Email)
    requires forall i :: 0 <= i < |ops| && ops[i].Record? ==> ops[i].debugCap == debugCap
    ensures Bounded(Run(ops, sourceCap), CapOf(debugCap, DEFAULT_DEBUG_CAP), e)
  {
    hide RecordAll, Started, Stopped, Cleaned, DebugCount;
    var cap := CapOf(debugCap, DEFAULT_DEBUG_CAP);
    if ops == [] {
      NothingCaptured(e);
    } else {
      RunsBoundOne(ops[..|ops| - 1], sourceCap, debugCap, e);
      var t := Run(ops[..|ops| - 1], sourceCap);
      match ops[|ops| - 1]
      case Record(events, c, now, commits) => RecordAllBounded(t, events, LimitsOf(sourceCap, debugCap, now), e);
      case Start(email, duration, now, _) => StartKeepsBound(t, email, duration, now, cap, e);
      case Stop(email, _) => StopKeepsBound(t, email, cap, e);
      case Cleanup(now, retention, done) => CleanupKeepsBound(t, now, retention, done, cap, e);
    }
  }

  lemma NothingCaptured(e: Email)
    ensures DebugCount(NO_TABLES.debug, e) == 0
  {
  }

  // ---------------------------------------------------------------------------------------------
  // A cleanup that stops halfway

  /** One recorded event and a cleanup that fails right after deleting the hourly rows leave a port row
      without its hour. */
  lemma StoppedCleanupStrandsRows() returns (ops: seq<Op>)
    ensures |ops| == 2 && ops[0].Record? && |ops[0].events| == 1 && ops[1].Cleanup? && ops[1].done == 4
    ensures Consistent(Run(ops[..1], 0), DEFAULT_SOURCE_CAP) && !Consistent(Run(ops, 0), DEFAULT_SOURCE_CAP)
  {
    hide Consistent, Cleaned, RecordAll;
    var ev := Event("u", Some(0), Accepted, "", "", 443, IPv4);
    ops := [Record([ev], 0, 0, true), Cleanup(1000000, 0, 4)];
    assert ops[..1] == [ops[0]] && ops[..|ops| - 1] == [ops[0]] && ops[..1][..0] == [];
    OneEventIsConsistent(ops[0]);
    var t := Run([ops[0]], 0);
    assert [ops[0]][..0] == [];
    assert t == RecordAll(NO_TABLES, [ev], LimitsOf(0, 0, 0));
    OneEventHasItsPort(ev, LimitsOf(0, 0, 0));
    PortRowIsOld(t, PortKey(KeyOf(ev, 0), 443), 1000000 - RetentionOf(0));
    PrefixIsConsistentExactlyWhen(t, 1000000, 0, 4, DEFAULT_SOURCE_CAP);
  }

  lemma OneEventIsConsistent(op: Op)
    requires op.Record?
    ensures Consistent(Run([op], 0), DEFAULT_SOURCE_CAP)
  {
    hide Fits, Run;
    forall k ensures Fits(Run([op], 0), k, DEFAULT_SOURCE_CAP, 0, 0) {
      RunsCountEveryEvent([op], 0, k);
    }
  }

  lemma PortRowIsOld(t: Tables, p: PortKey, cutoff: int)
    requires p in t.ports && p.hour.start <= 0 < cutoff
    ensures OldPort(t, cutoff)
  {
  }

  lemma OneEventHasItsPort(ev: Event, lim: Limits)
    requires ev.email != "" && ev.port > 0 && ev.source == "" && ev.ts == Some(0)
    ensures PortKey(KeyOf(ev, lim.now), ev.port) in RecordAll(NO_TABLES, [ev], lim).ports
    ensures KeyOf(ev, lim.now).start == 0
  {
    hide CountHour;
    assert [ev][..0] == [];
    assert RecordAll(NO_TABLES, [ev], lim) == RecordOne(NO_TABLES, ev, lim);
  }
}
