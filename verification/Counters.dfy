/** The collector against a running Xray: what survives restarts, failures and stale snapshots
    (internal/stats/collector.go over internal/stats/delta.go). */
module Counters {
  import opened Rows
  import opened Traffic
  import opened CounterNames

  function DeltaBytes(dir: Dir, n: int): Bytes {
    if dir == Up then Bytes(n, 0) else Bytes(0, n)
  }

  function Stored(l: Ledger, ch: Channel): Option<int> {
    if CounterKey(ch) in l.counters then Some(l.counters[CounterKey(ch)]) else None
  }

  /** What can go wrong while one counter is consumed. */
  datatype Faults = Faults(read: bool, meta: bool, commit: bool)

  /** Consuming one counter changes the tables only when no store call it makes fails. */
  function Consumed(l: Ledger, ch: Channel, current: int, now: int, faults: Faults): Ledger {
    var (delta, reset) := ComputeDelta(Stored(l, ch), current);
    if faults.read || (reset && faults.meta) || faults.commit then l
    else AddDeltaAndAdvance(l, Delta(ch.email, DeltaBytes(ch.dir, delta), now), CounterKey(ch), current)
  }

  /** One reading of ParseUserCounters. */
  datatype Reading = Reading(email: Email, up: int, down: int)

  class Collector {
    const store: TrafficStore

    constructor (store: TrafficStore)
      ensures this.store == store
    {
      this.store := store;
    }

    /** consumeCounter: computes the delta against the stored counter and persists both. */
    method ConsumeCounter(ch: Channel, current: int, now: int, faults: Faults) returns (r: Option<int>)
      modifies store
      ensures store.Tables() == Consumed(old(store.Tables()), ch, current, now, faults)
      ensures r.Some? ==> r.value == ComputeDelta(Stored(old(store.Tables()), ch), current).0
      ensures r.Some? <==> !(faults.read || faults.commit ||
                             (faults.meta && ComputeDelta(Stored(old(store.Tables()), ch), current).1))
    {
      if faults.read {
        return None;
      }
      var key := CounterKey(ch);
      var prev := if key in store.counters then Some(store.counters[key]) else None;
      var (delta, reset) := ComputeDelta(prev, current);
      if reset && faults.meta {
        return None;
      }
      var ok := store.AddDeltaAndAdvanceCounter(Delta(ch.email, DeltaBytes(ch.dir, delta), now), key,
        current, !faults.commit);
      if !ok {
        return None;
      }
      return Some(delta);
    }

    /** The counter loop of CollectOnce: users in any order, uplink before downlink, stopping at
        the first failure. */
    method CollectCounters(readings: seq<Reading>, now: int, faults: (nat, Dir) -> Faults) returns (ok: bool)
      modifies store
      ensures var r := CollectedAll(old(store.Tables()), readings, now, faults);
              store.Tables() == r.0 && ok == r.1
    {
      for i := 0 to |readings|
        invariant CollectedAll(old(store.Tables()), readings[..i], now, faults) == (store.Tables(), true)
      {
        assert readings[..i + 1][..i] == readings[..i];
        CollectedStops(old(store.Tables()), readings, i + 1, now, faults);
        var u := readings[i];
        var up := ConsumeCounter(Channel(u.email, Up), u.up, now, faults(i, Up));
        if up.None? {
          return false;
        }
        var down := ConsumeCounter(Channel(u.email, Down), u.down, now, faults(i, Down));
        if down.None? {
          return false;
        }
      }
      assert readings[..|readings|] == readings;
      return true;
    }
  }

  predicate Fails(l: Ledger, ch: Channel, current: int, faults: Faults) {
    faults.read || faults.commit || (faults.meta && ComputeDelta(Stored(l, ch), current).1)
  }

  function CollectedAll(l: Ledger, readings: seq<Reading>, now: int, faults: (nat, Dir) -> Faults): (Ledger, bool) {
    if readings == [] then (l, true)
    else
      var i := |readings| - 1;
      var (before, ok) := CollectedAll(l, readings[..i], now, faults);
      if !ok then (before, false)
      else
        var u := readings[i];
        var upDone := Consumed(before, Channel(u.email, Up), u.up, now, faults(i, Up));
        if Fails(before, Channel(u.email, Up), u.up, faults(i, Up)) then (upDone, false)
        else
          (Consumed(upDone, Channel(u.email, Down), u.down, now, faults(i, Down)),
           !Fails(upDone, Channel(u.email, Down), u.down, faults(i, Down)))
  }

  /** After a failed reading the rest of the readings change nothing. */
  lemma {:induction false} CollectedStops(l: Ledger, readings: seq<Reading>, i: nat, now: int,
      faults: (nat, Dir) -> Faults)
    requires i <= |readings|
    ensures !CollectedAll(l, readings[..i], now, faults).1 ==>
      CollectedAll(l, readings, now, faults) == CollectedAll(l, readings[..i], now, faults)
  {
    if i < |readings| {
      CollectedStops(l, readings[..|readings| - 1], i, now, faults);
      assert readings[..|readings| - 1][..i] == readings[..i];
    } else {
      assert readings[..i] == readings;
    }
  }

  // ---------------------------------------------------------------------------------------------
  // What is committed

  function Gain(prev: Option<int>, current: int): int {
    ComputeDelta(prev, current).0
  }

  /** The delta that consuming one counter commits, if any. */
  function DeltaOf(l: Ledger, ch: Channel, current: int, now: int, faults: Faults): seq<Delta> {
    var gain := Gain(Stored(l, ch), current);
    if !Fails(l, ch, current, faults) && gain > 0 then [Delta(ch.email, DeltaBytes(ch.dir, gain), now)] else []
  }

  /** The deltas that a list of readings commits, in order. */
  function DeltasOf(l: Ledger, readings: seq<Reading>, now: int, faults: (nat, Dir) -> Faults): seq<Delta> {
    if readings == [] then []
    else
      var i := |readings| - 1;
      var (before, ok) := CollectedAll(l, readings[..i], now, faults);
      var log := DeltasOf(l, readings[..i], now, faults);
      if !ok then log
      else
        var u := readings[i];
        var up := Channel(u.email, Up);
        var log' := log + DeltaOf(before, up, u.up, now, faults(i, Up));
        if Fails(before, up, u.up, faults(i, Up)) then log'
        else
          var upDone := Consumed(before, up, u.up, now, faults(i, Up));
          log' + DeltaOf(upDone, Channel(u.email, Down), u.down, now, faults(i, Down))
  }

  predicate SameAggregates(a: Ledger, b: Ledger) {
    a.hourly == b.hourly && a.daily == b.daily && a.total == b.total
  }

  lemma NothingReplayed(l: Ledger)
    ensures Replay(l, []) == l && SameAggregates(l, l) && NoNegative([])
  {
  }

  lemma ReadingCommits(l: Ledger, ch: Channel, current: int, now: int, faults: Faults, replayed: Ledger)
    requires SameAggregates(l, replayed)
    ensures SameAggregates(Consumed(l, ch, current, now, faults),
      Replay(replayed, DeltaOf(l, ch, current, now, faults)))
    ensures NoNegative(DeltaOf(l, ch, current, now, faults))
  {
    var c := DeltaOf(l, ch, current, now, faults);
    if c != [] {
      assert c[..|c| - 1] == [];
    }
  }

  lemma {:induction false} ReplayAppend(l: Ledger, a: seq<Delta>, b: seq<Delta>)
    ensures Replay(l, a + b) == Replay(Replay(l, a), b)
  {
    if b == [] {
      assert a + b == a;
    } else {
      ReplayAppend(l, a, b[..|b| - 1]);
      assert (a + b)[..|a + b| - 1] == a + b[..|b| - 1];
    }
  }

  lemma NoNegativeAppend(a: seq<Delta>, b: seq<Delta>)
    requires NoNegative(a) && NoNegative(b)
    ensures NoNegative(a + b)
  {
  }

  /** One more reading after a log. */
  lemma LogGrows(l: Ledger, log: seq<Delta>, ch: Channel, current: int, now: int, faults: Faults, start: Ledger)
    requires SameAggregates(l, Replay(start, log)) && NoNegative(log)
    ensures var after := log + DeltaOf(l, ch, current, now, faults);
      SameAggregates(Consumed(l, ch, current, now, faults), Replay(start, after)) && NoNegative(after)
  {
    hide SameAggregates, Consumed, DeltaOf, Replay, NoNegative;
    ReadingCommits(l, ch, current, now, faults, Replay(start, log));
    ReplayAppend(start, log, DeltaOf(l, ch, current, now, faults));
    NoNegativeAppend(log, DeltaOf(l, ch, current, now, faults));
  }

  /** If the tables are those of a log then they stay so when a list of readings is consumed and what
      it commits is logged, wherever consuming stops. */
  lemma {:induction false} ReadingsExtendLog(l: Ledger, readings: seq<Reading>, now: int,
      faults: (nat, Dir) -> Faults, start: Ledger, log: seq<Delta>)
    requires SameAggregates(l, Replay(start, log)) && NoNegative(log)
    ensures var after := log + DeltasOf(l, readings, now, faults);
      SameAggregates(CollectedAll(l, readings, now, faults).0, Replay(start, after)) && NoNegative(after)
  {
    hide SameAggregates, Consumed, DeltaOf, Replay, NoNegative, Fails;
    if readings == [] {
      assert log + [] == log;
    } else {
      var i := |readings| - 1;
      ReadingsExtendLog(l, readings[..i], now, faults, start, log);
      var before := CollectedAll(l, readings[..i], now, faults).0;
      var fewer := log + DeltasOf(l, readings[..i], now, faults);
      var u := readings[i];
      var up, down := Channel(u.email, Up), Channel(u.email, Down);
      var upDone, upLog := Consumed(before, up, u.up, now, faults(i, Up)),
        DeltaOf(before, up, u.up, now, faults(i, Up));
      LogGrows(before, fewer, up, u.up, now, faults(i, Up), start);
      LogGrows(upDone, fewer + upLog, down, u.down, now, faults(i, Down), start);
      LogsJoin(log, DeltasOf(l, readings[..i], now, faults), upLog,
        DeltaOf(upDone, down, u.down, now, faults(i, Down)));
    }
  }

  lemma LogsJoin(a: seq<Delta>, b: seq<Delta>, c: seq<Delta>, d: seq<Delta>)
    ensures a + (b + c) == a + b + c && a + (b + c + d) == a + b + c + d
  {
    assert a + (b + c) == a + b + c;
    assert a + (b + c + d) == a + b + c + d;
  }

  // ---------------------------------------------------------------------------------------------
  // Runs: traffic, restarts of Xray and of the agent, and polls whose every step may fail

  /** Xray's live counters, what each channel really transferred, the snapshot a poll is working
      through, and the agent's tables. */
  datatype World = World(xray: map<Channel, int>, sent: map<Channel, int>, snapshot: map<Channel, int>, ledger: Ledger)

  const FRESH := World(map[], map[], map[], NEW_LEDGER)

  datatype Step =
    | Transfer(ch: Channel, n: nat)
    | XrayRestart
    | AgentRestart
    | Query(order: seq<Channel>)
    | Consume(ch: Channel, now: int, faults: Faults)

  function Next(w: World, s: Step): World {
    match s
    case Transfer(ch, n) => w.(xray := w.xray[ch := Get(w.xray, ch) + n], sent := w.sent[ch := Get(w.sent, ch) + n])
    case XrayRestart => w.(xray := map[])
    case AgentRestart => w.(snapshot := map[])
    case Query(order) => w.(snapshot := SnapshotOf(w.xray, order))
    case Consume(ch, now, faults) =>
      if ch !in w.snapshot then w
      else w.(ledger := Consumed(w.ledger, ch, w.snapshot[ch], now, faults), snapshot := w.snapshot - {ch})
  }

  function Run(w: World, steps: seq<Step>): World {
    if steps == [] then w else Next(Run(w, steps[..|steps| - 1]), steps[|steps| - 1])
  }

  function Persisted(l: Ledger, ch: Channel): int {
    if ch.email in l.total then l.total[ch.email].Of(ch.dir) else 0
  }

  /** The bytes the polls still to come would record if no more traffic flowed: first the
      snapshot at hand, then the live counter. A counter that is not read back is never recorded. */
  function Pending(w: World, ch: Channel): int {
    var x := Get(w.xray, ch);
    if !Readable(ch.email) then 0
    else if ch in w.snapshot
    then Gain(Stored(w.ledger, ch), w.snapshot[ch]) + Gain(Some(w.snapshot[ch]), x)
    else Gain(Stored(w.ledger, ch), x)
  }

  /** What is transferred but neither recorded nor still to be recorded. */
  function Lost(w: World, ch: Channel): int {
    Get(w.sent, ch) - Persisted(w.ledger, ch) - Pending(w, ch)
  }

  /** The counter value the next live reading will be compared with. */
  function Base(w: World, ch: Channel): Option<int> {
    if ch in w.snapshot then Some(w.snapshot[ch]) else Stored(w.ledger, ch)
  }

  /** Bytes lost with a reading that was taken but never stored, in terms of the stored, the read and
      the live value. Nothing is lost while the counter only grew. If it restarted after the reading
      then what the reading had over the stored value is gone, and once the live counter has passed
      the stored value again the restart goes unnoticed and all of the reading is. If it restarted
      before the reading then the same holds of the part moved until then. */
  function LostReading(stored: Option<int>, read: int, live: int): int {
    var base := if stored.Some? then stored.value else 0;
    if read >= base then
      if live >= read then 0 else if live >= base then read else read - base
    else if live >= base then base
    else if live >= read then 0
    else read
  }

  /** Bytes one step makes unrecordable: a restart loses what was moved since the last reading, and
      traffic that overtakes the reading from before a restart hides that many bytes once. Everything
      is lost that moves under an email that is not read back. */
  function LossOf(w: World, s: Step, ch: Channel): int {
    if Readable(ch.email) then LossOfReadable(w, s, ch)
    else if s.Transfer? && s.ch == ch then s.n
    else 0
  }

  function LossOfReadable(w: World, s: Step, ch: Channel): int {
    var x := Get(w.xray, ch);
    match s
    case Transfer(c, n) =>
      if c == ch && Base(w, ch).Some? && x < Base(w, ch).value <= x + n then Base(w, ch).value else 0
    case XrayRestart => Gain(Base(w, ch), x)
    case AgentRestart => if ch in w.snapshot then LostReading(Stored(w.ledger, ch), w.snapshot[ch], x) else 0
    case Query(_) => if ch in w.snapshot then LostReading(Stored(w.ledger, ch), w.snapshot[ch], x) else 0
    case Consume(c, now, faults) =>
      if c == ch && ch in w.snapshot && Fails(w.ledger, ch, w.snapshot[ch], faults)
      then LostReading(Stored(w.ledger, ch), w.snapshot[ch], x) else 0
  }

  /** A query lists the live counters, in some order. */
  ghost predicate Possible(w: World, s: Step) {
    s.Query? ==> Lists(s.order, w.xray)
  }

  /** No live counter is read as this one when a query asks. */
  ghost predicate Unmixed(s: Step, ch: Channel) {
    s.Query? ==> NoImpostors(s.order, ch)
  }

  ghost predicate Sane(w: World) {
    && (forall ch :: Get(w.xray, ch) >= 0)
    && (forall ch :: ch in w.snapshot ==> w.snapshot[ch] >= 0 && Readable(ch.email))
    && (forall ch :: Stored(w.ledger, ch).Some? ==> Stored(w.ledger, ch).value >= 0)
  }

  /** A reading that does not fail stores the reading and adds its gain to that channel's
      total; every other channel keeps both. */
  lemma ConsumedOneChannel(l: Ledger, ch: Channel, current: int, now: int, faults: Faults, other: Channel)
    ensures var after := Consumed(l, ch, current, now, faults);
      if other == ch && !Fails(l, ch, current, faults)
      then Stored(after, ch) == Some(current) && Persisted(after, ch) == Persisted(l, ch) + Gain(Stored(l, ch), current)
      else Stored(after, other) == Stored(l, other) && Persisted(after, other) == Persisted(l, other)
  {
    if other != ch && CounterKey(other) == CounterKey(ch) {
      CounterKeyIsInjective(other, ch);
    }
  }

  lemma StepStaysSane(w: World, s: Step)
    requires Sane(w)
    ensures Sane(Next(w, s))
  {
    hide Consumed, Stored, Readable;
    var after := Next(w, s);
    forall ch ensures Get(after.xray, ch) >= 0 {
      assert Get(w.xray, ch) >= 0;
    }
    match s
    case Consume(c, now, faults) =>
      if c in w.snapshot {
        forall ch | Stored(after.ledger, ch).Some? ensures Stored(after.ledger, ch).value >= 0 {
          ConsumedOneChannel(w.ledger, c, w.snapshot[c], now, faults, ch);
        }
      }
    case Query(order) =>
      forall ch | ch in after.snapshot ensures after.snapshot[ch] >= 0 && Readable(ch.email) {
        SnapshotIsReadable(w.xray, order, ch.email);
        ReadingsStayPositive(w.xray, order, ch.email);
      }
    case _ =>
  }

  /** Forgetting a reading changes what is still to be recorded by exactly that. */
  lemma ForgettingCosts(stored: Option<int>, read: int, live: int)
    requires stored.Some? ==> stored.value >= 0
    requires read >= 0 && live >= 0
    ensures Gain(stored, read) + Gain(Some(read), live) == Gain(stored, live) + LostReading(stored, read, live)
    ensures LostReading(stored, read, live) >= 0
  {
  }

  lemma ConsumingAccountsFor(w: World, s: Step, ch: Channel)
    requires Sane(w) && s.Consume? && s.ch in w.snapshot
    ensures Lost(Next(w, s), ch) == Lost(w, ch) + LossOf(w, s, ch)
    ensures LossOf(w, s, ch) >= 0
  {
    hide Consumed, Stored, Persisted, LostReading, Readable;
    ConsumedOneChannel(w.ledger, s.ch, w.snapshot[s.ch], s.now, s.faults, ch);
    if ch in w.snapshot {
      ForgettingCosts(Stored(w.ledger, ch), w.snapshot[ch], Get(w.xray, ch));
    }
  }

  lemma TransferAccountsFor(w: World, s: Step, ch: Channel)
    requires Sane(w) && s.Transfer?
    ensures Lost(Next(w, s), ch) == Lost(w, ch) + LossOf(w, s, ch)
    ensures LossOf(w, s, ch) >= 0
  {
    hide Consumed, Stored, Persisted, Readable;
  }

  /** Conservation law: every step changes what is lost by exactly its own loss. */
  lemma LossIsAccountedFor(w: World, s: Step, ch: Channel)
    requires Sane(w) && Possible(w, s) && Unmixed(s, ch)
    ensures Lost(Next(w, s), ch) == Lost(w, ch) + LossOf(w, s, ch)
    ensures LossOf(w, s, ch) >= 0
  {
    hide Consumed, Stored, Persisted, Fails, LostReading, Readable, SnapshotOf;
    if s.Consume? && s.ch in w.snapshot {
      ConsumingAccountsFor(w, s, ch);
    } else if s.Transfer? {
      TransferAccountsFor(w, s, ch);
    } else {
      if s.Query? {
        SnapshotIsOwn(w.xray, s.order, ch);
      }
      if ch in w.snapshot {
        ForgettingCosts(Stored(w.ledger, ch), w.snapshot[ch], Get(w.xray, ch));
      }
    }
  }

  lemma {:induction false} RunIsSane(steps: seq<Step>)
    ensures Sane(Run(FRESH, steps))
  {
    if steps != [] {
      RunIsSane(steps[..|steps| - 1]);
      StepStaysSane(Run(FRESH, steps[..|steps| - 1]), steps[|steps| - 1]);
    }
  }

  ghost predicate PossibleRun(steps: seq<Step>) {
    forall i :: 0 <= i < |steps| ==> Possible(Run(FRESH, steps[..i]), steps[i])
  }

  /** No traffic moves on a counter that is read as this one. */
  ghost predicate NoImpostorMoves(steps: seq<Step>, ch: Channel) {
    forall i :: 0 <= i < |steps| && steps[i].Transfer? ==> !Impostor(steps[i].ch, ch)
  }

  lemma LastStep(steps: seq<Step>, ch: Channel)
    requires steps != [] && PossibleRun(steps) && NoImpostorMoves(steps, ch)
    ensures var n := |steps| - 1;
      && PossibleRun(steps[..n]) && NoImpostorMoves(steps[..n], ch)
      && Possible(Run(FRESH, steps[..n]), steps[n]) && Unmixed(steps[n], ch)
  {
    hide Possible, Impostor, Next;
    var n := |steps| - 1;
    forall i | 0 <= i < n ensures Possible(Run(FRESH, steps[..n][..i]), steps[..n][i]) {
      assert steps[..n][..i] == steps[..i];
    }
    QueriesAreUnmixed(steps[..n], ch);
    assert Possible(Run(FRESH, steps[..n]), steps[n]);
    OrderIsUnmixed(Run(FRESH, steps[..n]), steps[n], ch);
  }

  lemma OrderIsUnmixed(w: World, s: Step, ch: Channel)
    requires Possible(w, s) && forall c :: c in w.xray ==> !Impostor(c, ch)
    ensures Unmixed(s, ch)
  {
    hide Impostor;
  }

  lemma {:induction false} QueriesAreUnmixed(steps: seq<Step>, ch: Channel)
    requires NoImpostorMoves(steps, ch)
    ensures forall c :: c in Run(FRESH, steps).xray ==> !Impostor(c, ch)
  {
    hide Impostor, Consumed, SnapshotOf;
    if steps != [] {
      QueriesAreUnmixed(steps[..|steps| - 1], ch);
    }
  }

  /** For every schedule of traffic, Xray and agent restarts and polls that may fail anywhere, as long
      as no traffic moves under a counter that is read as this one: the recorded bytes plus those still
      to be recorded never exceed the bytes transferred. */
  lemma RecordedNeverExceedsSent(steps: seq<Step>, ch: Channel)
    requires PossibleRun(steps) && NoImpostorMoves(steps, ch)
    ensures var w := Run(FRESH, steps);
      0 <= Persisted(w.ledger, ch) <= Persisted(w.ledger, ch) + Pending(w, ch) <= Get(w.sent, ch)
  {
    hide PossibleRun, NoImpostorMoves, Readable;
    LostNeverNegative(steps, ch);
    PersistedNeverNegative(steps, ch);
  }

  lemma {:induction false} LostNeverNegative(steps: seq<Step>, ch: Channel)
    requires PossibleRun(steps) && NoImpostorMoves(steps, ch)
    ensures Lost(Run(FRESH, steps), ch) >= 0
  {
    hide Next, PossibleRun, NoImpostorMoves, Lost, LossOf, Possible, Unmixed, Sane;
    if steps == [] {
      NothingLostYet(ch);
    } else {
      LastStep(steps, ch);
      LostNeverNegative(steps[..|steps| - 1], ch);
      RunIsSane(steps[..|steps| - 1]);
      LossIsAccountedFor(Run(FRESH, steps[..|steps| - 1]), steps[|steps| - 1], ch);
    }
  }

  lemma NothingLostYet(ch: Channel)
    ensures Lost(FRESH, ch) == 0
  {
  }

  lemma {:induction false} PersistedNeverNegative(steps: seq<Step>, ch: Channel)
    ensures Persisted(Run(FRESH, steps).ledger, ch) >= 0
  {
    hide Consumed, Stored;
    if steps != [] {
      var w, s := Run(FRESH, steps[..|steps| - 1]), steps[|steps| - 1];
      PersistedNeverNegative(steps[..|steps| - 1], ch);
      RunIsSane(steps[..|steps| - 1]);
      if s.Consume? && s.ch in w.snapshot {
        ConsumedOneChannel(w.ledger, s.ch, w.snapshot[s.ch], s.now, s.faults, ch);
      }
    }
  }

  // ---------------------------------------------------------------------------------------------
  // Counters that are not read back

  const WORKING := Faults(false, false, false)

  ghost predicate RecordsAtMostSent(steps: seq<Step>, ch: Channel) {
    var w := Run(FRESH, steps);
    Persisted(w.ledger, ch) <= Get(w.sent, ch)
  }

  ghost predicate MovesWithin(steps: seq<Step>, moving: set<Channel>) {
    forall i :: 0 <= i < |steps| && steps[i].Transfer? ==> steps[i].ch in moving
  }

  /** One transfer that a poll takes for another counter's. */
  function MixUp(c: Channel, ch: Channel, n: nat): seq<Step> {
    [Transfer(c, n), Query([c]), Consume(ch, 0, WORKING)]
  }

  lemma MixUpIsRecorded(c: Channel, ch: Channel, n: nat)
    requires Impostor(c, ch)
    ensures PossibleRun(MixUp(c, ch, n)) && MovesWithin(MixUp(c, ch, n), {c})
    ensures var w := Run(FRESH, MixUp(c, ch, n));
      Persisted(w.ledger, ch) == n && Get(w.sent, ch) == 0 && Persisted(w.ledger, c) == 0 && Get(w.sent, c) == n
  {
    hide CounterKey, Pieces, Consumed, Readable;
    var steps := MixUp(c, ch, n);
    var w1 := Next(FRESH, steps[0]);
    var w2 := Next(w1, steps[1]);
    assert steps[..1] == [steps[0]] && steps[..2] == [steps[0], steps[1]] && steps[..0] == [];
    assert steps[..2][..1] == steps[..1] && steps[..1][..0] == [];
    assert Run(FRESH, steps[..1]) == w1 && Run(FRESH, steps[..2]) == w2;
    assert Run(FRESH, steps) == Next(w2, steps[2]);
    assert w1.xray == map[c := n];
    OneCounterIsRead(w1.xray, c, ch);
    ConsumedOneChannel(w2.ledger, ch, n, 0, WORKING, ch);
    ConsumedOneChannel(w2.ledger, ch, n, 0, WORKING, c);
  }

  lemma OneCounterIsRead(xray: map<Channel, int>, c: Channel, ch: Channel)
    requires Impostor(c, ch) && c in xray
    ensures ch in SnapshotOf(xray, [c]) && SnapshotOf(xray, [c])[ch] == xray[c]
  {
    hide CounterKey, Pieces;
    var stats := StatsOf(xray, [c]);
    assert stats == [(CounterKey(c), xray[c])] && stats[..0] == [];
    KeyPieces(c);
    assert ReadAll(stats) == ReadOne(map[], CounterKey(c), xray[c]);
  }

  /** The exact condition under which no schedule records more for a counter than was sent: traffic
      moves on no other counter that is read as this one. */
  lemma RecordedNeverExceedsSentExactlyWhen(moving: set<Channel>, ch: Channel)
    ensures (forall steps :: PossibleRun(steps) && MovesWithin(steps, moving) ==> RecordsAtMostSent(steps, ch)) <==>
            forall c :: c in moving ==> !Impostor(c, ch)
  {
    hide Impostor, PossibleRun, Run;
    if c :| c in moving && Impostor(c, ch) {
      MixUpIsRecorded(c, ch, 1);
      assert MovesWithin(MixUp(c, ch, 1), moving) && !RecordsAtMostSent(MixUp(c, ch, 1), ch);
    } else {
      forall steps | PossibleRun(steps) && MovesWithin(steps, moving) ensures RecordsAtMostSent(steps, ch) {
        assert NoImpostorMoves(steps, ch);
        RecordedNeverExceedsSent(steps, ch);
        PendingNeverNegative(steps, ch);
      }
    }
  }

  lemma PendingNeverNegative(steps: seq<Step>, ch: Channel)
    ensures Pending(Run(FRESH, steps), ch) >= 0
  {
  }

  /** Under no schedule are any bytes recorded for an email that is not read back. */
  lemma {:induction false} UnreadableIsNeverRecorded(steps: seq<Step>, ch: Channel)
    requires !Readable(ch.email)
    ensures var w := Run(FRESH, steps);
      Persisted(w.ledger, ch) == 0 && Lost(w, ch) == Get(w.sent, ch)
  {
    hide Consumed, Stored, Readable;
    if steps != [] {
      var w, s := Run(FRESH, steps[..|steps| - 1]), steps[|steps| - 1];
      UnreadableIsNeverRecorded(steps[..|steps| - 1], ch);
      RunIsSane(steps[..|steps| - 1]);
      if s.Consume? && s.ch in w.snapshot {
        ConsumedOneChannel(w.ledger, s.ch, w.snapshot[s.ch], s.now, s.faults, ch);
      }
    }
  }

  const ALICE := Channel("Alice <a@b.c>", Up)
  const AS_READ := Channel("Alice <a@b.c", Up)

  /** An email given with a display name ends in '>': five bytes moved are recorded for an email that
      nobody has, and none for the user's own. */
  lemma DisplayNameIsMisread()
    ensures var steps := MixUp(ALICE, AS_READ, 5); var w := Run(FRESH, steps);
      && PossibleRun(steps) && Persisted(w.ledger, AS_READ) == 5 > Get(w.sent, AS_READ)
      && Persisted(w.ledger, ALICE) == 0 && Lost(w, ALICE) == 5 && NoXrayRestart(steps)
  {
    hide Pieces, CounterKey, Run, PossibleRun, Readable;
    assert Readable("Alice <a@b.c") by {
      forall i ensures !SepAt("Alice <a@b.c", i) {
      }
      ReadableMeans("Alice <a@b.c");
    }
    assert "Alice <a@b.c" + ">" == ALICE.email;
    TrailingMarkIsDropped("Alice <a@b.c", Up);
    MixUpIsRecorded(ALICE, AS_READ, 5);
    EndsWithMark(ALICE.email);
    UnreadableIsNeverRecorded(MixUp(ALICE, AS_READ, 5), ALICE);
  }

  lemma ReadableMeans(e: Email)
    requires (forall i :: !SepAt(e, i)) && e != "" && e[|e| - 1] != '>'
    ensures Readable(e)
  {
  }

  lemma EndsWithMark(e: Email)
    requires e != "" && e[|e| - 1] == '>'
    ensures !Readable(e)
  {
  }

  ghost predicate NoXrayRestart(steps: seq<Step>) {
    forall i :: 0 <= i < |steps| ==> !steps[i].XrayRestart?
  }

  /** While Xray has not restarted the readings only grow: stored <= snapshot <= live == sent. */
  ghost predicate InOrder(w: World, ch: Channel) {
    var stored := if Stored(w.ledger, ch).Some? then Stored(w.ledger, ch).value else 0;
    && Persisted(w.ledger, ch) == stored
    && 0 <= stored
    && (ch in w.snapshot ==> stored <= w.snapshot[ch] <= Get(w.xray, ch))
    && stored <= Get(w.xray, ch) == Get(w.sent, ch)
  }

  lemma StepStaysInOrder(w: World, s: Step, ch: Channel)
    requires !s.XrayRestart? && InOrder(w, ch) && Possible(w, s) && Unmixed(s, ch)
    ensures InOrder(Next(w, s), ch)
  {
    hide Consumed, Stored, Persisted, SnapshotOf, Readable;
    if s.Consume? && s.ch in w.snapshot {
      ConsumedOneChannel(w.ledger, s.ch, w.snapshot[s.ch], s.now, s.faults, ch);
    }
    if s.Query? {
      SnapshotIsOwn(w.xray, s.order, ch);
    }
  }

  lemma InOrderLosesNothing(w: World, ch: Channel)
    requires InOrder(w, ch) && Readable(ch.email)
    ensures Lost(w, ch) == 0
  {
    hide Readable;
  }

  lemma {:induction false} RunStaysInOrder(steps: seq<Step>, ch: Channel)
    requires NoXrayRestart(steps) && PossibleRun(steps) && NoImpostorMoves(steps, ch)
    ensures InOrder(Run(FRESH, steps), ch)
  {
    hide InOrder, Next, PossibleRun, NoImpostorMoves;
    if steps == [] {
      FreshIsInOrder(ch);
    } else {
      LastStep(steps, ch);
      RunStaysInOrder(steps[..|steps| - 1], ch);
      StepStaysInOrder(Run(FRESH, steps[..|steps| - 1]), steps[|steps| - 1], ch);
    }
  }

  lemma FreshIsInOrder(ch: Channel)
    ensures InOrder(FRESH, ch)
  {
  }

  /** Without a restart of Xray, and without traffic on a counter that is read as this one, the recorded
      total is exactly the last counter value stored. Nothing is lost, so that all that is missing is
      what was transferred since, if and only if the email is read back or nothing was sent. */
  lemma WithoutRestartNothingIsLostExactlyWhen(steps: seq<Step>, ch: Channel)
    requires NoXrayRestart(steps) && PossibleRun(steps) && NoImpostorMoves(steps, ch)
    ensures InOrder(Run(FRESH, steps), ch)
    ensures Lost(Run(FRESH, steps), ch) == 0 <==> Readable(ch.email) || Get(Run(FRESH, steps).sent, ch) == 0
  {
    hide Readable, Run, InOrder, PossibleRun, NoImpostorMoves;
    RunStaysInOrder(steps, ch);
    if Readable(ch.email) {
      InOrderLosesNothing(Run(FRESH, steps), ch);
    } else {
      UnreadableIsNeverRecorded(steps, ch);
    }
  }

  // ---------------------------------------------------------------------------------------------
  // The aggregates after a run

  /** What one step commits. */
  function Committed(w: World, s: Step): seq<Delta> {
    if s.Consume? && s.ch in w.snapshot then DeltaOf(w.ledger, s.ch, w.snapshot[s.ch], s.now, s.faults) else []
  }

  /** The deltas a run committed, in order. */
  function History(steps: seq<Step>): seq<Delta> {
    if steps == [] then []
    else History(steps[..|steps| - 1]) + Committed(Run(FRESH, steps[..|steps| - 1]), steps[|steps| - 1])
  }

  lemma StepCommits(w: World, s: Step, replayed: Ledger)
    requires SameAggregates(w.ledger, replayed)
    ensures SameAggregates(Next(w, s).ledger, Replay(replayed, Committed(w, s)))
    ensures NoNegative(Committed(w, s))
  {
    hide DeltaOf, Consumed, Replay, NoNegative, SameAggregates;
    if s.Consume? && s.ch in w.snapshot {
      ReadingCommits(w.ledger, s.ch, w.snapshot[s.ch], s.now, s.faults, replayed);
    } else {
      NothingReplayed(replayed);
    }
  }

  lemma {:induction false} RunReplaysItsHistory(steps: seq<Step>)
    ensures SameAggregates(Run(FRESH, steps).ledger, Replay(NEW_LEDGER, History(steps)))
    ensures NoNegative(History(steps))
  {
    if steps != [] {
      var before := steps[..|steps| - 1];
      RunReplaysItsHistory(before);
      StepCommits(Run(FRESH, before), steps[|steps| - 1], Replay(NEW_LEDGER, History(before)));
      ReplayAppend(NEW_LEDGER, History(before), Committed(Run(FRESH, before), steps[|steps| - 1]));
    }
  }

  /** For every run the recorded total of a channel is the sum of its hourly rows, the sum of its
      daily rows, and each daily row is the sum of the hourly rows of that UTC day. */
  lemma AggregatesAgree(steps: seq<Step>, ch: Channel, day: int)
    ensures var l := Run(FRESH, steps).ledger;
      && Persisted(l, ch) == WindowSum(l.hourly, ch.email, Always(), ch.dir) ==
        WindowSum(l.daily, ch.email, Always(), ch.dir)
      && (if Window(ch.email, day) in l.daily then l.daily[Window(ch.email, day)].Of(ch.dir) else 0)
         == WindowSum(l.hourly, ch.email, InDay(day), ch.dir)
  {
    RunReplaysItsHistory(steps);
    TotalIsSumOfWindows(History(steps), ch.email, ch.dir);
    DayIsSumOfItsHours(History(steps), ch.email, day, ch.dir);
  }
}
