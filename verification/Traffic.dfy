/** The agent's traffic accounting: counter deltas, the three aggregates and the rolling
    window (internal/stats/delta.go, internal/store/remote/store.go and quota.go). */
module Traffic {
  import opened Rows

  const HOUR := 3600
  const DAY := 86400

  datatype Dir = Up | Down

  datatype Bytes = Bytes(up: int, down: int) {
    function Of(dir: Dir): int {
      if dir == Up then up else down
    }

    function Plus(other: Bytes): Bytes {
      Bytes(up + other.up, down + other.down)
    }
  }

  type Email = string

  /** A row key of an hourly or daily table: user and window start. */
  datatype Window = Window(email: Email, start: int)

  type WindowTable = map<Window, Bytes>

  /** The start of the UTC hour or day a time falls in. */
  function Bucket(ts: int, size: int): int
    requires size > 0
  {
    ts - ts % size
  }

  /** The delta since the previous counter value; a smaller value means Xray restarted. */
  function ComputeDelta(prev: Option<int>, current: int): (r: (int, bool))
    ensures r.1 <==> prev.Some? && current < prev.value
    ensures prev.Some? && 0 <= prev.value <= current ==> prev.value + r.0 == current
    ensures (prev.None? || r.1) && current >= 0 ==> r.0 == current
    ensures current < 0 && (prev.None? || r.1) ==> r.0 == 0
    ensures r.0 >= 0
  {
    var raw := if prev.Some? && current >= prev.value then current - prev.value else current;
    (if raw < 0 then 0 else raw, prev.Some? && current < prev.value)
  }

  // ---------------------------------------------------------------------------------------------
  // The tables

  /** Everything AddDeltaAndAdvanceCounter writes. */
  datatype Ledger = Ledger(
    counters: map<string, int>, hourly: WindowTable, daily: WindowTable, total: map<Email, Bytes>)

  const NEW_LEDGER := Ledger(map[], map[], map[], map[])

  /** INSERT ... ON CONFLICT DO UPDATE SET bytes = bytes + excluded.bytes */
  function Upsert<K>(rows: map<K, Bytes>, k: K, b: Bytes): map<K, Bytes> {
    rows[k := if k in rows then rows[k].Plus(b) else b]
  }

  /** One committed delta. */
  datatype Delta = Delta(email: Email, bytes: Bytes, ts: int)

  function AddDelta(l: Ledger, d: Delta): Ledger {
    l.(hourly := Upsert(l.hourly, Window(d.email, Bucket(d.ts, HOUR)), d.bytes),
       daily := Upsert(l.daily, Window(d.email, Bucket(d.ts, DAY)), d.bytes),
       total := Upsert(l.total, d.email, d.bytes))
  }

  function AddDeltaAndAdvance(l: Ledger, d: Delta, counter: string, value: int): Ledger {
    var added := if d.bytes.up > 0 || d.bytes.down > 0 then AddDelta(l, d) else l;
    added.(counters := added.counters[counter := value])
  }

  /** The agent's traffic tables, updated in place; every store call is one transaction. */
  class TrafficStore {
    var counters: map<string, int>
    var hourly: WindowTable
    var daily: WindowTable
    var total: map<Email, Bytes>

    ghost function Tables(): Ledger
      reads this
    {
      Ledger(counters, hourly, daily, total)
    }

    constructor ()
      ensures Tables() == NEW_LEDGER
    {
      counters, hourly, daily, total := map[], map[], map[], map[];
    }

    /** Persists a usage delta and advances its source counter in a single transaction:
        when the commit fails nothing is changed. */
    method AddDeltaAndAdvanceCounter(d: Delta, counter: string, value: int, commits: bool) returns (ok: bool)
      modifies this
      ensures ok == commits
      ensures Tables() == if commits then AddDeltaAndAdvance(old(Tables()), d, counter, value) else old(Tables())
    {
      var h, dd, t := hourly, daily, total;
      if d.bytes.up > 0 || d.bytes.down > 0 {
        h := Upsert(h, Window(d.email, Bucket(d.ts, HOUR)), d.bytes);
        dd := Upsert(dd, Window(d.email, Bucket(d.ts, DAY)), d.bytes);
        t := Upsert(t, d.email, d.bytes);
      }
      var c := counters[counter := value];
      if !commits {
        return false;
      }
      counters, hourly, daily, total := c, h, dd, t;
      return true;
    }

    /** Total bytes per user over the day buckets that start within [start, end). */
    method ListUsageBetween(start: int, end: int) returns (usage: map<Email, int>)
      ensures forall e :: Get(usage, e) == Usage(daily, e, start, end)
    {
      usage := map[];
      var rest := daily.Keys;
      ghost var seen: WindowTable := map[];
      assert daily - rest == map[];
      forall e ensures Get(usage, e) == Usage(seen, e, start, end) {
        assert Selected(seen, e, Between(start, end), Up) == map[];
        assert Selected(seen, e, Between(start, end), Down) == map[];
      }
      while rest != {}
        invariant rest <= daily.Keys
        invariant seen == daily - rest
        invariant forall e :: Get(usage, e) == Usage(seen, e, start, end)
      {
        var w :| w in rest;
        rest := rest - {w};
        var b := daily[w];
        ghost var before, was := seen, usage;
        seen := seen[w := b];
        assert seen == daily - rest;
        if start <= w.start < end {
          usage := usage[w.email := (if w.email in usage then usage[w.email] else 0) + b.up + b.down];
        }
        forall e ensures Get(usage, e) == Usage(seen, e, start, end) {
          assert Get(was, e) == Usage(before, e, start, end);
          UsageOfNewRow(before, w, b, e, start, end);
        }
      }
      assert seen == daily;
    }
  }

  // ---------------------------------------------------------------------------------------------
  // What the tables add up to

  /** One direction of the rows of a user whose window start is selected. */
  ghost function Selected(rows: WindowTable, email: Email, sel: int -> bool, dir: Dir): map<Window, int> {
    map w | w in rows && w.email == email && sel(w.start) :: rows[w].Of(dir)
  }

  ghost function WindowSum(rows: WindowTable, email: Email, sel: int -> bool, dir: Dir): int {
    Sum(Selected(rows, email, sel, dir))
  }

  ghost function Between(start: int, end: int): int -> bool {
    t => start <= t < end
  }

  ghost function Always(): int -> bool {
    t => true
  }

  ghost function Usage(daily: WindowTable, email: Email, start: int, end: int): int {
    WindowSum(daily, email, Between(start, end), Up) + WindowSum(daily, email, Between(start, end), Down)
  }

  lemma WindowSumOfUpsert(rows: WindowTable, w: Window, b: Bytes, email: Email, sel: int -> bool, dir: Dir)
    ensures WindowSum(Upsert(rows, w, b), email, sel, dir)
         == WindowSum(rows, email, sel, dir) + if w.email == email && sel(w.start) then b.Of(dir) else 0
  {
    var after := Upsert(rows, w, b);
    var sa, sb := Selected(after, email, sel, dir), Selected(rows, email, sel, dir);
    if w.email == email && sel(w.start) {
      assert sa == sb[w := after[w].Of(dir)];
      SumUpdate(sb, w, after[w].Of(dir));
    } else {
      assert sa == sb;
    }
  }

  lemma UsageOfNewRow(rows: WindowTable, w: Window, b: Bytes, e: Email, start: int, end: int)
    requires w !in rows
    ensures Usage(rows[w := b], e, start, end)
         == Usage(rows, e, start, end) + if w.email == e && start <= w.start < end then b.up + b.down else 0
  {
    WindowSumOfUpsert(rows, w, b, e, Between(start, end), Up);
    WindowSumOfUpsert(rows, w, b, e, Between(start, end), Down);
  }

  /** The tables after a history of deltas. */
  function Replay(l: Ledger, log: seq<Delta>): Ledger {
    if log == [] then l else AddDelta(Replay(l, log[..|log| - 1]), log[|log| - 1])
  }

  /** The bytes of a user the history stamped with a time whose bucket is selected. */
  ghost function Stamped(log: seq<Delta>, email: Email, sel: int -> bool, dir: Dir): int {
    if log == [] then 0
    else
      var d := log[|log| - 1];
      Stamped(log[..|log| - 1], email, sel, dir) + if d.email == email && sel(d.ts) then d.bytes.Of(dir) else 0
  }

  lemma NothingSummed(email: Email, sel: int -> bool, dir: Dir)
    ensures WindowSum(map[], email, sel, dir) == 0
  {
    assert Selected(map[], email, sel, dir) == map[];
  }

  lemma {:induction false} TablesMatchHistory(log: seq<Delta>, email: Email, sel: int -> bool, dir: Dir)
    ensures var l := Replay(NEW_LEDGER, log);
      && WindowSum(l.hourly, email, sel, dir) == Stamped(log, email, ts => sel(Bucket(ts, HOUR)), dir)
      && WindowSum(l.daily, email, sel, dir) == Stamped(log, email, ts => sel(Bucket(ts, DAY)), dir)
      && (if email in l.total then l.total[email].Of(dir) else 0) == Stamped(log, email, Always(), dir)
  {
    hide Bucket, WindowSum;
    if log == [] {
      NothingSummed(email, sel, dir);
    } else {
      var d := log[|log| - 1];
      var prev := Replay(NEW_LEDGER, log[..|log| - 1]);
      TablesMatchHistory(log[..|log| - 1], email, sel, dir);
      WindowSumOfUpsert(prev.hourly, Window(d.email, Bucket(d.ts, HOUR)), d.bytes, email, sel, dir);
      WindowSumOfUpsert(prev.daily, Window(d.email, Bucket(d.ts, DAY)), d.bytes, email, sel, dir);
    }
  }

  lemma {:induction false} StampedAgree(log: seq<Delta>, email: Email, p: int -> bool, q: int -> bool, dir: Dir)
    requires forall ts :: p(ts) == q(ts)
    ensures Stamped(log, email, p, dir) == Stamped(log, email, q, dir)
  {
    if log != [] {
      StampedAgree(log[..|log| - 1], email, p, q, dir);
    }
  }

  lemma BucketsNest(ts: int)
    ensures Bucket(Bucket(ts, HOUR), DAY) == Bucket(ts, DAY)
  {
    var h := ts / HOUR;
    assert Bucket(ts, HOUR) == h * HOUR;
    assert (h * HOUR) / DAY == h / 24;
    assert ts / DAY == h / 24;
  }

  /** Conservation: whatever history of deltas was committed, a user's total is the sum of the
      hourly rows and of the daily rows. */
  lemma TotalIsSumOfWindows(log: seq<Delta>, email: Email, dir: Dir)
    ensures var l := Replay(NEW_LEDGER, log);
      var total := if email in l.total then l.total[email].Of(dir) else 0;
      total == WindowSum(l.hourly, email, Always(), dir) == WindowSum(l.daily, email, Always(), dir)
  {
    TablesMatchHistory(log, email, Always(), dir);
    StampedAgree(log, email, ts => Always()(Bucket(ts, HOUR)), Always(), dir);
    StampedAgree(log, email, ts => Always()(Bucket(ts, DAY)), Always(), dir);
  }

  /** A selection that picks one single window start. */
  ghost function Just(start: int): int -> bool {
    t => t == start
  }

  ghost function InDay(day: int): int -> bool {
    t => Bucket(t, DAY) == day
  }

  lemma SumOfOneWindow(rows: WindowTable, email: Email, start: int, dir: Dir)
    ensures WindowSum(rows, email, Just(start), dir)
         == if Window(email, start) in rows then rows[Window(email, start)].Of(dir) else 0
  {
    var w := Window(email, start);
    var s := Selected(rows, email, Just(start), dir);
    if w in rows {
      SumWithout(s, w);
      assert s - {w} == map[];
    } else {
      assert s == map[];
    }
  }

  /** Each daily row is the sum of the user's hourly rows that fall in that UTC day. */
  lemma DayIsSumOfItsHours(log: seq<Delta>, email: Email, day: int, dir: Dir)
    ensures var l := Replay(NEW_LEDGER, log);
      (if Window(email, day) in l.daily then l.daily[Window(email, day)].Of(dir) else 0)
      == WindowSum(l.hourly, email, InDay(day), dir)
  {
    var l := Replay(NEW_LEDGER, log);
    SumOfOneWindow(l.daily, email, day, dir);
    TablesMatchHistory(log, email, Just(day), dir);
    TablesMatchHistory(log, email, InDay(day), dir);
    forall ts ensures InDay(day)(Bucket(ts, HOUR)) == Just(day)(Bucket(ts, DAY)) {
      BucketsNest(ts);
    }
    StampedAgree(log, email, ts => InDay(day)(Bucket(ts, HOUR)), ts => Just(day)(Bucket(ts, DAY)), dir);
  }

  // ---------------------------------------------------------------------------------------------
  // The rolling window

  ghost predicate NoNegative(log: seq<Delta>) {
    forall i :: 0 <= i < |log| ==> log[i].bytes.up >= 0 && log[i].bytes.down >= 0
  }

  ghost function StampedBytes(log: seq<Delta>, email: Email, sel: int -> bool): int {
    Stamped(log, email, sel, Up) + Stamped(log, email, sel, Down)
  }

  lemma {:induction false} StampedMonotone(log: seq<Delta>, email: Email, p: int -> bool, q: int -> bool, dir: Dir)
    requires NoNegative(log)
    requires forall i :: 0 <= i < |log| ==> p(log[i].ts) ==> q(log[i].ts)
    ensures Stamped(log, email, p, dir) <= Stamped(log, email, q, dir)
  {
    if log != [] {
      StampedMonotone(log[..|log| - 1], email, p, q, dir);
      assert p(log[|log| - 1].ts) ==> q(log[|log| - 1].ts);
    }
  }

  ghost function From(start: int): int -> bool {
    ts => start <= ts
  }

  /** The times whose day bucket starts within [start, end). */
  ghost function DayBetween(start: int, end: int): int -> bool {
    ts => start <= Bucket(ts, DAY) < end
  }

  lemma BucketIsNear(ts: int, size: int)
    requires size > 0
    ensures Bucket(ts, size) <= ts < Bucket(ts, size) + size
  {
  }

  lemma WindowBoundsOneWay(log: seq<Delta>, email: Email, start: int, end: int, dir: Dir)
    requires NoNegative(log)
    ensures Stamped(log, email, Between(start + DAY, end), dir)
         <= Stamped(log, email, DayBetween(start, end), dir)
         <= Stamped(log, email, From(start), dir)
  {
    forall i | 0 <= i < |log|
      ensures Between(start + DAY, end)(log[i].ts) ==> DayBetween(start, end)(log[i].ts)
      ensures DayBetween(start, end)(log[i].ts) ==> From(start)(log[i].ts)
    {
      BucketIsNear(log[i].ts, DAY);
    }
    StampedMonotone(log, email, Between(start + DAY, end), DayBetween(start, end), dir);
    StampedMonotone(log, email, DayBetween(start, end), From(start), dir);
  }

  lemma UsageIsStampedByDay(log: seq<Delta>, email: Email, start: int, end: int)
    ensures Usage(Replay(NEW_LEDGER, log).daily, email, start, end) == StampedBytes(log, email, DayBetween(start, end))
  {
    forall dir: Dir
      ensures WindowSum(Replay(NEW_LEDGER, log).daily, email, Between(start, end), dir)
           == Stamped(log, email, DayBetween(start, end), dir)
    {
      TablesMatchHistory(log, email, Between(start, end), dir);
      StampedAgree(log, email, ts => Between(start, end)(Bucket(ts, DAY)), DayBetween(start, end), dir);
    }
  }

  /** Usage summed from the day buckets of the window [start, now) is at most the bytes stamped
      since its start and at least the bytes stamped in the window less its first day. */
  lemma UsageIsRollingWindow(log: seq<Delta>, email: Email, start: int, now: int)
    requires NoNegative(log)
    ensures var usage := Usage(Replay(NEW_LEDGER, log).daily, email, start, now);
      StampedBytes(log, email, Between(start + DAY, now)) <= usage <= StampedBytes(log, email, From(start))
  {
    UsageIsStampedByDay(log, email, start, now);
    WindowBoundsOneWay(log, email, start, now, Up);
    WindowBoundsOneWay(log, email, start, now, Down);
  }

  lemma {:induction false} NothingStamped(log: seq<Delta>, email: Email, sel: int -> bool, dir: Dir)
    requires forall i :: 0 <= i < |log| ==> !sel(log[i].ts)
    ensures Stamped(log, email, sel, dir) == 0
  {
    if log != [] {
      NothingStamped(log[..|log| - 1], email, sel, dir);
    }
  }

  /** Once the window has moved past the last delta there is no usage left. */
  lemma IdleUsageIsZero(log: seq<Delta>, email: Email, start: int, now: int)
    requires forall i :: 0 <= i < |log| ==> log[i].ts < start
    ensures Usage(Replay(NEW_LEDGER, log).daily, email, start, now) == 0
  {
    UsageIsStampedByDay(log, email, start, now);
    NothingStampedByDay(log, email, start, now);
  }

  lemma NothingStampedByDay(log: seq<Delta>, email: Email, start: int, end: int)
    requires forall i :: 0 <= i < |log| ==> log[i].ts < start
    ensures StampedBytes(log, email, DayBetween(start, end)) == 0
  {
    forall i | 0 <= i < |log| ensures !DayBetween(start, end)(log[i].ts) {
      BucketIsNear(log[i].ts, DAY);
    }
    NothingStamped(log, email, DayBetween(start, end), Up);
    NothingStamped(log, email, DayBetween(start, end), Down);
  }
}
