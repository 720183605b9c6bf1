/** A host as a whole: users move bytes, polls read Xray's counters into the agent's tables, and every
    other request, configuration write and restart goes on in between. */
module Metering {
  import opened Rows
  import opened Sorting
  import opened CounterNames
  import Agent
  import Counters
  import Quota
  import Restarts
  import Traffic

  // ---------------------------------------------------------------------------------------------
  // The counter loop of a poll as single steps

  /** The users of a query's answer, in the order the loop takes them. */
  function ReadingsOf(users: UserCounters, emails: seq<Email>): seq<Counters.Reading> {
    seq(|emails|, i requires 0 <= i < |emails| =>
      var entry := EntryOf(users, emails[i]); Counters.Reading(emails[i], entry.up, entry.down))
  }

  type Email = Traffic.Email

  type Faulty = (nat, Traffic.Dir) -> Counters.Faults

  function UpStep(readings: seq<Counters.Reading>, i: nat, now: int, faults: Faulty): Counters.Step
    requires i < |readings|
  {
    Counters.Consume(Channel(readings[i].email, Traffic.Up), now, faults(i, Traffic.Up))
  }

  function DownStep(readings: seq<Counters.Reading>, i: nat, now: int, faults: Faulty): Counters.Step
    requires i < |readings|
  {
    Counters.Consume(Channel(readings[i].email, Traffic.Down), now, faults(i, Traffic.Down))
  }

  /** The counters the loop gets to, up to the first failure. */
  function ConsumeSteps(l: Traffic.Ledger, readings: seq<Counters.Reading>, now: int,
      faults: Faulty): seq<Counters.Step>
  {
    if readings == [] then []
    else
      var i := |readings| - 1;
      var (before, ok) := Counters.CollectedAll(l, readings[..i], now, faults);
      var steps := ConsumeSteps(l, readings[..i], now, faults);
      if !ok then steps
      else if Counters.Fails(before, Channel(readings[i].email, Traffic.Up), readings[i].up, faults(i, Traffic.Up))
      then steps + [UpStep(readings, i, now, faults)]
      else steps + [UpStep(readings, i, now, faults)] + [DownStep(readings, i, now, faults)]
  }

  ghost predicate Matches(w: Counters.World, readings: seq<Counters.Reading>) {
    && (forall i, j :: 0 <= i < j < |readings| ==> readings[i].email != readings[j].email)
    && forall i :: 0 <= i < |readings| ==>
         var up, down := Channel(readings[i].email, Traffic.Up), Channel(readings[i].email, Traffic.Down);
         && up in w.snapshot && w.snapshot[up] == readings[i].up
         && down in w.snapshot && w.snapshot[down] == readings[i].down
  }

  /** Readings from n on are still in the snapshot. */
  ghost predicate Untouched(w: Counters.World, after: Counters.World, readings: seq<Counters.Reading>, n: nat) {
    && after.xray == w.xray && after.sent == w.sent
    && forall ch :: ch in w.snapshot && (forall i :: 0 <= i < n && i < |readings| ==> readings[i].email != ch.email) ==>
         ch in after.snapshot && after.snapshot[ch] == w.snapshot[ch]
  }

  lemma RunAppend(w: Counters.World, steps: seq<Counters.Step>, s: Counters.Step)
    ensures Counters.Run(w, steps + [s]) == Counters.Next(Counters.Run(w, steps), s)
  {
    assert (steps + [s])[..|steps|] == steps;
  }

  lemma StillThere(w: Counters.World, before: Counters.World, readings: seq<Counters.Reading>, i: nat)
    requires i < |readings| && Matches(w, readings) && Untouched(w, before, readings, i)
    ensures var up, down := Channel(readings[i].email, Traffic.Up), Channel(readings[i].email, Traffic.Down);
      && up in before.snapshot && before.snapshot[up] == readings[i].up
      && down in before.snapshot && before.snapshot[down] == readings[i].down
      && before.xray == w.xray && before.sent == w.sent
  {
    var up, down := Channel(readings[i].email, Traffic.Up), Channel(readings[i].email, Traffic.Down);
    assert up in w.snapshot && down in w.snapshot;
    assert forall j :: 0 <= j < i ==> readings[j].email != readings[i].email;
  }

  lemma DroppingKeeps(w: Counters.World, before: Counters.World, after: Counters.World, readings: seq<Counters.Reading>,
      i: nat)
    requires i < |readings| && Untouched(w, before, readings, i)
    requires after.xray == before.xray && after.sent == before.sent
    requires var up, down := Channel(readings[i].email, Traffic.Up), Channel(readings[i].email, Traffic.Down);
      after.snapshot == before.snapshot - {up} - {down}
    ensures Untouched(w, after, readings, i + 1)
  {
    forall ch | ch in w.snapshot && (forall j :: 0 <= j < i + 1 && j < |readings| ==> readings[j].email != ch.email)
      ensures ch in after.snapshot && after.snapshot[ch] == w.snapshot[ch]
    {
      assert readings[i].email != ch.email;
    }
  }

  /** Consuming both directions of one reading. */
  lemma ReadingIsConsumed(w: Counters.World, before: Counters.World, readings: seq<Counters.Reading>, i: nat, now: int,
      faults: Faulty)
    requires i < |readings| && Matches(w, readings) && Untouched(w, before, readings, i)
    ensures var u := readings[i];
      var up, down := Channel(u.email, Traffic.Up), Channel(u.email, Traffic.Down);
      var upDone := Counters.Next(before, UpStep(readings, i, now, faults));
      var downDone := Counters.Next(upDone, DownStep(readings, i, now, faults));
      && upDone.ledger == Counters.Consumed(before.ledger, up, u.up, now, faults(i, Traffic.Up))
      && upDone.xray == downDone.xray == w.xray && upDone.sent == downDone.sent == w.sent
      && downDone.ledger == Counters.Consumed(upDone.ledger, down, u.down, now, faults(i, Traffic.Down))
      && Untouched(w, downDone, readings, i + 1)
  {
    hide Counters.Consumed, Matches, Untouched;
    StillThere(w, before, readings, i);
    var upDone := Counters.Next(before, UpStep(readings, i, now, faults));
    DroppingKeeps(w, before, Counters.Next(upDone, DownStep(readings, i, now, faults)), readings, i);
  }

  lemma PrefixMatches(w: Counters.World, readings: seq<Counters.Reading>, n: nat)
    requires Matches(w, readings) && n <= |readings|
    ensures Matches(w, readings[..n])
    ensures forall after :: Untouched(w, after, readings[..n], n) ==> Untouched(w, after, readings, n)
  {
    assert forall i :: 0 <= i < n ==> readings[..n][i] == readings[i];
  }

  /** The loop over the readings is the run of its single steps. */
  lemma {:induction false} LoopIsConsumeSteps(w: Counters.World, readings: seq<Counters.Reading>, now: int,
      faults: Faulty)
    requires Matches(w, readings)
    ensures var (ledger, ok) := Counters.CollectedAll(w.ledger, readings, now, faults);
      var after := Counters.Run(w, ConsumeSteps(w.ledger, readings, now, faults));
      && after.ledger == ledger && after.xray == w.xray && after.sent == w.sent
      && (ok ==> Untouched(w, after, readings, |readings|))
  {
    hide Counters.Consumed, Counters.Fails, Counters.Run, Counters.Next, Matches, Untouched;
    if readings == [] {
      NoSteps(w, readings);
    } else {
      var i := |readings| - 1;
      PrefixMatches(w, readings, i);
      LoopIsConsumeSteps(w, readings[..i], now, faults);
      var steps := ConsumeSteps(w.ledger, readings[..i], now, faults);
      var up, down := UpStep(readings, i, now, faults), DownStep(readings, i, now, faults);
      RunAppend(w, steps, up);
      RunAppend(w, steps + [up], down);
      if Counters.CollectedAll(w.ledger, readings[..i], now, faults).1 {
        ReadingIsConsumed(w, Counters.Run(w, steps), readings, i, now, faults);
      }
    }
  }

  lemma NoSteps(w: Counters.World, readings: seq<Counters.Reading>)
    ensures Counters.Run(w, []) == w && Untouched(w, w, readings, 0)
  {
  }

  // ---------------------------------------------------------------------------------------------
  // Runs of the whole host

  datatype World = World(host: Restarts.Host, xray: map<Channel, int>, sent: map<Channel, int>)

  datatype Step =
    | Transfer(ch: Channel, n: nat)
    | Poll(order: seq<Channel>, users: seq<Email>, r: Agent.Request)
    | Other(s: Restarts.Step)

  function Answer(w: World, s: Step): UserCounters
    requires s.Poll?
  {
    ReadAll(StatsOf(w.xray, s.order))
  }

  /** The poll with the readings of the query it makes. */
  function Filled(w: World, s: Step): Agent.Request
    requires s.Poll? && s.r.Collect?
  {
    s.r.(readings := ReadingsOf(Answer(w, s), s.users))
  }

  /** A query lists the live counters and the loop takes each user read from them once, both in some
      order; a poll with readings of its own is none of the other steps. */
  ghost predicate Possible(w: World, s: Step) {
    match s
    case Transfer(_, _) => true
    case Poll(order, users, r) =>
      r.Collect? && Lists(order, w.xray) && NoRepeats(users) && forall e :: e in users <==> e in Answer(w, s)
    case Other(t) => t.Serve? && t.r.Collect? ==> t.r.api
  }

  ghost function Next(cfg: Agent.Config, w: World, s: Step): World {
    match s
    case Transfer(ch, n) => w.(xray := w.xray[ch := Get(w.xray, ch) + n], sent := w.sent[ch := Get(w.sent, ch) + n])
    case Poll(_, _, r) =>
      if r.Collect? then w.(host := Restarts.Next(cfg, w.host, Restarts.Serve(Filled(w, s)))) else w
    case Other(t) => w.(host := Restarts.Next(cfg, w.host, t), xray := if t.XrayRestart? then map[] else w.xray)
  }

  ghost function Run(cfg: Agent.Config, w: World, steps: seq<Step>): World {
    if steps == [] then w else Next(cfg, Run(cfg, w, steps[..|steps| - 1]), steps[|steps| - 1])
  }

  ghost predicate PossibleRun(cfg: Agent.Config, w: World, steps: seq<Step>) {
    forall i :: 0 <= i < |steps| ==> Possible(Run(cfg, w, steps[..i]), steps[i])
  }

  /** A host before anything was moved or recorded. */
  ghost predicate Unused(w: World) {
    w.xray == map[] && w.sent == map[] && w.host.node.ledger == Traffic.NEW_LEDGER
  }

  // ---------------------------------------------------------------------------------------------
  // They are schedules of the counters

  ghost function Metered(w: World): Counters.World {
    Counters.World(w.xray, w.sent, map[], w.host.node.ledger)
  }

  /** What one step means to the counters. A poll asks, consumes up to the first failure and forgets
      the rest of the answer. */
  ghost function ScheduleOf(w: World, s: Step): seq<Counters.Step> {
    match s
    case Transfer(ch, n) => [Counters.Transfer(ch, n)]
    case Poll(order, users, r) =>
      if !r.Collect? || r.api then []
      else
        var loop := ConsumeSteps(w.host.node.ledger, Filled(w, s).readings, r.now, r.counters);
        [Counters.Query(order)] + loop + [Counters.AgentRestart]
    case Other(t) => if t.XrayRestart? then [Counters.XrayRestart] else []
  }

  ghost function Schedule(cfg: Agent.Config, w: World, steps: seq<Step>): seq<Counters.Step> {
    if steps == [] then []
    else
      var n := |steps| - 1;
      Schedule(cfg, w, steps[..n]) + ScheduleOf(Run(cfg, w, steps[..n]), steps[n])
  }

  lemma {:induction false} RunConcat(w: Counters.World, a: seq<Counters.Step>, b: seq<Counters.Step>)
    ensures Counters.Run(w, a + b) == Counters.Run(Counters.Run(w, a), b)
  {
    hide Counters.Next;
    if b == [] {
      assert a + b == a;
    } else {
      var n := |b| - 1;
      RunConcat(w, a, b[..n]);
      assert (a + b)[..|a + b| - 1] == a + b[..n];
    }
  }

  lemma OneStep(w: Counters.World, s: Counters.Step)
    ensures Counters.Run(w, [s]) == Counters.Next(w, s)
  {
    assert [s][..0] == [];
  }

  lemma AnswerMatches(w: World, s: Step)
    requires s.Poll? && Possible(w, s)
    ensures Matches(Counters.Next(Metered(w), Counters.Query(s.order)), Filled(w, s).readings)
  {
    hide ReadAll, StatsOf;
    var readings := Filled(w, s).readings;
    var asked := Counters.Next(Metered(w), Counters.Query(s.order));
    forall i | 0 <= i < |readings|
      ensures var up, down := Channel(readings[i].email, Traffic.Up), Channel(readings[i].email, Traffic.Down);
        && up in asked.snapshot && asked.snapshot[up] == readings[i].up
        && down in asked.snapshot && asked.snapshot[down] == readings[i].down
    {
      assert s.users[i] in Answer(w, s);
    }
  }

  /** A poll is a query, the single steps of its loop up to the first failure, and forgetting the rest. */
  lemma PollIsScheduled(cfg: Agent.Config, w: World, s: Step)
    requires s.Poll? && Possible(w, s) && !s.r.api
    ensures Counters.Run(Metered(w), ScheduleOf(w, s)) == Metered(Next(cfg, w, s))
  {
    hide Counters.Run, Matches, Untouched, ReadAll, StatsOf, Agent.CollectStep;
    var query, readings := [Counters.Query(s.order)], Filled(w, s).readings;
    var loop := ConsumeSteps(w.host.node.ledger, readings, s.r.now, s.r.counters);
    OneStep(Metered(w), query[0]);
    var asked := Counters.Run(Metered(w), query);
    AnswerMatches(w, s);
    LoopIsConsumeSteps(asked, readings, s.r.now, s.r.counters);
    RunConcat(Metered(w), query, loop);
    RunAppend(Metered(w), query + loop, Counters.AgentRestart);
    Agent.ServeChangesLedger(cfg, w.host.node, Filled(w, s));
  }

  lemma StepIsScheduled(cfg: Agent.Config, w: World, s: Step)
    requires Possible(w, s)
    ensures Counters.Run(Metered(w), ScheduleOf(w, s)) == Metered(Next(cfg, w, s))
  {
    hide Agent.Serve, Agent.ExpireStep, ReadAll, StatsOf;
    match s
    case Transfer(ch, n) => OneStep(Metered(w), Counters.Transfer(ch, n));
    case Poll(_, _, r) =>
      if r.api {
        Agent.ServeChangesLedger(cfg, w.host.node, Filled(w, s));
      } else {
        PollIsScheduled(cfg, w, s);
      }
    case Other(t) =>
      OneStep(Metered(w), Counters.XrayRestart);
      OtherKeepsLedger(cfg, w.host, t);
  }

  lemma OtherKeepsLedger(cfg: Agent.Config, h: Restarts.Host, t: Restarts.Step)
    requires t.Serve? && t.r.Collect? ==> t.r.api
    ensures Restarts.Next(cfg, h, t).node.ledger == h.node.ledger
  {
    hide Agent.Serve, Quota.Expire;
    if t.Serve? {
      Agent.ServeChangesLedger(cfg, h.node, t.r);
    }
  }

  lemma LastIsPossible(cfg: Agent.Config, w: World, steps: seq<Step>)
    requires steps != [] && PossibleRun(cfg, w, steps)
    ensures var n := |steps| - 1; PossibleRun(cfg, w, steps[..n]) && Possible(Run(cfg, w, steps[..n]), steps[n])
  {
    hide Next, Possible;
    var n := |steps| - 1;
    forall i | 0 <= i < n ensures Possible(Run(cfg, w, steps[..n][..i]), steps[..n][i]) {
      assert steps[..n][..i] == steps[..i];
    }
  }

  /** Every run of the host is a schedule of the counters. */
  lemma {:induction false} RunIsScheduled(cfg: Agent.Config, w: World, steps: seq<Step>)
    requires PossibleRun(cfg, w, steps)
    ensures Counters.Run(Metered(w), Schedule(cfg, w, steps)) == Metered(Run(cfg, w, steps))
  {
    hide Next, Possible, Counters.Run, ScheduleOf, Metered;
    if steps == [] {
      NoSteps(Metered(w), []);
    } else {
      var n := |steps| - 1;
      LastIsPossible(cfg, w, steps);
      RunIsScheduled(cfg, w, steps[..n]);
      StepIsScheduled(cfg, Run(cfg, w, steps[..n]), steps[n]);
      RunConcat(Metered(w), Schedule(cfg, w, steps[..n]), ScheduleOf(Run(cfg, w, steps[..n]), steps[n]));
    }
  }

  // ---------------------------------------------------------------------------------------------
  // The schedule is a possible one

  ghost predicate PossibleFrom(w: Counters.World, steps: seq<Counters.Step>) {
    forall i :: 0 <= i < |steps| ==> Counters.Possible(Counters.Run(w, steps[..i]), steps[i])
  }

  lemma PossibleConcat(w: Counters.World, a: seq<Counters.Step>, b: seq<Counters.Step>)
    requires PossibleFrom(w, a) && PossibleFrom(Counters.Run(w, a), b)
    ensures PossibleFrom(w, a + b)
  {
    hide Counters.Run, Counters.Possible;
    var l := a + b;
    forall i | 0 <= i < |l| ensures Counters.Possible(Counters.Run(w, l[..i]), l[i]) {
      if i < |a| {
        assert l[..i] == a[..i];
      } else {
        assert l[..i] == a + b[..i - |a|];
        RunConcat(w, a, b[..i - |a|]);
        assert Counters.Possible(Counters.Run(Counters.Run(w, a), b[..i - |a|]), b[i - |a|]);
      }
    }
  }

  lemma {:induction false} ConsumesOnly(l: Traffic.Ledger, readings: seq<Counters.Reading>, now: int, faults: Faulty)
    ensures forall i :: 0 <= i < |ConsumeSteps(l, readings, now, faults)| ==>
      ConsumeSteps(l, readings, now, faults)[i].Consume?
  {
    hide Counters.CollectedAll, Counters.Fails;
    if readings != [] {
      ConsumesOnly(l, readings[..|readings| - 1], now, faults);
    }
  }

  ghost predicate FirstListsOnly(w: Counters.World, steps: seq<Counters.Step>) {
    forall i :: 0 <= i < |steps| && steps[i].Query? ==> i == 0 && Lists(steps[0].order, w.xray)
  }

  lemma StepIsPossible(w: World, s: Step)
    requires Possible(w, s)
    ensures PossibleFrom(Metered(w), ScheduleOf(w, s))
  {
    hide Counters.Next, ReadAll, StatsOf, ConsumeSteps;
    var steps := ScheduleOf(w, s);
    if s.Poll? && !s.r.api {
      ConsumesOnly(w.host.node.ledger, Filled(w, s).readings, s.r.now, s.r.counters);
    }
    assert FirstListsOnly(Metered(w), steps);
    forall i | 0 <= i < |steps| ensures Counters.Possible(Counters.Run(Metered(w), steps[..i]), steps[i]) {
      if steps[i].Query? {
        assert steps[..0] == [];
      }
    }
  }

  lemma {:induction false} ScheduleIsPossible(cfg: Agent.Config, w: World, steps: seq<Step>)
    requires PossibleRun(cfg, w, steps)
    ensures PossibleFrom(Metered(w), Schedule(cfg, w, steps))
  {
    hide Next, Possible, Counters.Run, ScheduleOf, Metered, Counters.Possible;
    if steps != [] {
      var n := |steps| - 1;
      LastIsPossible(cfg, w, steps);
      ScheduleIsPossible(cfg, w, steps[..n]);
      RunIsScheduled(cfg, w, steps[..n]);
      StepIsPossible(Run(cfg, w, steps[..n]), steps[n]);
      PossibleConcat(Metered(w), Schedule(cfg, w, steps[..n]), ScheduleOf(Run(cfg, w, steps[..n]), steps[n]));
    }
  }

  ghost predicate NoImpostorMoves(steps: seq<Step>, ch: Channel) {
    forall i :: 0 <= i < |steps| && steps[i].Transfer? ==> !Impostor(steps[i].ch, ch)
  }

  lemma {:induction false} ScheduleMovesTheSame(cfg: Agent.Config, w: World, steps: seq<Step>, ch: Channel)
    requires NoImpostorMoves(steps, ch)
    ensures Counters.NoImpostorMoves(Schedule(cfg, w, steps), ch)
  {
    hide Impostor, Next, ConsumeSteps, ReadAll, StatsOf;
    if steps != [] {
      var n := |steps| - 1;
      ScheduleMovesTheSame(cfg, w, steps[..n], ch);
      var v, s := Run(cfg, w, steps[..n]), steps[n];
      if s.Poll? && s.r.Collect? {
        ConsumesOnly(v.host.node.ledger, Filled(v, s).readings, s.r.now, s.r.counters);
      }
    }
  }

  /** The law over bytes sent for a whole host: over every run of transfers, polls, requests,
      configuration writes and restarts, whichever calls fail, an agent that started with empty tables
      has never recorded more for a counter than moved on it, unless traffic moved on another counter
      that is read as this one. */
  lemma HostNeverRecordsTooMuch(cfg: Agent.Config, w: World, steps: seq<Step>, ch: Channel)
    requires Unused(w) && PossibleRun(cfg, w, steps) && NoImpostorMoves(steps, ch)
    ensures var after := Run(cfg, w, steps);
      0 <= Counters.Persisted(after.host.node.ledger, ch) <= Get(after.sent, ch)
  {
    hide Run, Schedule, Impostor, Counters.Run, PossibleRun;
    RunIsScheduled(cfg, w, steps);
    ScheduleIsPossible(cfg, w, steps);
    ScheduleMovesTheSame(cfg, w, steps, ch);
    assert Metered(w) == Counters.FRESH;
    Counters.RecordedNeverExceedsSent(Schedule(cfg, w, steps), ch);
    Counters.PendingNeverNegative(Schedule(cfg, w, steps), ch);
  }

  // ---------------------------------------------------------------------------------------------
  // A poll that counts

  lemma {:induction false} CountedIsStored(l: Traffic.Ledger, readings: seq<Counters.Reading>, now: int, faults: Faulty,
      i: nat)
    requires i < |readings| && Counters.CollectedAll(l, readings, now, faults).1
    requires forall j, k :: 0 <= j < k < |readings| ==> readings[j].email != readings[k].email
    ensures var after, e := Counters.CollectedAll(l, readings, now, faults).0, readings[i].email;
      && Counters.Stored(after, Channel(e, Traffic.Up)) == Some(readings[i].up)
      && Counters.Stored(after, Channel(e, Traffic.Down)) == Some(readings[i].down)
  {
    hide Counters.Consumed, Counters.Stored, Counters.Fails;
    var n, u := |readings| - 1, readings[|readings| - 1];
    var before := Counters.CollectedAll(l, readings[..n], now, faults).0;
    if i < n {
      CountedIsStored(l, readings[..n], now, faults, i);
    }
    var up, down := Channel(u.email, Traffic.Up), Channel(u.email, Traffic.Down);
    var upDone := Counters.Consumed(before, up, u.up, now, faults(n, Traffic.Up));
    forall dir ensures var ch := Channel(readings[i].email, dir);
      Counters.Stored(Counters.Consumed(upDone, down, u.down, now, faults(n, Traffic.Down)), ch) ==
        if i == n then Some(if dir == Traffic.Up then u.up else u.down) else Counters.Stored(before, ch)
    {
      var ch := Channel(readings[i].email, dir);
      Counters.ConsumedOneChannel(before, up, u.up, now, faults(n, Traffic.Up), ch);
      Counters.ConsumedOneChannel(upDone, down, u.down, now, faults(n, Traffic.Down), ch);
    }
  }

  ghost predicate NoXrayRestart(steps: seq<Step>) {
    forall i :: 0 <= i < |steps| && steps[i].Other? ==> !steps[i].s.XrayRestart?
  }

  lemma {:induction false} ScheduleRestartsTheSame(cfg: Agent.Config, w: World, steps: seq<Step>)
    requires NoXrayRestart(steps)
    ensures Counters.NoXrayRestart(Schedule(cfg, w, steps))
  {
    hide Next, ConsumeSteps, ReadAll, StatsOf;
    if steps != [] {
      var n := |steps| - 1;
      ScheduleRestartsTheSame(cfg, w, steps[..n]);
      var v, s := Run(cfg, w, steps[..n]), steps[n];
      if s.Poll? && s.r.Collect? {
        ConsumesOnly(v.host.node.ledger, Filled(v, s).readings, s.r.now, s.r.counters);
      }
    }
  }

  /** What the counters of a host look like that never restarted Xray. */
  lemma HostStaysInOrder(cfg: Agent.Config, w: World, steps: seq<Step>, ch: Channel)
    requires Unused(w) && PossibleRun(cfg, w, steps) && NoImpostorMoves(steps, ch) && NoXrayRestart(steps)
    ensures Counters.InOrder(Metered(Run(cfg, w, steps)), ch)
    ensures !Readable(ch.email) ==> Counters.Persisted(Run(cfg, w, steps).host.node.ledger, ch) == 0
  {
    hide Run, Schedule, Impostor, Counters.Run, PossibleRun, Counters.InOrder, Readable, Counters.Persisted;
    RunIsScheduled(cfg, w, steps);
    ScheduleIsPossible(cfg, w, steps);
    ScheduleMovesTheSame(cfg, w, steps, ch);
    ScheduleRestartsTheSame(cfg, w, steps);
    assert Metered(w) == Counters.FRESH;
    Counters.RunStaysInOrder(Schedule(cfg, w, steps), ch);
    if !Readable(ch.email) {
      Counters.UnreadableIsNeverRecorded(Schedule(cfg, w, steps), ch);
    }
  }

  /** The poll's counter loop went through. */
  ghost predicate Counts(w: World, s: Step) {
    s.Poll? && s.r.Collect? && !s.r.api &&
    Counters.CollectedAll(w.host.node.ledger, Filled(w, s).readings, s.r.now, s.r.counters).1
  }

  lemma CountedPollStores(cfg: Agent.Config, w: World, s: Step, ch: Channel)
    requires Possible(w, s) && Counts(w, s) && NoImpostors(s.order, ch) && Readable(ch.email) && ch in w.xray
    ensures Counters.Stored(Next(cfg, w, s).host.node.ledger, ch) == Some(w.xray[ch])
  {
    hide Counters.CollectedAll, Counters.Stored, Agent.CollectStep, ReadAll, StatsOf, Readable;
    Agent.ServeChangesLedger(cfg, w.host.node, Filled(w, s));
    ReadingIsOwn(w.xray, s.order, ch);
    var i :| 0 <= i < |s.users| && s.users[i] == ch.email;
    CountedIsStored(w.host.node.ledger, Filled(w, s).readings, s.r.now, s.r.counters, i);
  }

  lemma LiveAreUnmixed(cfg: Agent.Config, w: World, steps: seq<Step>, ch: Channel)
    requires w.xray == map[] && NoImpostorMoves(steps, ch)
    ensures forall c :: c in Run(cfg, w, steps).xray ==> !Impostor(c, ch)
    decreases |steps|
  {
    hide Impostor, Restarts.Next;
    if steps != [] {
      LiveAreUnmixed(cfg, w, steps[..|steps| - 1], ch);
    }
  }

  /** After a poll whose counter loop went through, with no restart of Xray so far and no traffic on a
      counter that is read as this one: the recorded total is everything that was sent if and only if the
      email is read back or nothing was sent. */
  lemma PollCatchesUpExactlyWhen(cfg: Agent.Config, w: World, steps: seq<Step>, s: Step, ch: Channel)
    requires Unused(w) && PossibleRun(cfg, w, steps + [s]) && NoImpostorMoves(steps, ch) && NoXrayRestart(steps)
    requires Counts(Run(cfg, w, steps), s)
    ensures var after := Run(cfg, w, steps + [s]);
      Counters.Persisted(after.host.node.ledger, ch) == Get(after.sent, ch) <==>
        Readable(ch.email) || Get(after.sent, ch) == 0
  {
    hide PossibleRun, Impostor, Readable, Counters.Persisted, Counters.Stored, Counts, Restarts.Next, Possible;
    var l, before := steps + [s], Run(cfg, w, steps);
    assert l[..|l| - 1] == steps;
    LastIsPossible(cfg, w, l);
    assert s.Poll? by { CountsIsPoll(before, s); }
    assert NoImpostorMoves(l, ch) && NoXrayRestart(l);
    HostStaysInOrder(cfg, w, l, ch);
    if Readable(ch.email) && ch in before.xray {
      LiveAreUnmixed(cfg, w, steps, ch);
      OrderIsLive(before, s, ch);
      CountedPollStores(cfg, before, s, ch);
    }
  }

  lemma CountsIsPoll(w: World, s: Step)
    requires Counts(w, s)
    ensures s.Poll?
  {
  }

  lemma OrderIsLive(w: World, s: Step, ch: Channel)
    requires s.Poll? && Possible(w, s) && forall c :: c in w.xray ==> !Impostor(c, ch)
    ensures NoImpostors(s.order, ch)
  {
    hide Impostor;
  }

  // ---------------------------------------------------------------------------------------------
  // The quota of an email that is not read back

  predicate NoRowsFor(l: Traffic.Ledger, e: Email) {
    forall row :: row in l.daily ==> row.email != e
  }

  lemma NoRowsMeanNoUsage(l: Traffic.Ledger, e: Email, start: int, now: int)
    requires NoRowsFor(l, e)
    ensures Traffic.Usage(l.daily, e, start, now) == 0
  {
    assert Traffic.Selected(l.daily, e, Traffic.Between(start, now), Traffic.Up) == map[];
    assert Traffic.Selected(l.daily, e, Traffic.Between(start, now), Traffic.Down) == map[];
  }

  lemma {:induction false} CountingAddsNoRow(l: Traffic.Ledger, readings: seq<Counters.Reading>, now: int,
      faults: Faulty, e: Email)
    requires NoRowsFor(l, e) && forall i :: 0 <= i < |readings| ==> readings[i].email != e
    ensures NoRowsFor(Counters.CollectedAll(l, readings, now, faults).0, e)
  {
    if readings != [] {
      CountingAddsNoRow(l, readings[..|readings| - 1], now, faults, e);
    }
  }

  lemma {:induction false} PassNeverFlags(a: Quota.Agent, s: Quota.Setting, n: nat, e: Email)
    requires n <= |a.policies| && s.default > 0 && s.usage(e) == 0 && !Quota.Blocked(a.states, e)
    ensures !Quota.Blocked(Quota.EnforceRows(a, s, n).states, e)
  {
    hide Quota.EnforceRow, Quota.Blocked;
    if n > 0 {
      PassNeverFlags(a, s, n - 1, e);
      var p := a.policies[n - 1];
      Quota.RowEffect(Quota.EnforceRows(a, s, n - 1), p, Quota.Blocked(a.states, p.email), s.usage(p.email), s.default,
        s.now, s.faults(n - 1), Quota.KeyOf(p), e);
    }
  }

  ghost predicate Unnoticed(n: Agent.Node, e: Email) {
    NoRowsFor(n.ledger, e) && !Quota.Blocked(n.agent.states, e)
  }

  lemma EnforceLeavesUnnoticed(cfg: Agent.Config, n: Agent.Node, now: int, list: bool, faults: nat -> Quota.RowFaults,
      e: Email)
    requires Unnoticed(n, e)
    ensures Unnoticed(Agent.EnforceStep(cfg, n, now, list, faults).0, e)
  {
    hide NoRowsFor, Traffic.Usage;
    var s := Agent.SettingAt(cfg, n.ledger, now, faults);
    NoRowsMeanNoUsage(n.ledger, e, Agent.WindowStart(cfg, now), now);
    PassNeverFlags(n.agent, s, |n.agent.policies|, e);
  }

  lemma ServeLeavesUnnoticed(cfg: Agent.Config, n: Agent.Node, r: Agent.Request, e: Email)
    requires Unnoticed(n, e)
    requires r.Collect? && !r.api ==> forall i :: 0 <= i < |r.readings| ==> r.readings[i].email != e
    ensures Unnoticed(Agent.Serve(cfg, n, r).0, e)
  {
    hide NoRowsFor, Agent.EnforceStep, Quota.ExpireRows, Agent.ReaddRows, Quota.Effective, Agent.UniqueUserKeys,
         Quota.UniqueKeys, Agent.NormalizeUsers, Agent.NormalizePolicies, Agent.FirstUser, Agent.FirstPolicy;
    match r
    case QuotaSync(rows, now, commit, list, quota) =>
      var n1 := n.(agent := Agent.WithPolicies(n.agent, Agent.NormalizePolicies(rows)));
      EnforceLeavesUnnoticed(cfg, n1, now, list, quota, e);
    case Collect(readings, now, api, counters, meta, list, quota, listUsers, expiry) =>
      if !api {
        CountingAddsNoRow(n.ledger, readings, now, counters, e);
        EnforceLeavesUnnoticed(cfg, Agent.AfterCounting(n, r), now, list, quota, e);
      }
    case _ =>
  }

  lemma StepLeavesUnnoticed(cfg: Agent.Config, w: World, s: Step, e: Email)
    requires Possible(w, s) && !Readable(e) && Unnoticed(w.host.node, e)
    ensures Unnoticed(Next(cfg, w, s).host.node, e)
  {
    hide Unnoticed, Readable, ReadAll, StatsOf, Agent.Serve;
    match s
    case Transfer(_, _) =>
    case Poll(order, users, r) =>
      SnapshotIsReadable(w.xray, order, e);
      ServeLeavesUnnoticed(cfg, w.host.node, Filled(w, s), e);
    case Other(t) =>
      if t.Serve? {
        ServeLeavesUnnoticed(cfg, w.host.node, t.r, e);
      } else {
        OtherLeavesUnnoticed(cfg, w.host, t, e);
      }
  }

  lemma OtherLeavesUnnoticed(cfg: Agent.Config, h: Restarts.Host, t: Restarts.Step, e: Email)
    requires !t.Serve? && Unnoticed(h.node, e)
    ensures Unnoticed(Restarts.Next(cfg, h, t).node, e)
  {
    hide Quota.ExpireRows;
  }

  /** A user whose email is not read back is never blocked, whatever it moves, whatever its quota and
      whichever requests, polls and restarts there are. */
  lemma {:induction false} UnreadableIsNeverBlocked(cfg: Agent.Config, w: World, steps: seq<Step>, e: Email)
    requires Unused(w) && PossibleRun(cfg, w, steps) && !Readable(e) && !Quota.Blocked(w.host.node.agent.states, e)
    ensures Unnoticed(Run(cfg, w, steps).host.node, e)
  {
    hide Next, Possible, Readable, Quota.Blocked;
    if steps != [] {
      LastIsPossible(cfg, w, steps);
      UnreadableIsNeverBlocked(cfg, w, steps[..|steps| - 1], e);
      StepLeavesUnnoticed(cfg, Run(cfg, w, steps[..|steps| - 1]), steps[|steps| - 1], e);
    }
  }
}
