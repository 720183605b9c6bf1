/** Restarts of Xray under a running agent. The runtime API changes the members of a running Xray
    only; a restart loads them from the configuration file again (internal/cli/runtime_helpers.go,
    internal/deploy/deploy.go). */
module Restarts {
  import opened Rows
  import opened Text
  import opened Quota
  import Agent
  import CounterNames
  import Counters
  import PolicySync
  import Traffic

  /** An agent beside the members listed in the configuration file that Xray starts from. */
  datatype Host = Host(node: Agent.Node, config: set<Member>)

  datatype Step =
    | Serve(r: Agent.Request)
    | Persist(config: set<Member>)
    | XrayRestart
    | AgentStart(now: int, list: bool, expiry: nat -> bool)

  ghost function Next(cfg: Agent.Config, h: Host, s: Step): Host {
    match s
    case Serve(r) => h.(node := Agent.Serve(cfg, h.node, r).0)
    case Persist(config) => h.(config := config)
    case XrayRestart => h.(node := h.node.(agent := h.node.agent.(members := h.config)))
    case AgentStart(now, list, expiry) => h.(node := Agent.ExpireStep(h.node, now, list, expiry).0)
  }

  ghost function Run(cfg: Agent.Config, h: Host, steps: seq<Step>): Host {
    if steps == [] then h else Next(cfg, Run(cfg, h, steps[..|steps| - 1]), steps[|steps| - 1])
  }

  // ---------------------------------------------------------------------------------------------
  // When a restart is safe

  /** The configuration lists no policy row of a blocked email. */
  ghost predicate Clear(a: Quota.Agent, config: set<Member>) {
    forall i :: 0 <= i < |a.policies| && Blocked(a.states, a.policies[i].email) ==> KeyOf(a.policies[i]) !in config
  }

  lemma RestartIsSafeExactlyWhen(a: Quota.Agent, config: set<Member>)
    requires forall e :: Blocked(a.states, e) ==> HasPolicy(a.policies, e)
    ensures Safe(a.(members := config)) <==> Clear(a, config)
  {
    var b := a.(members := config);
    if Safe(b) {
      forall i | 0 <= i < |a.policies| && Blocked(a.states, a.policies[i].email)
        ensures KeyOf(a.policies[i]) !in config
      {
        assert SafeEmail(b, a.policies[i].email);
      }
    }
    if Clear(a, config) {
      forall e ensures SafeEmail(b, e) {
      }
    }
  }

  ghost predicate Allowed(tags: set<Tag>, s: Step) {
    s.Serve? ==> Agent.Admissible(tags, s.r)
  }

  lemma NextStaysGuarded(cfg: Agent.Config, h: Host, s: Step, tags: set<Tag>)
    requires Agent.Guarded(h.node.agent, tags) && Allowed(tags, s)
    requires s.XrayRestart? ==> Clear(h.node.agent, h.config)
    ensures Agent.Guarded(Next(cfg, h, s).node.agent, tags)
  {
    hide Agent.Serve, Agent.ExpireStep, Agent.GoodPolicies, Clear;
    match s
    case Serve(r) => Agent.ServeStaysGuarded(cfg, h.node, r, tags);
    case Persist(_) =>
    case AgentStart(now, list, expiry) => Agent.ExpireStaysGuarded(h.node, now, list, expiry, tags);
    case XrayRestart =>
      BlockedHavePolicies(h.node.agent);
      RestartIsSafeExactlyWhen(h.node.agent, h.config);
  }

  lemma BlockedHavePolicies(a: Quota.Agent)
    requires Safe(a)
    ensures forall e :: Blocked(a.states, e) ==> HasPolicy(a.policies, e)
  {
    forall e | Blocked(a.states, e) ensures HasPolicy(a.policies, e) {
      assert SafeEmail(a, e);
    }
  }

  ghost predicate SafeAt(cfg: Agent.Config, h: Host, steps: seq<Step>, k: nat)
    requires k <= |steps|
  {
    Safe(Run(cfg, h, steps[..k]).node.agent)
  }

  ghost predicate ClearAt(cfg: Agent.Config, h: Host, steps: seq<Step>, k: nat)
    requires k < |steps|
  {
    steps[k].XrayRestart? ==> Clear(Run(cfg, h, steps[..k]).node.agent, Run(cfg, h, steps[..k]).config)
  }

  lemma {:induction false} ClearRestartsStayGuarded(cfg: Agent.Config, h: Host, steps: seq<Step>, tags: set<Tag>,
      k: nat)
    requires Agent.Guarded(h.node.agent, tags) && k <= |steps|
    requires forall i :: 0 <= i < |steps| ==> Allowed(tags, steps[i])
    requires forall i :: 0 <= i < k ==> ClearAt(cfg, h, steps, i)
    ensures Agent.Guarded(Run(cfg, h, steps[..k]).node.agent, tags)
  {
    hide Next, Agent.Guarded, Allowed, Clear;
    if k > 0 {
      ClearRestartsStayGuarded(cfg, h, steps, tags, k - 1);
      assert steps[..k][..k - 1] == steps[..k - 1];
      assert ClearAt(cfg, h, steps, k - 1);
      NextStaysGuarded(cfg, Run(cfg, h, steps[..k - 1]), steps[k - 1], tags);
    }
  }

  lemma SafeRestartWasClear(cfg: Agent.Config, h: Host, steps: seq<Step>, k: nat)
    requires k < |steps| && SafeAt(cfg, h, steps, k) && SafeAt(cfg, h, steps, k + 1)
    ensures ClearAt(cfg, h, steps, k)
  {
    hide Safe, Clear;
    assert steps[..k + 1][..k] == steps[..k];
    var w := Run(cfg, h, steps[..k]);
    if steps[k].XrayRestart? {
      BlockedHavePolicies(w.node.agent);
      RestartIsSafeExactlyWhen(w.node.agent, w.config);
    }
  }

  /** With a working store, and a runtime that fails only with Missing when there are several inbounds,
      restarts alone decide: a run of requests, polls, configuration writes and restarts keeps every
      blocked email absent from the runtime throughout exactly when each restart of Xray finds no row of
      a blocked email in the configuration file. */
  lemma RestartsDecideSafety(cfg: Agent.Config, h: Host, steps: seq<Step>, tags: set<Tag>)
    requires Agent.Guarded(h.node.agent, tags)
    requires forall i :: 0 <= i < |steps| ==> Allowed(tags, steps[i])
    ensures (forall k :: 0 <= k <= |steps| ==> SafeAt(cfg, h, steps, k)) <==>
            (forall k :: 0 <= k < |steps| ==> ClearAt(cfg, h, steps, k))
  {
    hide SafeAt, ClearAt, Allowed, Agent.GoodPolicies;
    if forall k :: 0 <= k <= |steps| ==> SafeAt(cfg, h, steps, k) {
      forall k | 0 <= k < |steps| ensures ClearAt(cfg, h, steps, k) {
        assert SafeAt(cfg, h, steps, k) && SafeAt(cfg, h, steps, k + 1);
        SafeRestartWasClear(cfg, h, steps, k);
      }
    }
    if forall k :: 0 <= k < |steps| ==> ClearAt(cfg, h, steps, k) {
      forall k | 0 <= k <= |steps| ensures SafeAt(cfg, h, steps, k) {
        ClearRestartsStayGuarded(cfg, h, steps, tags, k);
        GuardedIsSafe(cfg, h, steps, tags, k);
      }
    }
  }

  lemma GuardedIsSafe(cfg: Agent.Config, h: Host, steps: seq<Step>, tags: set<Tag>, k: nat)
    requires k <= |steps| && Agent.Guarded(Run(cfg, h, steps[..k]).node.agent, tags)
    ensures SafeAt(cfg, h, steps, k)
  {
  }

  // ---------------------------------------------------------------------------------------------
  // Whatever fails

  ghost predicate GoodSync(tags: set<Tag>, s: Step) {
    s.Serve? ==> Agent.GoodSync(tags, s.r)
  }

  /** A pass leaves no email half done, and a restart finds a clear configuration. */
  ghost predicate KeepsSafe(cfg: Agent.Config, h: Host, s: Step) {
    match s
    case Serve(r) => Agent.LeavesNothingHalfDone(cfg, h.node, r)
    case XrayRestart => Clear(h.node.agent, h.config)
    case _ => true
  }

  lemma NextIsSafeExactlyWhen(cfg: Agent.Config, h: Host, s: Step, tags: set<Tag>)
    requires Agent.Guarded(h.node.agent, tags) && GoodSync(tags, s)
    ensures Safe(Next(cfg, h, s).node.agent) <==> KeepsSafe(cfg, h, s)
    ensures KeepsSafe(cfg, h, s) ==> Agent.Guarded(Next(cfg, h, s).node.agent, tags)
  {
    hide Agent.Serve, Agent.ExpireStep, Agent.GoodPolicies, Clear, Agent.LeavesNothingHalfDone, Safe;
    match s
    case Serve(r) => Agent.ServeIsSafeExactlyWhen(cfg, h.node, r, tags);
    case Persist(_) =>
    case AgentStart(now, list, expiry) => Agent.ExpireStaysGuarded(h.node, now, list, expiry, tags);
    case XrayRestart =>
      BlockedHavePolicies(h.node.agent);
      RestartIsSafeExactlyWhen(h.node.agent, h.config);
  }

  ghost predicate KeepsSafeAt(cfg: Agent.Config, h: Host, steps: seq<Step>, k: nat)
    requires k < |steps|
  {
    KeepsSafe(cfg, Run(cfg, h, steps[..k]), steps[k])
  }

  lemma PrefixRun(cfg: Agent.Config, h: Host, steps: seq<Step>, k: nat)
    requires k < |steps|
    ensures Run(cfg, h, steps[..k + 1]) == Next(cfg, Run(cfg, h, steps[..k]), steps[k])
  {
    hide Next;
    assert steps[..k + 1][..k] == steps[..k];
  }

  lemma {:induction false} KeepingSafeStaysGuarded(cfg: Agent.Config, h: Host, steps: seq<Step>, tags: set<Tag>, k: nat)
    requires Agent.Guarded(h.node.agent, tags) && k <= |steps| && forall i :: 0 <= i < |steps| ==>
      GoodSync(tags, steps[i])
    requires forall i :: 0 <= i < k ==> KeepsSafeAt(cfg, h, steps, i)
    ensures Agent.Guarded(Run(cfg, h, steps[..k]).node.agent, tags)
  {
    hide Next, Agent.Guarded, GoodSync, KeepsSafe;
    if k > 0 {
      KeepingSafeStaysGuarded(cfg, h, steps, tags, k - 1);
      PrefixRun(cfg, h, steps, k - 1);
      assert KeepsSafeAt(cfg, h, steps, k - 1);
      NextIsSafeExactlyWhen(cfg, Run(cfg, h, steps[..k - 1]), steps[k - 1], tags);
    }
  }

  lemma {:induction false} FirstUnsafe(cfg: Agent.Config, h: Host, steps: seq<Step>, m: nat) returns (k: nat)
    requires m <= |steps| && exists i :: 0 <= i < m && !KeepsSafeAt(cfg, h, steps, i)
    ensures k < m && !KeepsSafeAt(cfg, h, steps, k) && forall i :: 0 <= i < k ==> KeepsSafeAt(cfg, h, steps, i)
  {
    hide KeepsSafeAt;
    if exists i :: 0 <= i < m - 1 && !KeepsSafeAt(cfg, h, steps, i) {
      k := FirstUnsafe(cfg, h, steps, m - 1);
    } else {
      k := m - 1;
    }
  }

  /** Whatever fails and for any number of inbounds: a run of requests, polls, configuration writes and
      restarts keeps every blocked email absent from the runtime throughout if and only if no pass in it
      leaves an email half done and no restart finds a row of a blocked email in the configuration. */
  lemma RunIsSafeExactlyWhen(cfg: Agent.Config, h: Host, steps: seq<Step>, tags: set<Tag>)
    requires Agent.Guarded(h.node.agent, tags) && forall i :: 0 <= i < |steps| ==> GoodSync(tags, steps[i])
    ensures (forall k :: 0 <= k <= |steps| ==> SafeAt(cfg, h, steps, k)) <==>
            (forall k :: 0 <= k < |steps| ==> KeepsSafeAt(cfg, h, steps, k))
  {
    hide Agent.GoodPolicies, Safe, GoodSync, Next, Run, KeepsSafe;
    if forall k :: 0 <= k < |steps| ==> KeepsSafeAt(cfg, h, steps, k) {
      forall k | 0 <= k <= |steps| ensures SafeAt(cfg, h, steps, k) {
        KeepingSafeStaysGuarded(cfg, h, steps, tags, k);
      }
    } else {
      var k := FirstUnsafe(cfg, h, steps, |steps|);
      KeepingSafeStaysGuarded(cfg, h, steps, tags, k);
      PrefixRun(cfg, h, steps, k);
      NextIsSafeExactlyWhen(cfg, Run(cfg, h, steps[..k]), steps[k], tags);
      assert !SafeAt(cfg, h, steps, k + 1);
    }
  }

  // ---------------------------------------------------------------------------------------------
  // Which configurations are clear

  /** The members of a configuration rendered while some emails were blocked. */
  function Rendered(users: seq<PolicySync.LocalUser>, services: seq<Email>, tags: seq<Tag>,
      blocked: map<Email, Option<int>>, clock: nat -> int): set<Member>
  {
    var out := seq(|users|, i requires 0 <= i < |users| => PolicySync.RuntimeUser(users[i], blocked, clock(i)));
    PolicySync.Started(out, services, tags)
  }

  predicate Listed(users: seq<PolicySync.LocalUser>, services: seq<Email>, blocked: map<Email, Option<int>>,
      clock: nat -> int, e: Email)
  {
    || e in services
    || exists i :: 0 <= i < |users| && users[i].email == e && PolicySync.Active(users[i], clock(i)) && e !in blocked
  }

  lemma RenderedLists(users: seq<PolicySync.LocalUser>, services: seq<Email>, tags: seq<Tag>,
      blocked: map<Email, Option<int>>, clock: nat -> int, m: Member)
    ensures m in Rendered(users, services, tags, blocked, clock) <==>
      m.tag in tags && Listed(users, services, blocked, clock, m.email)
  {
    hide PolicySync.Active;
    var out := seq(|users|, i requires 0 <= i < |users| => PolicySync.RuntimeUser(users[i], blocked, clock(i)));
    if m.tag in tags && Listed(users, services, blocked, clock, m.email) && m.email !in services {
      var i :| 0 <= i < |users| && users[i].email == m.email && PolicySync.Active(users[i], clock(i)) &&
        m.email !in blocked;
      assert out[i].enabled && out[i].email == m.email;
    }
    if m in Rendered(users, services, tags, blocked, clock) && m.email !in services {
      var i :| 0 <= i < |users| && out[i].enabled && Member(m.tag, out[i].email) == m;
      assert users[i].email == m.email && PolicySync.Active(users[i], clock(i)) && m.email !in blocked;
    }
  }

  /** A configuration rendered earlier is clear exactly when every email blocked now is no service
      account, and was blocked or not in effect when the configuration was rendered. */
  lemma RenderedIsClearExactlyWhen(a: Quota.Agent, users: seq<PolicySync.LocalUser>, services: seq<Email>,
      tags: seq<Tag>, blocked: map<Email, Option<int>>, clock: nat -> int)
    requires Agent.GoodPolicies(a.policies, PolicySync.TagSet(tags))
    ensures Clear(a, Rendered(users, services, tags, blocked, clock)) <==>
      forall e :: e in BlockedPolicyEmails(a) ==> !Listed(users, services, blocked, clock, e)
  {
    hide Rendered, Listed;
    var config := Rendered(users, services, tags, blocked, clock);
    forall i | 0 <= i < |a.policies|
      ensures KeyOf(a.policies[i]) in config <==> Listed(users, services, blocked, clock, a.policies[i].email)
    {
      RenderedLists(users, services, tags, blocked, clock, KeyOf(a.policies[i]));
    }
  }

  // ---------------------------------------------------------------------------------------------
  // A restart that undoes a block

  ghost predicate ServedWhileBlocked(a: Quota.Agent, i: nat) {
    i < |a.policies| && Blocked(a.states, a.policies[i].email) && KeyOf(a.policies[i]) in a.members
  }

  /** A pass keeps a blocked row that is over its quota as it is, and so leaves it served. */
  lemma PassKeepsServing(a: Quota.Agent, s: Setting, i: nat)
    requires s.default > 0 && UniqueKeys(a.policies) && Uniform(a.policies) && ServedWhileBlocked(a, i)
    requires OverQuota(a.policies[i], s.usage(a.policies[i].email), s.default)
    ensures ServedWhileBlocked(Enforced(a, s), i)
  {
    MembersAfter(a, s, |a.policies|, i);
    BlockedAfter(a, s, |a.policies|, a.policies[i].email);
    SameEmailSameAction(a, s, i);
  }

  /** At every poll the row's email is over its quota and no user-policy row bars it. */
  ghost predicate OverAndInEffect(cfg: Agent.Config, n: Agent.Node, r: Agent.Request, i: nat) {
    && r.Collect? && i < |n.agent.policies|
    && OverQuota(n.agent.policies[i], Agent.PollSetting(cfg, n, r).usage(n.agent.policies[i].email),
      DefaultQuota(cfg.quota))
    && !Barred(n.agent.users, KeyOf(n.agent.policies[i]), r.now)
  }

  lemma PollKeepsServing(cfg: Agent.Config, n: Agent.Node, r: Agent.Request, i: nat)
    requires UniqueKeys(n.agent.policies) && Uniform(n.agent.policies) && ServedWhileBlocked(n.agent, i)
    requires OverAndInEffect(cfg, n, r, i)
    ensures var after := Agent.Serve(cfg, n, r).0.agent;
      ServedWhileBlocked(after, i) && after.policies == n.agent.policies && after.users == n.agent.users
  {
    hide UniqueKeys, Uniform, Quota.Enforce, ExpireRows;
    if !r.api {
      var n1 := Agent.AfterCounting(n, r);
      var s := Agent.PollSetting(cfg, n, r);
      PassKeepsServing(n1.agent, s, i);
      var n2 := Agent.EnforceStep(cfg, n1, r.now, r.list, r.quota).0;
      ExpiryOnlyRemovesBarred(n2.agent.users, n2.agent.members, r.now, r.expiry, |n2.agent.users|,
        KeyOf(n.agent.policies[i]));
      assert n2.agent.users[..|n2.agent.users|] == n2.agent.users;
    }
  }

  /** Once a restart has brought a blocked user back, polls leave the user served for as long as the
      usage stays over the quota, however many there are and whichever calls fail. */
  lemma {:induction false} PollsKeepServing(cfg: Agent.Config, n: Agent.Node, rs: seq<Agent.Request>, i: nat)
    requires UniqueKeys(n.agent.policies) && Uniform(n.agent.policies) && ServedWhileBlocked(n.agent, i)
    requires forall k :: 0 <= k < |rs| ==> OverAndInEffect(cfg, Agent.ServeAll(cfg, n, rs[..k]), rs[k], i)
    ensures ServedWhileBlocked(Agent.ServeAll(cfg, n, rs).agent, i)
    ensures Agent.ServeAll(cfg, n, rs).agent.policies == n.agent.policies
  {
    hide UniqueKeys, Uniform, Agent.Serve, OverAndInEffect, ServedWhileBlocked;
    if rs != [] {
      var before := rs[..|rs| - 1];
      forall k | 0 <= k < |before| ensures OverAndInEffect(cfg, Agent.ServeAll(cfg, n, before[..k]), before[k], i) {
        assert before[..k] == rs[..k];
      }
      PollsKeepServing(cfg, n, before, i);
      PollKeepsServing(cfg, Agent.ServeAll(cfg, n, before), rs[|rs| - 1], i);
    }
  }

  // ---------------------------------------------------------------------------------------------
  // One such run

  const LIMITED := PolicySync.LocalUser("u", "u", "id", true, None, true, Some(1), false, None)
  const ROW := QuotaPolicy("u", "id", DEFAULT_TAG, true, Some(1))
  const USUAL := Agent.Config(0, 0)
  const STOPPED := Host(Agent.Node(Quota.Agent([], map[], [], {}), Traffic.NEW_LEDGER), {})

  const DEPLOY := [Persist(Rendered([LIMITED], [], [DEFAULT_TAG], map[], _ => 0)), XrayRestart]
  const SYNC := Agent.QuotaSync([ROW], 0, true, false, _ => RowFaults(false, false))

  function Poll(readings: seq<Counters.Reading>, now: int): Agent.Request {
    Agent.Collect(readings, now, false, (i, d) => Counters.Faults(false, false, false), false, false,
                  _ => RowFaults(false, false), false, _ => false)
  }

  /** Deploy a user with a quota of one byte, sync its row, count five bytes. */
  const BEFORE := DEPLOY + [Serve(SYNC), Serve(Poll([Counters.Reading("u", 5, 0)], 100))]

  const SERVED := Quota.Agent([ROW], map[], [], {KeyOf(ROW)})

  lemma DeployedIsServed()
    ensures Run(USUAL, STOPPED, DEPLOY) == Host(Agent.Node(SERVED.(policies := []), Traffic.NEW_LEDGER), {KeyOf(ROW)})
  {
    hide Rendered;
    var config := Rendered([LIMITED], [], [DEFAULT_TAG], map[], _ => 0);
    forall m ensures m in config <==> m == KeyOf(ROW) {
      RenderedLists([LIMITED], [], [DEFAULT_TAG], map[], _ => 0, m);
      assert [LIMITED][0].email == "u" && PolicySync.Active([LIMITED][0], 0);
    }
    assert config == {KeyOf(ROW)};
    assert DEPLOY[..1] == [DEPLOY[0]] && DEPLOY[..1][..0] == [];
    assert Run(USUAL, STOPPED, DEPLOY[..1]) == Host(STOPPED.node, config);
  }

  lemma RowIsStored()
    ensures Agent.NormalizePolicies([ROW]) == [ROW] && UniqueKeys([ROW]) && Uniform([ROW])
    ensures Agent.GoodPolicies([ROW], {DEFAULT_TAG}) && Complete(ROW) && !Blank(ROW.uuid)
  {
    assert DEFAULT_TAG[0] == 'v' && DEFAULT_TAG[|DEFAULT_TAG| - 1] == 'y';
    assert Agent.NormalizePolicy(ROW) == ROW;
    assert Agent.HasKey([ROW], KeyOf(ROW)) by {
      assert KeyOf([ROW][0]) == KeyOf(ROW);
    }
  }

  lemma SyncedIsServed()
    ensures Agent.Serve(USUAL, Agent.Node(SERVED.(policies := []), Traffic.NEW_LEDGER), SYNC).0
         == Agent.Node(SERVED, Traffic.NEW_LEDGER)
  {
    hide Traffic.Usage, EnforceRow, Trim;
    RowIsStored();
    var s := Agent.SettingAt(USUAL, Traffic.NEW_LEDGER, 0, SYNC.quota);
    Traffic.IdleUsageIsZero([], "u", Agent.WindowStart(USUAL, 0), 0);
    assert Traffic.Replay(Traffic.NEW_LEDGER, []) == Traffic.NEW_LEDGER;
    assert s.usage("u") == 0;
    assert Agent.WithPolicies(SERVED.(policies := []), [ROW]) == SERVED;
    assert RowAction(SERVED, s, 0) == Keep;
    OverQuotaBlockedIsKept(SERVED, s, 1);
  }

  const FIVE_BYTES := Traffic.Delta("u", Traffic.Bytes(5, 0), 100)

  lemma FiveBytesUsed(ledger: Traffic.Ledger, now: int)
    requires Counters.SameAggregates(ledger, Traffic.Replay(Traffic.NEW_LEDGER, [FIVE_BYTES])) &&
      100 <= now < DEFAULT_WINDOW
    ensures Traffic.Usage(ledger.daily, "u", now - DEFAULT_WINDOW, now) == 5
  {
    hide Traffic.Usage, Traffic.Replay;
    Traffic.UsageIsStampedByDay([FIVE_BYTES], "u", now - DEFAULT_WINDOW, now);
    var sel := Traffic.DayBetween(now - DEFAULT_WINDOW, now);
    assert Traffic.Bucket(100, Traffic.DAY) == 0 && sel(100);
    assert [FIVE_BYTES][..0] == [];
    assert Traffic.Stamped([FIVE_BYTES], "u", sel, Traffic.Up) == 5 &&
      Traffic.Stamped([FIVE_BYTES], "u", sel, Traffic.Down) == 0;
  }

  lemma FiveBytesAreCounted()
    ensures var r := Poll([Counters.Reading("u", 5, 0)], 100);
      var (ledger, ok) := Counters.CollectedAll(Traffic.NEW_LEDGER, r.readings, r.now, r.counters);
      ok && Counters.SameAggregates(ledger, Traffic.Replay(Traffic.NEW_LEDGER, [FIVE_BYTES]))
  {
    hide Counters.Consumed, Counters.SameAggregates, Traffic.Replay;
    var r := Poll([Counters.Reading("u", 5, 0)], 100);
    assert r.readings[..0] == [];
    var up, down := CounterNames.Channel("u", Traffic.Up), CounterNames.Channel("u", Traffic.Down);
    var none := r.counters(0, Traffic.Up);
    assert Counters.DeltaOf(Traffic.NEW_LEDGER, up, 5, 100, none) == [FIVE_BYTES];
    var upDone := Counters.Consumed(Traffic.NEW_LEDGER, up, 5, 100, none);
    Counters.ConsumedOneChannel(Traffic.NEW_LEDGER, up, 5, 100, none, down);
    assert Counters.DeltaOf(upDone, down, 0, 100, none) == [];
    assert Counters.DeltasOf(Traffic.NEW_LEDGER, [], r.now, r.counters) == [];
    assert Counters.DeltasOf(Traffic.NEW_LEDGER, r.readings, r.now, r.counters) == [FIVE_BYTES];
    Counters.NothingReplayed(Traffic.NEW_LEDGER);
    Counters.ReadingsExtendLog(Traffic.NEW_LEDGER, r.readings, r.now, r.counters, Traffic.NEW_LEDGER, []);
    assert [] + [FIVE_BYTES] == [FIVE_BYTES];
  }

  /** The poll blocks the user and takes it out of the runtime. */
  lemma PollBlocks(readings: seq<Counters.Reading>)
    requires readings == [Counters.Reading("u", 5, 0)]
    ensures var after := Agent.Serve(USUAL, Agent.Node(SERVED, Traffic.NEW_LEDGER), Poll(readings, 100)).0;
      && after.agent == SERVED.(states := map["u" := QuotaState(true, Some(100))], members := {})
      && Counters.SameAggregates(after.ledger, Traffic.Replay(Traffic.NEW_LEDGER, [FIVE_BYTES]))
  {
    hide Traffic.Usage, Trim, Counters.CollectedAll, Counters.SameAggregates;
    RowIsStored();
    FiveBytesAreCounted();
    var r := Poll(readings, 100);
    var n := Agent.Node(SERVED, Traffic.NEW_LEDGER);
    var s := Agent.PollSetting(USUAL, n, r);
    FiveBytesUsed(Agent.AfterCounting(n, r).ledger, 100);
    assert s.usage("u") == 5;
    assert RowAction(SERVED, s, 0) == Block && RemoveSucceeds(ROW, SERVED.members, false);
    assert EnforceRows(SERVED, s, 0) == Pass(map[], {KeyOf(ROW)}, {}, {}, {}, None);
    assert {KeyOf(ROW)} - {KeyOf(ROW)} == {};
  }

  /** A blocked user is served again after a restart of Xray, although no call ever failed, and a later
      poll leaves it so. Every step is one the safety theorems allow, and until the restart the agent
      was safe. */
  lemma RestartUndoesBlock()
    ensures Agent.Guarded(STOPPED.node.agent, {DEFAULT_TAG})
    ensures forall i :: 0 <= i < |BEFORE| ==> Allowed({DEFAULT_TAG}, BEFORE[i])
    ensures Safe(Run(USUAL, STOPPED, BEFORE).node.agent)
    ensures ServedWhileBlocked(Run(USUAL, STOPPED, BEFORE + [XrayRestart]).node.agent, 0)
    ensures ServedWhileBlocked(Run(USUAL, STOPPED, BEFORE + [XrayRestart, Serve(Poll([], 200))]).node.agent, 0)
  {
    hide Rendered, Agent.Serve, Agent.GoodPolicies, Trim;
    Agent.FreshAgentIsGuarded(Traffic.NEW_LEDGER, [], {}, {DEFAULT_TAG});
    RowIsStored();
    DeployedIsServed();
    SyncedIsServed();
    PollBlocks([Counters.Reading("u", 5, 0)]);
    RunAppends(USUAL, STOPPED, DEPLOY, BEFORE[2]);
    RunAppends(USUAL, STOPPED, DEPLOY + [BEFORE[2]], BEFORE[3]);
    assert DEPLOY + [BEFORE[2]] + [BEFORE[3]] == BEFORE;
    RunAppends(USUAL, STOPPED, BEFORE, XrayRestart);
    RunAppends(USUAL, STOPPED, BEFORE + [XrayRestart], Serve(Poll([], 200)));
    assert BEFORE + [XrayRestart] + [Serve(Poll([], 200))] == BEFORE + [XrayRestart, Serve(Poll([], 200))];
    var h := Run(USUAL, STOPPED, BEFORE + [XrayRestart]);
    assert ServedWhileBlocked(h.node.agent, 0);
    FiveBytesUsed(h.node.ledger, 200);
    PollKeepsServing(USUAL, h.node, Poll([], 200), 0);
  }

  lemma RunAppends(cfg: Agent.Config, h: Host, steps: seq<Step>, s: Step)
    ensures Run(cfg, h, steps + [s]) == Next(cfg, Run(cfg, h, steps), s)
  {
    assert (steps + [s])[..|steps|] == steps;
  }
}
