/** A quota row that can never be blocked. Blocking a user who is not in the runtime fails, and a poll
    whose quota pass fails returns before it enforces expiry (internal/stats/collector.go,
    internal/stats/quota.go). */
module StuckRows {
  import opened Rows
  import opened Text
  import opened Quota
  import Agent
  import Counters
  import Restarts
  import Traffic

  type Poll = r: Agent.Request | r.Collect? witness Restarts.Poll([], 0)

  // ---------------------------------------------------------------------------------------------
  // What a poll removes from the runtime

  predicate PassRuns(n: Agent.Node, r: Poll) {
    !r.api && Counters.CollectedAll(n.ledger, r.readings, r.now, r.counters).1 && !r.meta && !r.list
  }

  /** The calls up to the quota pass succeed, and so does each of its rows. */
  ghost predicate ExpiryRuns(cfg: Agent.Config, n: Agent.Node, r: Poll) {
    && PassRuns(n, r)
    && forall i :: 0 <= i < |n.agent.policies| ==> RowClean(n.agent, Agent.PollSetting(cfg, n, r), i)
  }

  ghost predicate QuotaRemoves(cfg: Agent.Config, n: Agent.Node, r: Poll, m: Member) {
    && PassRuns(n, r)
    && exists i ::
      0 <= i < |n.agent.policies| && KeyOf(n.agent.policies[i]) == m &&
      RowRemoves(n.agent, Agent.PollSetting(cfg, n, r), i)
  }

  /** One of the first k user rows bars the member, and its removal does not fail. */
  predicate ExpiryRemoves(users: seq<UserPolicy>, now: int, faults: nat -> bool, k: nat, m: Member)
    requires k <= |users|
  {
    exists i :: 0 <= i < k && UserKey(users[i]) == m && !Effective(users[i].enabled, users[i].expiry, now) &&
      ExpirySucceeds(users[i], faults(i))
  }

  lemma {:induction false} ExpireRowsRemoves(users: seq<UserPolicy>, members: set<Member>, now: int,
      faults: nat -> bool, k: nat, m: Member)
    requires k <= |users|
    ensures m in ExpireRows(users, members, now, faults, k).0 <==>
      m in members && !ExpiryRemoves(users, now, faults, k, m)
  {
    hide Effective, ExpirySucceeds;
    if k > 0 {
      ExpireRowsRemoves(users, members, now, faults, k - 1, m);
      var u := users[k - 1];
      assert ExpiryRemoves(users, now, faults, k, m) <==>
        ExpiryRemoves(users, now, faults, k - 1, m) || (UserKey(u) == m && !Effective(u.enabled, u.expiry, now) &&
          ExpirySucceeds(u, faults(k - 1)));
    }
  }

  lemma PassRemoves(a: Quota.Agent, s: Setting, m: Member)
    requires s.default > 0 && UniqueKeys(a.policies) && m in a.members
    ensures m !in Enforced(a, s).members <==>
      exists i :: 0 <= i < |a.policies| && KeyOf(a.policies[i]) == m && RowRemoves(a, s, i)
  {
    hide UniqueKeys, EnforceRows, RowRemoves, RowAdds;
    if i :| 0 <= i < |a.policies| && KeyOf(a.policies[i]) == m {
      MembersAfter(a, s, |a.policies|, i);
      forall j | 0 <= j < |a.policies| && KeyOf(a.policies[j]) == m
        ensures m !in Enforced(a, s).members <==> RowRemoves(a, s, j)
      {
        MembersAfter(a, s, |a.policies|, j);
      }
    } else {
      OtherMembersKept(a, s, |a.policies|, m);
    }
  }

  /** A served user leaves the runtime at a poll if and only if its own quota row blocks it, or a row of
      the user policies bars it and every quota row of every user is clean. */
  lemma PollRemovesExactlyWhen(cfg: Agent.Config, n: Agent.Node, r: Poll, m: Member)
    requires UniqueKeys(n.agent.policies) && m in n.agent.members
    ensures m !in Agent.CollectStep(cfg, n, r).0.agent.members <==>
      || QuotaRemoves(cfg, n, r, m)
      || (ExpiryRuns(cfg, n, r) && !r.listUsers &&
          ExpiryRemoves(n.agent.users, r.now, r.expiry, |n.agent.users|, m))
  {
    hide UniqueKeys, EnforceRows, RowClean, RowRemoves, ExpiryRemoves, ExpireRows;
    if PassRuns(n, r) {
      var s := Agent.PollSetting(cfg, n, r);
      PassRemoves(n.agent, s, m);
      NilMeansEveryRowClean(n.agent, s, |n.agent.policies|);
      ExpireRowsRemoves(n.agent.users, Enforced(n.agent, s).members, r.now, r.expiry, |n.agent.users|, m);
    }
  }

  // ---------------------------------------------------------------------------------------------
  // A row that stays stuck

  /** The email of row i is not blocked and not in the runtime on any inbound it has a row for. */
  ghost predicate Stuck(a: Quota.Agent, i: nat) {
    && i < |a.policies| && !Blocked(a.states, a.policies[i].email)
    && forall j :: 0 <= j < |a.policies| && a.policies[j].email == a.policies[i].email ==>
      KeyOf(a.policies[j]) !in a.members
  }

  /** Such a row fails in a pass exactly when it is over its quota: there is nothing to remove. */
  lemma StuckIsCleanExactlyWhen(a: Quota.Agent, s: Setting, i: nat)
    requires Stuck(a, i)
    ensures RowClean(a, s, i) <==> !OverQuota(a.policies[i], s.usage(a.policies[i].email), s.default)
  {
  }

  /** No pass gets it unstuck, whatever the usage and whichever calls fail. */
  lemma PassLeavesStuck(a: Quota.Agent, s: Setting, i: nat)
    requires s.default > 0 && UniqueKeys(a.policies) && Stuck(a, i)
    ensures Stuck(Enforced(a, s), i)
  {
    hide UniqueKeys, EnforceRows;
    var e := a.policies[i].email;
    BlockedAfter(a, s, |a.policies|, e);
    forall j | 0 <= j < |a.policies| && a.policies[j].email == e ensures KeyOf(a.policies[j]) !in Enforced(a, s).members
    {
      MembersAfter(a, s, |a.policies|, j);
    }
  }

  lemma PollLeavesStuck(cfg: Agent.Config, n: Agent.Node, r: Poll, i: nat)
    requires UniqueKeys(n.agent.policies) && Stuck(n.agent, i)
    ensures var after := Agent.CollectStep(cfg, n, r).0.agent;
      Stuck(after, i) && after.policies == n.agent.policies && after.users == n.agent.users
  {
    hide UniqueKeys, EnforceRows, ExpireRows;
    if !r.api {
      var n1 := Agent.AfterCounting(n, r);
      PassLeavesStuck(n1.agent, Agent.PollSetting(cfg, n, r), i);
      var n2 := Agent.EnforceStep(cfg, n1, r.now, r.list, r.quota).0;
      assert Stuck(n2.agent, i);
      forall j | 0 <= j < |n.agent.policies| && n.agent.policies[j].email == n.agent.policies[i].email
        ensures KeyOf(n.agent.policies[j]) !in Agent.ExpireStep(n2, r.now, r.listUsers, r.expiry).0.agent.members
      {
        ExpireRowsRemoves(n2.agent.users, n2.agent.members, r.now, r.expiry, |n2.agent.users|,
          KeyOf(n.agent.policies[j]));
      }
    }
  }

  /** At this poll the stuck row is over its quota. */
  ghost predicate OverAt(cfg: Agent.Config, n: Agent.Node, r: Agent.Request, i: nat) {
    && r.Collect? && i < |n.agent.policies|
    && OverQuota(n.agent.policies[i], Agent.PollSetting(cfg, n, r).usage(n.agent.policies[i].email),
      DefaultQuota(cfg.quota))
  }

  lemma StuckStopsPoll(cfg: Agent.Config, n: Agent.Node, r: Poll, i: nat)
    requires UniqueKeys(n.agent.policies) && Stuck(n.agent, i) && OverAt(cfg, n, r, i)
    ensures Agent.CollectStep(cfg, n, r).1 == Agent.Failed && !ExpiryRuns(cfg, n, r)
  {
    hide UniqueKeys, EnforceRows, ExpireRows, RowClean, Stuck;
    StuckIsCleanExactlyWhen(n.agent, Agent.PollSetting(cfg, n, r), i);
    NilMeansEveryRowClean(n.agent, Agent.PollSetting(cfg, n, r), |n.agent.policies|);
  }

  ghost predicate OverThroughout(cfg: Agent.Config, n: Agent.Node, rs: seq<Agent.Request>, i: nat) {
    forall k :: 0 <= k < |rs| ==> OverAt(cfg, Agent.ServeAll(cfg, n, rs[..k]), rs[k], i)
  }

  lemma {:induction false} PollsLeaveStuck(cfg: Agent.Config, n: Agent.Node, rs: seq<Agent.Request>, i: nat, k: nat)
    requires UniqueKeys(n.agent.policies) && Stuck(n.agent, i) && k <= |rs|
    requires forall j :: 0 <= j < |rs| ==> rs[j].Collect?
    ensures var after := Agent.ServeAll(cfg, n, rs[..k]).agent;
      Stuck(after, i) && after.policies == n.agent.policies && after.users == n.agent.users
  {
    hide UniqueKeys, Stuck, Agent.CollectStep;
    if k > 0 {
      PollsLeaveStuck(cfg, n, rs, i, k - 1);
      Agent.ServeNext(cfg, n, rs, k - 1);
      PollLeavesStuck(cfg, Agent.ServeAll(cfg, n, rs[..k - 1]), rs[k - 1], i);
    }
  }

  /** For as long as the stuck row is over its quota every poll fails and none enforces expiry. */
  lemma StuckStopsPolls(cfg: Agent.Config, n: Agent.Node, rs: seq<Agent.Request>, i: nat, k: nat)
    requires UniqueKeys(n.agent.policies) && Stuck(n.agent, i) && OverThroughout(cfg, n, rs, i) && k < |rs|
    ensures rs[k].Collect?
    ensures var before := Agent.ServeAll(cfg, n, rs[..k]);
      Agent.Serve(cfg, before, rs[k]).1 == Agent.Failed && !ExpiryRuns(cfg, before, rs[k])
  {
    hide UniqueKeys, Stuck, Agent.CollectStep, ExpiryRuns;
    forall j | 0 <= j < |rs| ensures rs[j].Collect? {
      assert OverAt(cfg, Agent.ServeAll(cfg, n, rs[..j]), rs[j], i);
    }
    PollsLeaveStuck(cfg, n, rs, i, k);
    assert OverAt(cfg, Agent.ServeAll(cfg, n, rs[..k]), rs[k], i);
    StuckStopsPoll(cfg, Agent.ServeAll(cfg, n, rs[..k]), rs[k], i);
  }

  ghost predicate ServedAt(cfg: Agent.Config, n: Agent.Node, rs: seq<Agent.Request>, m: Member, k: nat)
    requires k <= |rs|
  {
    m in Agent.ServeAll(cfg, n, rs[..k]).agent.members
  }

  ghost predicate QuotaRemovesAt(cfg: Agent.Config, n: Agent.Node, rs: seq<Agent.Request>, m: Member, k: nat)
    requires k < |rs| && rs[k].Collect?
  {
    QuotaRemoves(cfg, Agent.ServeAll(cfg, n, rs[..k]), rs[k], m)
  }

  /** One such poll takes a member out exactly when the member's own quota row does. */
  lemma PollServesExactlyWhen(cfg: Agent.Config, n: Agent.Node, r: Poll, i: nat, m: Member)
    requires UniqueKeys(n.agent.policies) && Stuck(n.agent, i) && OverAt(cfg, n, r, i) && m in n.agent.members
    ensures m in Agent.Serve(cfg, n, r).0.agent.members <==> !QuotaRemoves(cfg, n, r, m)
  {
    hide UniqueKeys, Stuck, Agent.CollectStep, OverAt, ExpiryRuns, QuotaRemoves, ExpiryRemoves;
    StuckStopsPoll(cfg, n, r, i);
    PollRemovesExactlyWhen(cfg, n, r, m);
  }

  lemma StuckPollServes(cfg: Agent.Config, n: Agent.Node, rs: seq<Agent.Request>, i: nat, m: Member, k: nat)
    requires UniqueKeys(n.agent.policies) && Stuck(n.agent, i) && OverThroughout(cfg, n, rs, i)
    requires k < |rs| && ServedAt(cfg, n, rs, m, k)
    ensures rs[k].Collect?
    ensures ServedAt(cfg, n, rs, m, k + 1) <==> !QuotaRemovesAt(cfg, n, rs, m, k)
  {
    hide UniqueKeys, Stuck, Agent.Serve, Agent.ServeAll, QuotaRemoves, OverQuota, Agent.PollSetting;
    assert forall j :: 0 <= j < |rs| ==> OverAt(cfg, Agent.ServeAll(cfg, n, rs[..j]), rs[j], i);
    PollsLeaveStuck(cfg, n, rs, i, k);
    Agent.ServeNext(cfg, n, rs, k);
    PollServesExactlyWhen(cfg, Agent.ServeAll(cfg, n, rs[..k]), rs[k], i, m);
  }

  lemma {:induction false} StillServed(cfg: Agent.Config, n: Agent.Node, rs: seq<Agent.Request>, i: nat, m: Member,
      k: nat)
    requires UniqueKeys(n.agent.policies) && Stuck(n.agent, i) && OverThroughout(cfg, n, rs, i)
    requires k <= |rs| && m in n.agent.members
    requires forall j :: 0 <= j < k ==> rs[j].Collect? && !QuotaRemovesAt(cfg, n, rs, m, j)
    ensures ServedAt(cfg, n, rs, m, k)
  {
    hide UniqueKeys, Stuck, OverThroughout, QuotaRemovesAt;
    if k > 0 {
      StillServed(cfg, n, rs, i, m, k - 1);
      StuckPollServes(cfg, n, rs, i, m, k - 1);
    }
  }

  /** One stuck row over its quota switches expiry off for everybody: over any run of polls a member
      stays served throughout if and only if no poll blocks its own quota row, whatever the user
      policies say. */
  lemma StuckRowStarvesExpiry(cfg: Agent.Config, n: Agent.Node, rs: seq<Agent.Request>, i: nat, m: Member)
    requires UniqueKeys(n.agent.policies) && Stuck(n.agent, i) && OverThroughout(cfg, n, rs, i)
    requires m in n.agent.members
    ensures forall k :: 0 <= k < |rs| ==> rs[k].Collect?
    ensures (forall k :: 0 <= k <= |rs| ==> ServedAt(cfg, n, rs, m, k)) <==>
            (forall k :: 0 <= k < |rs| ==> !QuotaRemovesAt(cfg, n, rs, m, k))
  {
    hide UniqueKeys, Stuck, ServedAt, QuotaRemovesAt;
    forall k | 0 <= k < |rs| ensures rs[k].Collect? {
      assert OverAt(cfg, Agent.ServeAll(cfg, n, rs[..k]), rs[k], i);
    }
    if forall k :: 0 <= k <= |rs| ==> ServedAt(cfg, n, rs, m, k) {
      forall k | 0 <= k < |rs| ensures !QuotaRemovesAt(cfg, n, rs, m, k) {
        assert ServedAt(cfg, n, rs, m, k) && ServedAt(cfg, n, rs, m, k + 1);
        StuckPollServes(cfg, n, rs, i, m, k);
      }
    }
    if forall k :: 0 <= k < |rs| ==> !QuotaRemovesAt(cfg, n, rs, m, k) {
      forall k | 0 <= k <= |rs| ensures ServedAt(cfg, n, rs, m, k) {
        StillServed(cfg, n, rs, i, m, k);
      }
    }
  }

  // ---------------------------------------------------------------------------------------------
  // One such run

  const U := Restarts.ROW
  const V := QuotaPolicy("v", "id", DEFAULT_TAG, false, None)
  const USERS := [UserPolicy("u", "u", "id", true, Some(40), DEFAULT_TAG),
                  UserPolicy("v", "v", "id", true, Some(60), DEFAULT_TAG)]
  const FRESH := Agent.Node(Quota.Agent([], map[], [], {}), Traffic.NEW_LEDGER)

  function Add(email: Email): Agent.Request {
    Agent.RuntimeAdd(email, "id", DEFAULT_TAG, 0, Agent.AddFaults(false, false, false, false, false))
  }

  /** The operator syncs the rows of two users and adds both; then the first poll comes, after the first
      of them has expired. */
  const SYNC := Agent.QuotaSync([U, V], 0, true, false, _ => RowFaults(false, false))
  const USER_SYNC := Agent.UserSync(USERS, 0, true, false, _ => false)
  const START := [SYNC, USER_SYNC, Add("u"), Add("v"), Restarts.Poll([], 50)]

  /** Five bytes of the first user's last connection are counted by the second one. */
  const SECOND := Restarts.Poll([Counters.Reading("u", 5, 0)], 100)

  lemma RowsAreStored()
    ensures Agent.NormalizePolicies([U, V]) == [U, V] && UniqueKeys([U, V])
    ensures Agent.NormalizeUsers(USERS) == USERS && Agent.UniqueUserKeys(USERS)
    ensures Complete(U) && Complete(V) && !Blank(DEFAULT_TAG) && Trim(DEFAULT_TAG) == DEFAULT_TAG
    ensures Trim("u") == "u" && Trim("v") == "v" && Trim("id") == "id"
  {
    assert DEFAULT_TAG[0] == 'v' && DEFAULT_TAG[|DEFAULT_TAG| - 1] == 'y';
    TrimSolid(DEFAULT_TAG);
    TrimSolid("u");
    TrimSolid("v");
    TrimSolid("id");
    assert Agent.NormalizePolicy(U) == U && Agent.NormalizePolicy(V) == V;
    assert Agent.NormalizeUser(USERS[0]) == USERS[0] && Agent.NormalizeUser(USERS[1]) == USERS[1];
  }

  /** Before any byte is counted a pass keeps both rows. */
  lemma NothingUsed(members: set<Member>, users: seq<UserPolicy>, now: int, faults: nat -> RowFaults)
    ensures var a := Quota.Agent([U, V], map[], users, members);
      var s := Agent.SettingAt(Restarts.USUAL, Traffic.NEW_LEDGER, now, faults);
      Enforced(a, s) == a && Quota.Enforce(a, s).err.None?
  {
    hide Traffic.Usage, EnforceRow, EnforceRows;
    var a := Quota.Agent([U, V], map[], users, members);
    var s := Agent.SettingAt(Restarts.USUAL, Traffic.NEW_LEDGER, now, faults);
    Traffic.IdleUsageIsZero([], "u", Agent.WindowStart(Restarts.USUAL, now), now);
    assert Traffic.Replay(Traffic.NEW_LEDGER, []) == Traffic.NEW_LEDGER;
    assert s.usage("u") == 0;
    RowsAreStored();
    assert RowAction(a, s, 0) == Keep && RowAction(a, s, 1) == Keep;
    OverQuotaBlockedIsKept(a, s, 2);
    NilMeansEveryRowClean(a, s, 2);
  }

  function At(users: seq<UserPolicy>, members: set<Member>): Agent.Node {
    Agent.Node(Quota.Agent([U, V], map[], users, members), Traffic.NEW_LEDGER)
  }

  lemma Synced()
    ensures Agent.Serve(Restarts.USUAL, FRESH, SYNC).0 == At([], {})
  {
    hide Enforced, Quota.Enforce, Agent.SettingAt, Agent.NormalizePolicies, UniqueKeys;
    RowsAreStored();
    assert Agent.WithPolicies(FRESH.agent, [U, V]) == At([], {}).agent;
    NothingUsed({}, [], 0, SYNC.quota);
  }

  lemma UsersSynced()
    ensures Agent.Serve(Restarts.USUAL, At([], {}), USER_SYNC).0 == At(USERS, {})
  {
    hide Agent.NormalizeUsers, Agent.UniqueUserKeys;
    RowsAreStored();
    assert ExpireRows(USERS, {}, 0, USER_SYNC.expiry, 1) == ({}, true);
  }

  lemma BothAdded()
    ensures Agent.Serve(Restarts.USUAL, At(USERS, {}), Add("u")).0 == At(USERS, {KeyOf(U)})
    ensures Agent.Serve(Restarts.USUAL, At(USERS, {KeyOf(U)}), Add("v")).0 == At(USERS, {KeyOf(U), KeyOf(V)})
  {
    hide Trim;
    RowsAreStored();
    assert Agent.FirstUser(USERS, "u") == Some(USERS[0]);
    assert USERS[1..][0] == USERS[1];
    assert Agent.FirstUser(USERS, "v") == Some(USERS[1]);
    assert {} + {KeyOf(U)} == {KeyOf(U)} && {KeyOf(U)} + {KeyOf(V)} == {KeyOf(U), KeyOf(V)};
  }

  /** The first poll returns nil: it takes the expired user out and leaves the other one. */
  lemma FirstPoll()
    ensures Agent.Serve(Restarts.USUAL, At(USERS, {KeyOf(U), KeyOf(V)}), START[4]) ==
            (At(USERS, {KeyOf(V)}), Agent.Done)
  {
    hide Enforced, Quota.Enforce, Agent.SettingAt, Trim;
    var both := {KeyOf(U), KeyOf(V)};
    var r := START[4];
    RowsAreStored();
    NothingUsed(both, USERS, 50, r.quota);
    assert Counters.CollectedAll(Traffic.NEW_LEDGER, [], 50, r.counters) == (Traffic.NEW_LEDGER, true);
    assert ExpirySucceeds(USERS[0], false) && UserKey(USERS[0]) == KeyOf(U);
    assert both - {KeyOf(U)} == {KeyOf(V)};
    assert ExpireRows(USERS, both, 50, r.expiry, 1) == ({KeyOf(V)}, true);
  }

  lemma Appends(n: Agent.Node, rs: seq<Agent.Request>, r: Agent.Request)
    ensures Agent.ServeAll(Restarts.USUAL, n, rs + [r]) == Agent.Serve(Restarts.USUAL,
      Agent.ServeAll(Restarts.USUAL, n, rs), r).0
  {
    hide Agent.Serve;
    assert (rs + [r])[..|rs|] == rs;
  }

  lemma Started()
    ensures Agent.ServeAll(Restarts.USUAL, FRESH, START) == At(USERS, {KeyOf(V)})
    ensures Agent.Serve(Restarts.USUAL, Agent.ServeAll(Restarts.USUAL, FRESH, START[..4]), START[4]).1 == Agent.Done
  {
    hide Agent.Serve;
    var add := Add("u");
    Synced();
    UsersSynced();
    BothAdded();
    FirstPoll();
    Appends(FRESH, [], SYNC);
    Appends(FRESH, [SYNC], USER_SYNC);
    Appends(FRESH, [SYNC, USER_SYNC], Add("u"));
    Appends(FRESH, [SYNC, USER_SYNC, Add("u")], Add("v"));
    Appends(FRESH, START[..4], START[4]);
    assert [] + [SYNC] == [SYNC] && [SYNC] + [USER_SYNC] == [SYNC, USER_SYNC] &&
      [SYNC, USER_SYNC] + [Add("u")] == [SYNC, USER_SYNC, Add("u")] &&
      [SYNC, USER_SYNC, Add("u")] + [Add("v")] == START[..4] && START[..4] + [START[4]] == START;
  }

  function Later(times: seq<int>): seq<Agent.Request> {
    [SECOND] + seq(|times|, k requires 0 <= k < |times| => Restarts.Poll([], times[k]))
  }

  predicate WithinWindow(times: seq<int>) {
    forall k :: 0 <= k < |times| ==> 100 <= times[k] < DEFAULT_WINDOW
  }

  predicate FiveBytesStored(ledger: Traffic.Ledger) {
    Counters.SameAggregates(ledger, Traffic.Replay(Traffic.NEW_LEDGER, [Restarts.FIVE_BYTES]))
  }

  lemma {:induction false} LedgerAfter(times: seq<int>, k: nat)
    requires k <= |times|
    ensures FiveBytesStored(Agent.ServeAll(Restarts.USUAL, At(USERS, {KeyOf(V)}), Later(times)[..k + 1]).ledger)
  {
    hide Agent.Serve, Counters.SameAggregates, Counters.Consumed;
    var n := At(USERS, {KeyOf(V)});
    Agent.ServeNext(Restarts.USUAL, n, Later(times), k);
    var before := Agent.ServeAll(Restarts.USUAL, n, Later(times)[..k]);
    Agent.ServeChangesLedger(Restarts.USUAL, before, Later(times)[k]);
    if k == 0 {
      Restarts.FiveBytesAreCounted();
    } else {
      LedgerAfter(times, k - 1);
      assert Later(times)[k] == Restarts.Poll([], times[k - 1]);
    }
  }

  /** Its usage has reached the quota of one byte, and stays there for the whole window. */
  lemma StaysOver(times: seq<int>)
    requires WithinWindow(times)
    ensures Stuck(At(USERS, {KeyOf(V)}).agent, 0)
    ensures OverThroughout(Restarts.USUAL, At(USERS, {KeyOf(V)}), Later(times), 0)
  {
    hide Agent.Serve, Agent.ServeAll, Counters.SameAggregates, Traffic.Usage, Traffic.Replay, Trim;
    var n, rs := At(USERS, {KeyOf(V)}), Later(times);
    RowsAreStored();
    forall k | 0 <= k < |rs| ensures OverAt(Restarts.USUAL, Agent.ServeAll(Restarts.USUAL, n, rs[..k]), rs[k], 0) {
      PollsLeaveStuck(Restarts.USUAL, n, rs, 0, k);
      LedgerAfter(times, k);
      Agent.ServeNext(Restarts.USUAL, n, rs, k);
      var before := Agent.ServeAll(Restarts.USUAL, n, rs[..k]);
      Agent.ServeChangesLedger(Restarts.USUAL, before, rs[k]);
      Restarts.FiveBytesUsed(Agent.AfterCounting(before, rs[k]).ledger, rs[k].now);
    }
  }

  /** The other row's quota is not enabled, so it is never blocked. */
  lemma OtherRowStays(times: seq<int>, j: nat)
    requires WithinWindow(times) && j < |Later(times)|
    ensures Later(times)[j].Collect?
    ensures !QuotaRemovesAt(Restarts.USUAL, At(USERS, {KeyOf(V)}), Later(times), KeyOf(V), j)
  {
    hide Agent.Serve, Agent.PollSetting;
    StaysOver(times);
    RowsAreStored();
    PollsLeaveStuck(Restarts.USUAL, At(USERS, {KeyOf(V)}), Later(times), 0, j);
  }

  lemma OtherUserStays(times: seq<int>, k: nat)
    requires WithinWindow(times) && k < |Later(times)|
    ensures var n, rs := At(USERS, {KeyOf(V)}), Later(times);
      && Agent.Serve(Restarts.USUAL, Agent.ServeAll(Restarts.USUAL, n, rs[..k]), rs[k]).1 == Agent.Failed
      && KeyOf(V) in Agent.ServeAll(Restarts.USUAL, n, rs[..k + 1]).agent.members
      && Agent.ServeAll(Restarts.USUAL, n, rs[..k + 1]).agent.users == USERS
  {
    hide Agent.Serve, Agent.ServeAll, OverThroughout, Stuck, QuotaRemovesAt, Later;
    var n, rs := At(USERS, {KeyOf(V)}), Later(times);
    RowsAreStored();
    StaysOver(times);
    StuckStopsPolls(Restarts.USUAL, n, rs, 0, k);
    forall j | 0 <= j < |rs| ensures rs[j].Collect? && !QuotaRemovesAt(Restarts.USUAL, n, rs, KeyOf(V), j) {
      OtherRowStays(times, j);
    }
    PollsLeaveStuck(Restarts.USUAL, n, rs, 0, k + 1);
    StillServed(Restarts.USUAL, n, rs, 0, KeyOf(V), k + 1);
  }

  /** From empty tables, with a store and a runtime that work, one expired user whose last bytes are counted
      after its removal makes every poll of the quota window fail, and the other user is served through
      all of them long after its own expiry. */
  lemma ExpiredUserStaysServed(times: seq<int>, k: nat)
    requires WithinWindow(times) && k < |Later(times)|
    ensures Agent.Serve(Restarts.USUAL, Agent.ServeAll(Restarts.USUAL, FRESH, START[..4]), START[4]).1 == Agent.Done
    ensures Later(times)[k].Collect? && Barred(USERS, KeyOf(V), Later(times)[k].now)
    ensures var n, rs := Agent.ServeAll(Restarts.USUAL, FRESH, START), Later(times);
      && Agent.Serve(Restarts.USUAL, Agent.ServeAll(Restarts.USUAL, n, rs[..k]), rs[k]).1 == Agent.Failed
      && KeyOf(V) in Agent.ServeAll(Restarts.USUAL, n, rs[..k + 1]).agent.members
      && Agent.ServeAll(Restarts.USUAL, n, rs[..k + 1]).agent.users == USERS
  {
    hide Agent.Serve, Agent.ServeAll, OverThroughout, Stuck;
    Started();
    OtherUserStays(times, k);
    assert UserKey(USERS[1]) == KeyOf(V);
  }
}
