/** The agent's request handlers and poll step as transitions over its whole state, and what every
    run of them keeps (cmd/ovpn-agent/http_routes.go, internal/stats/collector.go). */
module Agent {
  import opened Rows
  import opened Text
  import opened Quota
  import Traffic
  import Counters

  /** Enforcement state together with the traffic tables. */
  datatype Node = Node(agent: Quota.Agent, ledger: Traffic.Ledger)

  /** The enforcer's configured window and default quota; non-positive values mean the defaults. */
  datatype Config = Config(window: int, quota: int)

  function WindowOf(cfg: Config): (w: int)
    ensures w > 0
  {
    if cfg.window <= 0 then DEFAULT_WINDOW else cfg.window
  }

  function WindowStart(cfg: Config, now: int): int {
    now - WindowOf(cfg)
  }

  ghost function UsageSince(ledger: Traffic.Ledger, start: int, now: int): Email -> int {
    e => Traffic.Usage(ledger.daily, e, start, now)
  }

  ghost function SettingAt(cfg: Config, ledger: Traffic.Ledger, now: int, faults: nat -> RowFaults): (s: Setting)
    ensures s.default > 0
  {
    Setting(DefaultQuota(cfg.quota), UsageSince(ledger, WindowStart(cfg, now), now), now, faults)
  }

  datatype Reply = Done | BadRequest | Conflict | Failed

  datatype ResetFaults = ResetFaults(store: bool, lookup: bool, runtime: nat -> bool)
  datatype AddFaults = AddFaults(state: bool, policy: bool, store: bool, user: bool, runtime: bool)

  /** A request to the agent, with its clock and which of the calls it makes fail. */
  datatype Request =
    | QuotaSync(rows: seq<QuotaPolicy>, now: int, commit: bool, list: bool, quota: nat -> RowFaults)
    | UserSync(users: seq<UserPolicy>, now: int, commit: bool, list: bool, expiry: nat -> bool)
    | QuotaReset(email: string, now: int, reset: ResetFaults)
    | RuntimeAdd(email: string, uuid: string, tag: string, now: int, add: AddFaults)
    | RuntimeRemove(email: string, tag: string, fault: bool)
    | Collect(readings: seq<Counters.Reading>, now: int, api: bool, counters: (nat, Traffic.Dir) -> Counters.Faults,
              meta: bool, list: bool, quota: nat -> RowFaults, listUsers: bool, expiry: nat -> bool)

  // ---------------------------------------------------------------------------------------------
  // Store operations

  function NormalizePolicy(p: QuotaPolicy): QuotaPolicy {
    p.(email := Trim(p.email), uuid := Trim(p.uuid), tag := if Blank(p.tag) then DEFAULT_TAG else Trim(p.tag))
  }

  function NormalizePolicies(rows: seq<QuotaPolicy>): seq<QuotaPolicy> {
    seq(|rows|, i requires 0 <= i < |rows| => NormalizePolicy(rows[i]))
  }

  function NormalizeUser(u: UserPolicy): UserPolicy {
    u.(email := Trim(u.email), username := Trim(u.username), uuid := Trim(u.uuid), tag := Trim(u.tag))
  }

  function NormalizeUsers(users: seq<UserPolicy>): seq<UserPolicy> {
    seq(|users|, i requires 0 <= i < |users| => NormalizeUser(users[i]))
  }

  ghost predicate UniqueUserKeys(users: seq<UserPolicy>) {
    forall i, j :: 0 <= i < j < |users| ==> UserKey(users[i]) != UserKey(users[j])
  }

  /** States of emails that no longer have a policy row are pruned. */
  function Pruned(states: map<Email, QuotaState>, rows: seq<QuotaPolicy>): map<Email, QuotaState> {
    map e | e in states && HasPolicy(rows, e) :: states[e]
  }

  function WithPolicies(a: Quota.Agent, rows: seq<QuotaPolicy>): Quota.Agent {
    a.(policies := rows, states := Pruned(a.states, rows))
  }

  function FirstPolicy(rows: seq<QuotaPolicy>, e: Email): Option<QuotaPolicy> {
    if rows == [] then None else if rows[0].email == e then Some(rows[0]) else FirstPolicy(rows[1..], e)
  }

  function FirstUser(rows: seq<UserPolicy>, e: Email): Option<UserPolicy> {
    if rows == [] then None else if rows[0].email == e then Some(rows[0]) else FirstUser(rows[1..], e)
  }

  function GatewayTag(tag: Tag): Tag {
    if Blank(tag) then DEFAULT_TAG else tag
  }

  // ---------------------------------------------------------------------------------------------
  // Handlers

  ghost function EnforceStep(cfg: Config, n: Node, now: int, list: bool, faults: nat -> RowFaults): (Node, bool) {
    if list then (n, false)
    else
      var s := SettingAt(cfg, n.ledger, now, faults);
      (n.(agent := Enforced(n.agent, s)), Quota.Enforce(n.agent, s).err.None?)
  }

  ghost function ExpireStep(n: Node, now: int, list: bool, faults: nat -> bool): (Node, bool) {
    if list then (n, false)
    else
      var (a, ok) := Expire(n.agent, now, faults);
      (n.(agent := a), ok)
  }

  function ReplyOf(ok: bool): Reply {
    if ok then Done else Failed
  }

  ghost function QuotaSyncStep(cfg: Config, n: Node, r: Request): (Node, Reply)
    requires r.QuotaSync?
  {
    if !r.commit || !UniqueKeys(NormalizePolicies(r.rows)) then (n, Failed)
    else
      var (after, ok) := EnforceStep(cfg, n.(agent := WithPolicies(n.agent, NormalizePolicies(r.rows))),
        r.now, r.list, r.quota);
      (after, ReplyOf(ok))
  }

  ghost function UserSyncStep(n: Node, r: Request): (Node, Reply)
    requires r.UserSync?
  {
    if !r.commit || !UniqueUserKeys(NormalizeUsers(r.users)) then (n, Failed)
    else
      var (after, ok) := ExpireStep(n.(agent := n.agent.(users := NormalizeUsers(r.users))), r.now, r.list, r.expiry);
      (after, ReplyOf(ok))
  }

  /** The re-add loop of /quota/reset stops at the first runtime error. */
  function ReaddRows(rows: seq<QuotaPolicy>, members: set<Member>, e: Email, faults: nat -> bool,
      n: nat): (set<Member>, bool)
    requires n <= |rows|
  {
    if n == 0 then (members, true)
    else
      var (m, ok) := ReaddRows(rows, members, e, faults, n - 1);
      var p := rows[n - 1];
      if !ok || p.email != e || Blank(p.uuid) then (m, ok)
      else if faults(n - 1) then (m, false)
      else (m + {Member(GatewayTag(p.tag), e)}, true)
  }

  function QuotaResetStep(a: Quota.Agent, r: Request): (Quota.Agent, Reply)
    requires r.QuotaReset?
  {
    var e := Trim(r.email);
    if e == "" then (a, BadRequest)
    else if r.reset.store then (a, Failed)
    else
      var cleared := a.(states := a.states[e := QuotaState(false, None)]);
      if r.reset.lookup then (cleared, Failed)
      else
        var u := FirstUser(a.users, e);
        if u.None? || !Effective(u.value.enabled, u.value.expiry, r.now) then (cleared, Done)
        else
          var (m, ok) := ReaddRows(a.policies, a.members, e, r.reset.runtime, |a.policies|);
          (cleared.(members := m), ReplyOf(ok))
  }

  function RuntimeAddStep(a: Quota.Agent, r: Request): (Quota.Agent, Reply)
    requires r.RuntimeAdd?
  {
    var e := Trim(r.email);
    if e == "" || Trim(r.uuid) == "" then (a, BadRequest)
    else if r.add.state then (a, Failed)
    else if Blocked(a.states, e) && r.add.policy then (a, Failed)
    else
      var p := FirstPolicy(a.policies, e);
      if Blocked(a.states, e) && p.Some? && p.value.enabled then (a, Conflict)
      else if Blocked(a.states, e) && r.add.store then (a, Failed)
      else
        var b := if Blocked(a.states, e) then a.(states := a.states[e := QuotaState(false, None)]) else a;
        if r.add.user then (b, Failed)
        else
          var u := FirstUser(a.users, e);
          if u.Some? && !Effective(u.value.enabled, u.value.expiry, r.now) then (b, Conflict)
          else if r.add.runtime then (b, Failed)
          else (b.(members := b.members + {Member(GatewayTag(Trim(r.tag)), e)}), Done)
  }

  function RuntimeRemoveStep(a: Quota.Agent, r: Request): (Quota.Agent, Reply)
    requires r.RuntimeRemove?
  {
    var e := Trim(r.email);
    if e == "" then (a, BadRequest)
    else if r.fault then (a, Failed)
    else (a.(members := a.members - {Member(GatewayTag(Trim(r.tag)), e)}), Done)
  }

  /** CollectOnce: counters, then quota, then expiry, stopping at the first error. */
  ghost function CollectStep(cfg: Config, n: Node, r: Request): (Node, Reply)
    requires r.Collect?
  {
    if r.api then (n, Failed)
    else
      var (ledger, counted) := Counters.CollectedAll(n.ledger, r.readings, r.now, r.counters);
      var n1 := n.(ledger := ledger);
      if !counted || r.meta then (n1, Failed)
      else
        var (n2, enforced) := EnforceStep(cfg, n1, r.now, r.list, r.quota);
        if !enforced then (n2, Failed)
        else
          var (n3, expired) := ExpireStep(n2, r.now, r.listUsers, r.expiry);
          (n3, ReplyOf(expired))
  }

  ghost function Serve(cfg: Config, n: Node, r: Request): (Node, Reply) {
    match r
    case QuotaSync(_, _, _, _, _) => QuotaSyncStep(cfg, n, r)
    case UserSync(_, _, _, _, _) => UserSyncStep(n, r)
    case QuotaReset(_, _, _) => var (a, reply) := QuotaResetStep(n.agent, r); (n.(agent := a), reply)
    case RuntimeAdd(_, _, _, _, _) => var (a, reply) := RuntimeAddStep(n.agent, r); (n.(agent := a), reply)
    case RuntimeRemove(_, _, _) => var (a, reply) := RuntimeRemoveStep(n.agent, r); (n.(agent := a), reply)
    case Collect(_, _, _, _, _, _, _, _, _) => CollectStep(cfg, n, r)
  }

  ghost function ServeAll(cfg: Config, n: Node, rs: seq<Request>): Node {
    if rs == [] then n else Serve(cfg, ServeAll(cfg, n, rs[..|rs| - 1]), rs[|rs| - 1]).0
  }

  // ---------------------------------------------------------------------------------------------
  // Safety over runs

  /** Every email with a policy row has one on each inbound of the server, and on no other. */
  ghost predicate Covers(rows: seq<QuotaPolicy>, tags: set<Tag>) {
    && (forall i :: 0 <= i < |rows| ==> rows[i].tag in tags)
    && (forall i, t :: 0 <= i < |rows| && t in tags ==> HasKey(rows, Member(t, rows[i].email)))
  }

  ghost predicate HasKey(rows: seq<QuotaPolicy>, m: Member) {
    exists j :: 0 <= j < |rows| && KeyOf(rows[j]) == m
  }

  ghost predicate GoodPolicies(rows: seq<QuotaPolicy>, tags: set<Tag>) {
    UniqueKeys(rows) && Uniform(rows) && NoBlankKeys(rows) && Covers(rows, tags)
  }

  ghost predicate Guarded(a: Quota.Agent, tags: set<Tag>) {
    GoodPolicies(a.policies, tags) && Safe(a)
  }

  ghost predicate FaultsAllowed(tags: set<Tag>, faults: nat -> RowFaults) {
    && (forall i: nat :: !faults(i).store)
    && (|tags| == 1 || forall i: nat :: !faults(i).runtime)
  }

  /** Syncs carry one uniform row per inbound for every email, the enforcer's store writes succeed,
      and on a server with several inbounds its runtime calls fail only with Missing. */
  ghost predicate Admissible(tags: set<Tag>, r: Request) {
    match r
    case QuotaSync(rows, _, _, _, quota) =>
      && FaultsAllowed(tags, quota)
      && (UniqueKeys(NormalizePolicies(rows)) ==> GoodPolicies(NormalizePolicies(rows), tags))
    case Collect(_, _, _, _, _, _, quota, _, _) => FaultsAllowed(tags, quota)
    case _ => true
  }

  lemma OneTagOneInbound(rows: seq<QuotaPolicy>, tags: set<Tag>)
    requires Covers(rows, tags) && |tags| == 1
    ensures OneInbound(rows)
  {
    var t :| t in tags;
    assert |tags - {t}| == 0;
    assert tags == {t} + (tags - {t});
  }

  lemma EnforceStaysGuarded(cfg: Config, n: Node, now: int, list: bool, faults: nat -> RowFaults, tags: set<Tag>)
    requires Guarded(n.agent, tags) && FaultsAllowed(tags, faults)
    ensures Guarded(EnforceStep(cfg, n, now, list, faults).0.agent, tags)
  {
    if !list {
      var s := SettingAt(cfg, n.ledger, now, faults);
      if |tags| == 1 {
        OneTagOneInbound(n.agent.policies, tags);
      }
      forall e ensures !HalfDone(n.agent, s, e) {
        NeverHalfDone(n.agent, s, e);
      }
      PassIsSafeExactlyWhen(n.agent, s);
    }
  }

  /** A state that keeps the policies, whose flags are no more and whose members of flagged emails
      are no more, is as safe. */
  lemma LessIsSafe(a: Quota.Agent, b: Quota.Agent)
    requires Safe(a) && b.policies == a.policies
    requires forall e :: Blocked(b.states, e) ==> Blocked(a.states, e)
    requires forall m :: m in b.members && m !in a.members ==> !Blocked(b.states, m.email)
    ensures Safe(b)
  {
    forall e ensures SafeEmail(b, e) {
      assert SafeEmail(a, e);
      if Blocked(b.states, e) {
        forall i | 0 <= i < |b.policies| && b.policies[i].email == e ensures KeyOf(b.policies[i]) !in b.members {
          assert KeyOf(b.policies[i]).email == e;
        }
      }
    }
  }

  lemma ExpireStaysGuarded(n: Node, now: int, list: bool, faults: nat -> bool, tags: set<Tag>)
    requires Guarded(n.agent, tags)
    ensures Guarded(ExpireStep(n, now, list, faults).0.agent, tags)
  {
    var b := ExpireStep(n, now, list, faults).0.agent;
    forall m | m in b.members ensures m in n.agent.members {
      if !list {
        ExpiryOnlyRemovesBarred(n.agent.users, n.agent.members, now, faults, |n.agent.users|, m);
      }
    }
    LessIsSafe(n.agent, b);
  }

  /** A pruned state never flags an email whose row it has on an inbound it was present on. */
  lemma PrunedEmailIsSafe(a: Quota.Agent, rows: seq<QuotaPolicy>, tags: set<Tag>, e: Email)
    requires Covers(a.policies, tags) && Covers(rows, tags) && SafeEmail(a, e)
    ensures SafeEmail(WithPolicies(a, rows), e)
  {
    if Blocked(Pruned(a.states, rows), e) {
      var k :| 0 <= k < |a.policies| && a.policies[k].email == e;
      forall i | 0 <= i < |rows| && rows[i].email == e ensures KeyOf(rows[i]) !in a.members {
        assert rows[i].tag in tags;
        assert HasKey(a.policies, Member(rows[i].tag, a.policies[k].email));
        var j :| 0 <= j < |a.policies| && KeyOf(a.policies[j]) == Member(rows[i].tag, e);
      }
    }
  }

  lemma PruneStaysSafe(a: Quota.Agent, rows: seq<QuotaPolicy>, tags: set<Tag>)
    requires Guarded(a, tags) && GoodPolicies(rows, tags)
    ensures Guarded(WithPolicies(a, rows), tags)
  {
    forall e ensures SafeEmail(WithPolicies(a, rows), e) {
      PrunedEmailIsSafe(a, rows, tags, e);
    }
  }

  lemma {:induction false} ReaddOnlyAdds(rows: seq<QuotaPolicy>, members: set<Member>, e: Email, faults: nat -> bool,
      n: nat, m: Member)
    requires n <= |rows|
    ensures m in members ==> m in ReaddRows(rows, members, e, faults, n).0
    ensures m in ReaddRows(rows, members, e, faults, n).0 && m !in members ==> m.email == e
  {
    if n > 0 {
      ReaddOnlyAdds(rows, members, e, faults, n - 1, m);
    }
  }

  lemma ResetStaysGuarded(a: Quota.Agent, r: Request, tags: set<Tag>)
    requires Guarded(a, tags) && r.QuotaReset?
    ensures Guarded(QuotaResetStep(a, r).0, tags)
  {
    var b, e := QuotaResetStep(a, r).0, Trim(r.email);
    forall m | m in b.members && m !in a.members ensures !Blocked(b.states, m.email) {
      ReaddOnlyAdds(a.policies, a.members, e, r.reset.runtime, |a.policies|, m);
    }
    LessIsSafe(a, b);
  }

  lemma AddStaysGuarded(a: Quota.Agent, r: Request, tags: set<Tag>)
    requires Guarded(a, tags) && r.RuntimeAdd?
    ensures Guarded(RuntimeAddStep(a, r).0, tags)
  {
    hide GoodPolicies, FirstPolicy, FirstUser, Trim;
    LessIsSafe(a, RuntimeAddStep(a, r).0);
  }

  lemma RemoveStaysGuarded(a: Quota.Agent, r: Request, tags: set<Tag>)
    requires Guarded(a, tags) && r.RuntimeRemove?
    ensures Guarded(RuntimeRemoveStep(a, r).0, tags)
  {
    LessIsSafe(a, RuntimeRemoveStep(a, r).0);
  }

  lemma ServeStaysGuarded(cfg: Config, n: Node, r: Request, tags: set<Tag>)
    requires Guarded(n.agent, tags) && Admissible(tags, r)
    ensures Guarded(Serve(cfg, n, r).0.agent, tags)
  {
    match r
    case QuotaSync(rows, now, commit, list, quota) =>
      if commit && UniqueKeys(NormalizePolicies(rows)) {
        PruneStaysSafe(n.agent, NormalizePolicies(rows), tags);
        EnforceStaysGuarded(cfg, n.(agent := WithPolicies(n.agent, NormalizePolicies(rows))), now, list, quota, tags);
      }
    case UserSync(users, now, commit, list, expiry) =>
      if commit && UniqueUserKeys(NormalizeUsers(users)) {
        var n1 := n.(agent := n.agent.(users := NormalizeUsers(users)));
        LessIsSafe(n.agent, n1.agent);
        ExpireStaysGuarded(n1, now, list, expiry, tags);
      }
    case Collect(readings, now, api, counters, meta, list, quota, listUsers, expiry) =>
      if !api {
        var n1 := n.(ledger := Counters.CollectedAll(n.ledger, readings, now, counters).0);
        EnforceStaysGuarded(cfg, n1, now, list, quota, tags);
        ExpireStaysGuarded(EnforceStep(cfg, n1, now, list, quota).0, now, listUsers, expiry, tags);
      }
    case QuotaReset(_, _, _) => ResetStaysGuarded(n.agent, r, tags);
    case RuntimeAdd(_, _, _, _, _) => AddStaysGuarded(n.agent, r, tags);
    case RuntimeRemove(_, _, _) => RemoveStaysGuarded(n.agent, r, tags);
  }

  /** Over every run of syncs, resets, runtime adds and removes and polls, a blocked email always has
      a policy row and is absent from the runtime on every one of its inbounds. */
  lemma {:induction false} RunStaysSafe(cfg: Config, n: Node, rs: seq<Request>, tags: set<Tag>)
    requires Guarded(n.agent, tags)
    requires forall i :: 0 <= i < |rs| ==> Admissible(tags, rs[i])
    ensures Guarded(ServeAll(cfg, n, rs).agent, tags)
  {
    if rs != [] {
      RunStaysSafe(cfg, n, rs[..|rs| - 1], tags);
      ServeStaysGuarded(cfg, ServeAll(cfg, n, rs[..|rs| - 1]), rs[|rs| - 1], tags);
    }
  }

  // ---------------------------------------------------------------------------------------------
  // The exact condition, whatever fails

  /** The enforcement pass a request runs, if it gets that far. */
  ghost function PassOf(cfg: Config, n: Node, r: Request): (p: Option<(Quota.Agent, Setting)>)
    ensures p.Some? ==> p.value.1.default > 0
  {
    match r
    case QuotaSync(rows, now, commit, list, quota) =>
      if !commit || !UniqueKeys(NormalizePolicies(rows)) || list then None
      else Some((WithPolicies(n.agent, NormalizePolicies(rows)), SettingAt(cfg, n.ledger, now, quota)))
    case Collect(readings, now, api, counters, meta, list, quota, _, _) =>
      var (ledger, counted) := Counters.CollectedAll(n.ledger, readings, now, counters);
      if api || !counted || meta || list then None
      else Some((n.agent, SettingAt(cfg, ledger, now, quota)))
    case _ => None
  }

  ghost predicate LeavesNothingHalfDone(cfg: Config, n: Node, r: Request) {
    var p := PassOf(cfg, n, r);
    p.Some? ==> forall e :: !HalfDone(p.value.0, p.value.1, e)
  }

  /** Syncs carry one uniform row per inbound for every email. */
  ghost predicate GoodSync(tags: set<Tag>, r: Request) {
    r.QuotaSync? && UniqueKeys(NormalizePolicies(r.rows)) ==> GoodPolicies(NormalizePolicies(r.rows), tags)
  }

  /** A pass that leaves an email half done returns an error. */
  lemma HalfDoneIsAnError(a: Quota.Agent, s: Setting, e: Email)
    requires s.default > 0 && UniqueKeys(a.policies) && Uniform(a.policies) && HalfDone(a, s, e)
    ensures Quota.Enforce(a, s).err.Some?
  {
    hide Quota.EnforceRow;
    NilMeansEveryRowClean(a, s, |a.policies|);
    if Blocked(a.states, e) {
      var i :| 0 <= i < |a.policies| && a.policies[i].email == e && RowAdds(a, s, i);
      assert !RowClean(a, s, i);
    } else {
      var j :| 0 <= j < |a.policies| && a.policies[j].email == e && RowRemoves(a, s, j) && !s.faults(j).store;
      SameEmailSameAction(a, s, j);
      var i :| 0 <= i < |a.policies| && a.policies[i].email == e && KeyOf(a.policies[i]) in a.members &&
        !RowRemoves(a, s, i);
      assert !RowClean(a, s, i);
    }
  }

  lemma PassDecidesSafety(a: Quota.Agent, s: Setting, tags: set<Tag>)
    requires s.default > 0 && Guarded(a, tags)
    ensures Safe(Enforced(a, s)) <==> forall e :: !HalfDone(a, s, e)
    ensures Safe(Enforced(a, s)) ==> Guarded(Enforced(a, s), tags)
    ensures !Safe(Enforced(a, s)) ==> Quota.Enforce(a, s).err.Some?
  {
    PassIsSafeExactlyWhen(a, s);
    if e :| HalfDone(a, s, e) {
      HalfDoneIsAnError(a, s, e);
    }
  }

  /** A request leaves a safe agent safe if and only if its pass, if any, leaves no email half done. */
  lemma ServeIsSafeExactlyWhen(cfg: Config, n: Node, r: Request, tags: set<Tag>)
    requires Guarded(n.agent, tags) && GoodSync(tags, r)
    ensures Safe(Serve(cfg, n, r).0.agent) <==> LeavesNothingHalfDone(cfg, n, r)
    ensures LeavesNothingHalfDone(cfg, n, r) ==> Guarded(Serve(cfg, n, r).0.agent, tags)
  {
    hide GoodPolicies, Safe, HalfDone, Enforced, Quota.Enforce, Expire, UniqueKeys, NormalizePolicies, UniqueUserKeys;
    match r
    case QuotaSync(rows, now, commit, list, quota) =>
      if commit && UniqueKeys(NormalizePolicies(rows)) {
        PruneStaysSafe(n.agent, NormalizePolicies(rows), tags);
        PassDecidesSafety(WithPolicies(n.agent, NormalizePolicies(rows)), SettingAt(cfg, n.ledger, now, quota), tags);
      }
    case Collect(readings, now, api, counters, meta, list, quota, listUsers, expiry) =>
      if !api {
        var n1 := n.(ledger := Counters.CollectedAll(n.ledger, readings, now, counters).0);
        PassDecidesSafety(n1.agent, SettingAt(cfg, n1.ledger, now, quota), tags);
        var n2 := EnforceStep(cfg, n1, now, list, quota).0;
        if Guarded(n2.agent, tags) {
          ExpireStaysGuarded(n2, now, listUsers, expiry, tags);
        }
      }
    case UserSync(users, now, commit, list, expiry) => ServeStaysGuarded(cfg, n, r, tags);
    case QuotaReset(_, _, _) => ResetStaysGuarded(n.agent, r, tags);
    case RuntimeAdd(_, _, _, _, _) => AddStaysGuarded(n.agent, r, tags);
    case RuntimeRemove(_, _, _) => RemoveStaysGuarded(n.agent, r, tags);
  }

  ghost predicate SafeAt(cfg: Config, n: Node, rs: seq<Request>, k: nat)
    requires k <= |rs|
  {
    Safe(ServeAll(cfg, n, rs[..k]).agent)
  }

  ghost predicate CleanAt(cfg: Config, n: Node, rs: seq<Request>, k: nat)
    requires k < |rs|
  {
    LeavesNothingHalfDone(cfg, ServeAll(cfg, n, rs[..k]), rs[k])
  }

  lemma ServeNext(cfg: Config, n: Node, rs: seq<Request>, k: nat)
    requires k < |rs|
    ensures ServeAll(cfg, n, rs[..k + 1]) == Serve(cfg, ServeAll(cfg, n, rs[..k]), rs[k]).0
  {
    hide Serve;
    assert rs[..k + 1][..k] == rs[..k];
  }

  lemma {:induction false} CleanPassesStayGuarded(cfg: Config, n: Node, rs: seq<Request>, tags: set<Tag>, k: nat)
    requires Guarded(n.agent, tags) && k <= |rs| && forall i :: 0 <= i < |rs| ==> GoodSync(tags, rs[i])
    requires forall i :: 0 <= i < k ==> CleanAt(cfg, n, rs, i)
    ensures Guarded(ServeAll(cfg, n, rs[..k]).agent, tags)
  {
    hide Guarded, GoodSync, Serve, LeavesNothingHalfDone;
    if k > 0 {
      CleanPassesStayGuarded(cfg, n, rs, tags, k - 1);
      ServeNext(cfg, n, rs, k - 1);
      assert CleanAt(cfg, n, rs, k - 1);
      ServeIsSafeExactlyWhen(cfg, ServeAll(cfg, n, rs[..k - 1]), rs[k - 1], tags);
    }
  }

  /** The first request whose pass leaves an email half done. */
  lemma {:induction false} FirstUnclean(cfg: Config, n: Node, rs: seq<Request>, m: nat) returns (k: nat)
    requires m <= |rs| && exists i :: 0 <= i < m && !CleanAt(cfg, n, rs, i)
    ensures k < m && !CleanAt(cfg, n, rs, k) && forall i :: 0 <= i < k ==> CleanAt(cfg, n, rs, i)
  {
    hide CleanAt;
    if exists i :: 0 <= i < m - 1 && !CleanAt(cfg, n, rs, i) {
      k := FirstUnclean(cfg, n, rs, m - 1);
    } else {
      k := m - 1;
    }
  }

  /** Whatever fails, for any number of inbounds: a blocked email has a policy row and is absent from the
      runtime on each of its inbounds after every prefix of a run if and only if no pass of the run
      leaves an email half done. */
  lemma RunIsSafeExactlyWhen(cfg: Config, n: Node, rs: seq<Request>, tags: set<Tag>)
    requires Guarded(n.agent, tags) && forall i :: 0 <= i < |rs| ==> GoodSync(tags, rs[i])
    ensures (forall k :: 0 <= k <= |rs| ==> SafeAt(cfg, n, rs, k)) <==>
            (forall k :: 0 <= k < |rs| ==> CleanAt(cfg, n, rs, k))
  {
    hide GoodPolicies, Safe, GoodSync, Serve, ServeAll, LeavesNothingHalfDone;
    if forall k :: 0 <= k < |rs| ==> CleanAt(cfg, n, rs, k) {
      forall k | 0 <= k <= |rs| ensures SafeAt(cfg, n, rs, k) {
        CleanPassesStayGuarded(cfg, n, rs, tags, k);
      }
    } else {
      var k := FirstUnclean(cfg, n, rs, |rs|);
      CleanPassesStayGuarded(cfg, n, rs, tags, k);
      ServeNext(cfg, n, rs, k);
      ServeIsSafeExactlyWhen(cfg, ServeAll(cfg, n, rs[..k]), rs[k], tags);
      assert !SafeAt(cfg, n, rs, k + 1);
    }
  }

  lemma FreshAgentIsGuarded(ledger: Traffic.Ledger, users: seq<UserPolicy>, members: set<Member>, tags: set<Tag>)
    ensures Guarded(Quota.Agent([], map[], users, members), tags)
  {
  }

  // ---------------------------------------------------------------------------------------------
  // A poll that returns nil

  /** The state a successful poll hands from quota to expiry enforcement. */
  ghost function AfterCounting(n: Node, r: Request): Node
    requires r.Collect?
  {
    n.(ledger := Counters.CollectedAll(n.ledger, r.readings, r.now, r.counters).0)
  }

  ghost function PollSetting(cfg: Config, n: Node, r: Request): (s: Setting)
    requires r.Collect?
    ensures s.default > 0
  {
    SettingAt(cfg, AfterCounting(n, r).ledger, r.now, r.quota)
  }

  /** Whenever CollectOnce returns nil, each policy email is blocked exactly when its quota is enabled
      and its window usage has reached the quota; rows blocked by the poll are out of the runtime;
      rows unblocked by it are in the runtime unless a user-policy row bars them; and no barred
      member is in the runtime. */
  lemma NilPollDecides(cfg: Config, n: Node, r: Request, i: nat)
    requires r.Collect? && CollectStep(cfg, n, r).1 == Done
    requires UniqueKeys(n.agent.policies) && Uniform(n.agent.policies) && i < |n.agent.policies|
    ensures var a, b := n.agent, CollectStep(cfg, n, r).0.agent;
      var p, s := a.policies[i], PollSetting(cfg, n, r);
      && b.policies == a.policies
      && (Blocked(b.states, p.email) <==> OverQuota(p, s.usage(p.email), s.default))
      && (Blocked(b.states, p.email) && !Blocked(a.states, p.email) ==> KeyOf(p) !in b.members)
      && (!Blocked(b.states, p.email) && Blocked(a.states, p.email) ==>
            (KeyOf(p) in b.members <==> !Barred(a.users, KeyOf(p), r.now)))
  {
    var s, n1 := PollSetting(cfg, n, r), AfterCounting(n, r);
    NilPassDecides(n1.agent, s, i);
    var n2 := EnforceStep(cfg, n1, r.now, r.list, r.quota).0;
    NilExpiryRemovesExactlyBarred(n2.agent, r.now, r.expiry, KeyOf(n.agent.policies[i]));
  }

  lemma NilPollBarsNobodyServed(cfg: Config, n: Node, r: Request, m: Member)
    requires r.Collect? && CollectStep(cfg, n, r).1 == Done
    requires Barred(n.agent.users, m, r.now)
    ensures m !in CollectStep(cfg, n, r).0.agent.members
  {
    var n2 := EnforceStep(cfg, AfterCounting(n, r), r.now, r.list, r.quota).0;
    NilExpiryRemovesExactlyBarred(n2.agent, r.now, r.expiry, m);
  }

  /** The blocked count handed to the metrics is what QuotaStatus.BlockedUsers says afterwards. */
  lemma NilPollReportsStatus(cfg: Config, n: Node, r: Request)
    requires r.Collect? && CollectStep(cfg, n, r).1 == Done
    requires UniqueKeys(n.agent.policies) && Uniform(n.agent.policies)
    ensures Quota.Enforce(AfterCounting(n, r).agent, PollSetting(cfg, n, r)).blocked
         == BlockedPolicyEmails(CollectStep(cfg, n, r).0.agent)
  {
    NilPassReportsStatus(AfterCounting(n, r).agent, PollSetting(cfg, n, r));
  }

  // ---------------------------------------------------------------------------------------------
  // The traffic behind a decision

  /** The deltas one request commits. */
  function Committed(n: Node, r: Request): seq<Traffic.Delta> {
    if r.Collect? && !r.api then Counters.DeltasOf(n.ledger, r.readings, r.now, r.counters) else []
  }

  /** The deltas a run of requests commits, in order. */
  ghost function TrafficLog(cfg: Config, n: Node, rs: seq<Request>): seq<Traffic.Delta> {
    if rs == [] then []
    else TrafficLog(cfg, n, rs[..|rs| - 1]) + Committed(ServeAll(cfg, n, rs[..|rs| - 1]), rs[|rs| - 1])
  }

  lemma ServeChangesLedger(cfg: Config, n: Node, r: Request)
    ensures Serve(cfg, n, r).0.ledger == if r.Collect? && !r.api then AfterCounting(n, r).ledger else n.ledger
  {
    hide Quota.Enforce, Enforced, Expire;
  }

  /** The traffic tables of an agent that started with empty ones are those of the deltas its polls
      committed, whatever requests came in between and whichever calls failed. */
  lemma {:induction false} TablesReplayTraffic(cfg: Config, n: Node, rs: seq<Request>)
    requires n.ledger == Traffic.NEW_LEDGER
    ensures Counters.SameAggregates(ServeAll(cfg, n, rs).ledger,
      Traffic.Replay(Traffic.NEW_LEDGER, TrafficLog(cfg, n, rs)))
    ensures Traffic.NoNegative(TrafficLog(cfg, n, rs))
  {
    hide Serve, AfterCounting;
    if rs != [] {
      var m, r, log := ServeAll(cfg, n, rs[..|rs| - 1]), rs[|rs| - 1], TrafficLog(cfg, n, rs[..|rs| - 1]);
      TablesReplayTraffic(cfg, n, rs[..|rs| - 1]);
      ServeChangesLedger(cfg, m, r);
      RequestReplays(m, r, log);
    }
  }

  lemma RequestReplays(n: Node, r: Request, log: seq<Traffic.Delta>)
    requires Counters.SameAggregates(n.ledger, Traffic.Replay(Traffic.NEW_LEDGER, log)) && Traffic.NoNegative(log)
    ensures var after := if r.Collect? && !r.api then AfterCounting(n, r).ledger else n.ledger;
      && Counters.SameAggregates(after, Traffic.Replay(Traffic.NEW_LEDGER, log + Committed(n, r)))
      && Traffic.NoNegative(log + Committed(n, r))
  {
    if r.Collect? && !r.api {
      Counters.ReadingsExtendLog(n.ledger, r.readings, r.now, r.counters, Traffic.NEW_LEDGER, log);
    } else {
      assert log + [] == log;
    }
  }

  /** Every sync carries rows of one email that differ in the inbound only. */
  ghost predicate UniformSyncs(rs: seq<Request>) {
    forall i :: 0 <= i < |rs| && rs[i].QuotaSync? ==> Uniform(NormalizePolicies(rs[i].rows))
  }

  /** Keys are unique after every run, by the tables' primary key, and rows stay uniform. */
  lemma {:induction false} PoliciesStayUniform(cfg: Config, n: Node, rs: seq<Request>)
    requires UniqueKeys(n.agent.policies) && Uniform(n.agent.policies) && UniformSyncs(rs)
    ensures UniqueKeys(ServeAll(cfg, n, rs).agent.policies) && Uniform(ServeAll(cfg, n, rs).agent.policies)
  {
    hide Uniform, UniqueKeys, Serve;
    if rs != [] {
      var before := rs[..|rs| - 1];
      assert UniformSyncs(before);
      PoliciesStayUniform(cfg, n, before);
      ServeChangesPolicies(cfg, ServeAll(cfg, n, before), rs[|rs| - 1]);
    }
  }

  lemma ServeChangesPolicies(cfg: Config, n: Node, r: Request)
    ensures Serve(cfg, n, r).0.agent.policies ==
      if r.QuotaSync? && r.commit && UniqueKeys(NormalizePolicies(r.rows)) then NormalizePolicies(r.rows)
      else n.agent.policies
  {
    hide Quota.Enforce, UniqueKeys, NormalizePolicies;
  }

  /** Once now is more than the window past the last traffic an agent recorded since its tables were
      empty, a poll that returns nil leaves no policy email blocked. */
  lemma IdlePollUnblocksEverybody(cfg: Config, n: Node, rs: seq<Request>, r: Request)
    requires n.ledger == Traffic.NEW_LEDGER && UniqueKeys(n.agent.policies) && Uniform(n.agent.policies)
    requires UniformSyncs(rs) && r.Collect? && Serve(cfg, ServeAll(cfg, n, rs), r).1 == Done
    requires var log := TrafficLog(cfg, n, rs + [r]); forall i :: 0 <= i < |log| ==> log[i].ts < WindowStart(cfg, r.now)
    ensures BlockedPolicyEmails(ServeAll(cfg, n, rs + [r]).agent) == {}
  {
    hide Uniform, UniqueKeys;
    var m, s := ServeAll(cfg, n, rs), PollSetting(cfg, ServeAll(cfg, n, rs), r);
    PoliciesStayUniform(cfg, n, rs);
    LastPoll(cfg, n, rs, r);
    forall e ensures s.usage(e) == 0 {
      Traffic.IdleUsageIsZero(TrafficLog(cfg, n, rs + [r]), e, WindowStart(cfg, r.now), r.now);
    }
    IdleUnblocksEverybody(AfterCounting(m, r).agent, s);
    assert BlockedPolicyEmails(CollectStep(cfg, m, r).0.agent) ==
      BlockedPolicyEmails(Enforced(AfterCounting(m, r).agent, s));
  }

  lemma LastPoll(cfg: Config, n: Node, rs: seq<Request>, r: Request)
    requires n.ledger == Traffic.NEW_LEDGER && r.Collect? && Serve(cfg, ServeAll(cfg, n, rs), r).1 == Done
    ensures var log := TrafficLog(cfg, n, rs + [r]);
      && ServeAll(cfg, n, rs + [r]) == CollectStep(cfg, ServeAll(cfg, n, rs), r).0
      && AfterCounting(ServeAll(cfg, n, rs), r).ledger.daily == Traffic.Replay(Traffic.NEW_LEDGER, log).daily
      && Traffic.NoNegative(log)
  {
    assert (rs + [r])[..|rs + [r]| - 1] == rs;
    TablesReplayTraffic(cfg, n, rs + [r]);
    ServeChangesLedger(cfg, ServeAll(cfg, n, rs), r);
  }

  /** A poll that returns nil on tables that are those of a log. */
  lemma NilPollFollowsLog(cfg: Config, n: Node, r: Request, i: nat, log: seq<Traffic.Delta>)
    requires r.Collect? && CollectStep(cfg, n, r).1 == Done
    requires UniqueKeys(n.agent.policies) && Uniform(n.agent.policies) && i < |n.agent.policies|
    requires AfterCounting(n, r).ledger.daily == Traffic.Replay(Traffic.NEW_LEDGER, log).daily
    requires Traffic.NoNegative(log)
    ensures var p, start := n.agent.policies[i], WindowStart(cfg, r.now);
      var blocked := Blocked(CollectStep(cfg, n, r).0.agent.states, p.email);
      var quota := EffectiveQuota(p, DefaultQuota(cfg.quota));
      && (p.enabled && Traffic.StampedBytes(log, p.email, Traffic.Between(start + Traffic.DAY, r.now)) >= quota ==>
        blocked)
      && (Traffic.StampedBytes(log, p.email, Traffic.From(start)) < quota ==> !blocked)
  {
    hide CollectStep, Enforced, Traffic.Usage, Traffic.StampedBytes, Uniform, UniqueKeys, Traffic.Replay, Blocked;
    NilPollDecides(cfg, n, r, i);
    Traffic.UsageIsRollingWindow(log, n.agent.policies[i].email, WindowStart(cfg, r.now), r.now);
  }

  /** The block decision of a poll against the bytes an agent recorded since its tables were empty: a
      user with an enabled quota who moved that much since the start of the window less its first day
      is blocked, and a user who moved less since its start is not. */
  lemma NilPollFollowsTraffic(cfg: Config, n: Node, rs: seq<Request>, r: Request, i: nat)
    requires n.ledger == Traffic.NEW_LEDGER && UniqueKeys(n.agent.policies) && Uniform(n.agent.policies)
    requires UniformSyncs(rs) && r.Collect? && Serve(cfg, ServeAll(cfg, n, rs), r).1 == Done
    requires i < |ServeAll(cfg, n, rs).agent.policies|
    ensures var p, start := ServeAll(cfg, n, rs).agent.policies[i], WindowStart(cfg, r.now);
      var blocked := Blocked(ServeAll(cfg, n, rs + [r]).agent.states, p.email);
      var quota, log := EffectiveQuota(p, DefaultQuota(cfg.quota)), TrafficLog(cfg, n, rs + [r]);
      && (p.enabled && Traffic.StampedBytes(log, p.email, Traffic.Between(start + Traffic.DAY, r.now)) >= quota ==>
        blocked)
      && (Traffic.StampedBytes(log, p.email, Traffic.From(start)) < quota ==> !blocked)
  {
    hide CollectStep, Traffic.StampedBytes, Traffic.NoNegative, Traffic.Replay, Uniform, UniqueKeys, AfterCounting,
         Blocked, EffectiveQuota, TrafficLog;
    PoliciesStayUniform(cfg, n, rs);
    LastPoll(cfg, n, rs, r);
    NilPollFollowsLog(cfg, ServeAll(cfg, n, rs), r, i, TrafficLog(cfg, n, rs + [r]));
  }

  // ---------------------------------------------------------------------------------------------
  // What a request that succeeds achieves

  lemma {:induction false} ReaddReachesEveryRow(rows: seq<QuotaPolicy>, members: set<Member>, e: Email,
      faults: nat -> bool, n: nat, i: nat)
    requires i < n <= |rows| && ReaddRows(rows, members, e, faults, n).1
    requires rows[i].email == e && !Blank(rows[i].uuid)
    ensures Member(GatewayTag(rows[i].tag), e) in ReaddRows(rows, members, e, faults, n).0
  {
    if i < n - 1 {
      ReaddReachesEveryRow(rows, members, e, faults, n - 1, i);
    }
  }

  predicate Restorable(a: Quota.Agent, e: Email, now: int) {
    FirstUser(a.users, e).Some? &&
      Effective(FirstUser(a.users, e).value.enabled, FirstUser(a.users, e).value.expiry, now)
  }

  predicate UsableRow(a: Quota.Agent, e: Email, i: nat) {
    i < |a.policies| && a.policies[i].email == e && !Blank(a.policies[i].uuid)
  }

  /** A reset that succeeds clears the block, and an effectively enabled user is back on every inbound
      it has a usable policy row for. Nobody leaves, and nobody else's block or membership changes. */
  lemma ResetRestoresUser(a: Quota.Agent, r: Request, i: nat, m: Member)
    requires r.QuotaReset? && QuotaResetStep(a, r).1 == Done
    ensures var b, e := QuotaResetStep(a, r).0, Trim(r.email);
      && !Blocked(b.states, e)
      && (Restorable(a, e, r.now) && UsableRow(a, e, i) ==> Member(GatewayTag(a.policies[i].tag), e) in b.members)
      && (m.email != e ==>
        (m in b.members <==> m in a.members) && Blocked(b.states, m.email) == Blocked(a.states, m.email))
      && (m in a.members ==> m in b.members)
  {
    hide Trim, Effective;
    var e := Trim(r.email);
    ReaddOnlyAdds(a.policies, a.members, e, r.reset.runtime, |a.policies|, m);
    if Restorable(a, e, r.now) && UsableRow(a, e, i) {
      ReaddReachesEveryRow(a.policies, a.members, e, r.reset.runtime, |a.policies|, i);
    }
  }

  /** The user's first row says that it must not be served. */
  predicate NotInEffect(a: Quota.Agent, e: Email, now: int) {
    FirstUser(a.users, e).Some? &&
      !Effective(FirstUser(a.users, e).value.enabled, FirstUser(a.users, e).value.expiry, now)
  }

  predicate BlockedByPolicy(a: Quota.Agent, e: Email) {
    Blocked(a.states, e) && FirstPolicy(a.policies, e).Some? && FirstPolicy(a.policies, e).value.enabled
  }

  /** A runtime add that succeeds serves the user on that inbound and on no other, and never one that
      is still blocked or whose row is not in effect. When no call fails it is refused exactly for a
      blocked user with an enabled policy or a user whose row is not in effect. */
  lemma AddServesOrRefuses(a: Quota.Agent, r: Request)
    requires r.RuntimeAdd? && Trim(r.email) != "" && Trim(r.uuid) != ""
    ensures var (b, reply) := RuntimeAddStep(a, r); var e := Trim(r.email);
      && b.members == a.members + (if reply == Done then {Member(GatewayTag(Trim(r.tag)), e)} else {})
      && (reply == Done ==> !Blocked(b.states, e) && !NotInEffect(a, e, r.now))
      && (r.add == AddFaults(false, false, false, false, false) ==>
            reply == if BlockedByPolicy(a, e) || NotInEffect(a, e, r.now) then Conflict else Done)
  {
    hide Trim, Effective, FirstPolicy, FirstUser;
  }

  /** After a sync that succeeds only emails with a policy row can be blocked. */
  lemma SyncPrunes(cfg: Config, n: Node, r: Request, e: Email)
    requires r.QuotaSync? && QuotaSyncStep(cfg, n, r).1 == Done && Blocked(QuotaSyncStep(cfg, n, r).0.agent.states, e)
    ensures HasPolicy(NormalizePolicies(r.rows), e)
  {
    hide NormalizePolicies, EnforceRow;
    var rows := NormalizePolicies(r.rows);
    var a := WithPolicies(n.agent, rows);
    var s := SettingAt(cfg, n.ledger, r.now, r.quota);
    BlockedAfter(a, s, |rows|, e);
  }
}
