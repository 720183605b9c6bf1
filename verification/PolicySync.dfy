/** What the operator's machine sends to an agent: policy rows, and the users of a rendered
    configuration (internal/cli/runtime_helpers.go). */
module PolicySync {
  import opened Rows
  import opened Text
  import opened Quota
  import Agent
  import Profiles

  datatype LocalUser = LocalUser(
    username: string, email: Email, uuid: string, enabled: bool, expiry: Option<int>, quotaEnabled: bool,
    limit: Option<int>, quotaBlocked: bool, blockedAt: Option<int>)

  predicate Active(u: LocalUser, now: int) {
    Effective(u.enabled, u.expiry, now)
  }

  // ---------------------------------------------------------------------------------------------
  // Policy rows

  function RowsOf(u: LocalUser, tags: seq<Tag>): seq<QuotaPolicy> {
    seq(|tags|, i requires 0 <= i < |tags| => QuotaPolicy(u.email, u.uuid, tags[i], u.quotaEnabled, u.limit))
  }

  function RowsFor(users: seq<LocalUser>, tags: seq<Tag>, clock: nat -> int): seq<QuotaPolicy> {
    if users == [] then []
    else
      var i := |users| - 1;
      RowsFor(users[..i], tags, clock) + if Active(users[i], clock(i)) then RowsOf(users[i], tags) else []
  }

  /** The rows of /quota/sync: one per active user and inbound. */
  method QuotaRows(users: seq<LocalUser>, tags: seq<Tag>, clock: nat -> int) returns (rows: seq<QuotaPolicy>)
    ensures rows == RowsFor(users, tags, clock)
  {
    rows := [];
    for i := 0 to |users|
      invariant rows == RowsFor(users[..i], tags, clock)
    {
      assert users[..i + 1][..i] == users[..i];
      var u := users[i];
      if !Active(u, clock(i)) {
        continue;
      }
      ghost var before := rows;
      for j := 0 to |tags|
        invariant rows == before + RowsOf(u, tags)[..j]
      {
        rows := rows + [QuotaPolicy(u.email, u.uuid, tags[j], u.quotaEnabled, u.limit)];
      }
      assert RowsOf(u, tags)[..|tags|] == RowsOf(u, tags);
    }
    assert users[..|users|] == users;
  }

  /** Inbound tags are different and already in their stored form. */
  predicate GoodTags(tags: seq<Tag>) {
    && tags != []
    && (forall i :: 0 <= i < |tags| ==> !Blank(tags[i]) && Trim(tags[i]) == tags[i])
    && forall i, j :: 0 <= i < j < |tags| ==> tags[i] != tags[j]
  }

  /** What adding users guarantees: emails and UUIDs are there, and no two users share an email. */
  predicate GoodUsers(users: seq<LocalUser>) {
    && (forall i :: 0 <= i < |users| ==> !Blank(users[i].email) && !Blank(users[i].uuid))
    && forall i, j :: 0 <= i < j < |users| ==> Trim(users[i].email) != Trim(users[j].email)
  }

  function TagSet(tags: seq<Tag>): set<Tag> {
    set t | t in tags
  }

  function TagsOf(profiles: seq<Profiles.Profile>): seq<Tag> {
    seq(|profiles|, i requires 0 <= i < |profiles| => Profiles.InboundTag(profiles[i]))
  }

  lemma TagIsGood(p: Profiles.Profile, q: Profiles.Profile)
    ensures var t := Profiles.InboundTag(p);
      !Blank(t) && Trim(t) == t && (p != q ==> t != Profiles.InboundTag(q))
  {
    var t, u := Profiles.InboundTag(p), Profiles.InboundTag(q);
    assert t[0] == 'v' && !IsSpace(t[|t| - 1]);
    assert |"vless-reality"| == 13 && |"vless-xhttp-plain"| == 17 && |"vless-xhttp-vlessenc"| == 20;
    assert |"vless-tcp-tls-selfsni-web"| == 25;
    assert p != q ==> |t| != |u|;
  }

  /** The tags of a stored list of profiles are good. */
  lemma ProfileTagsAreGood(profiles: seq<Profiles.Profile>)
    requires profiles != [] && forall i, j :: 0 <= i < j < |profiles| ==> profiles[i] != profiles[j]
    ensures GoodTags(TagsOf(profiles))
  {
    hide Trim, Profiles.InboundTag;
    var l := TagsOf(profiles);
    forall i, j | 0 <= i < j < |l| ensures l[i] != l[j] {
      TagIsGood(profiles[i], profiles[j]);
    }
    forall i | 0 <= i < |l| ensures !Blank(l[i]) && Trim(l[i]) == l[i] {
      TagIsGood(profiles[i], profiles[i]);
    }
  }

  function Clean(u: LocalUser, tag: Tag): QuotaPolicy {
    QuotaPolicy(Trim(u.email), Trim(u.uuid), tag, u.quotaEnabled, u.limit)
  }

  /** The rows as the agent stores them. */
  function StoredRows(users: seq<LocalUser>, tags: seq<Tag>, clock: nat -> int): seq<QuotaPolicy> {
    Agent.NormalizePolicies(RowsFor(users, tags, clock))
  }

  lemma StoredStep(users: seq<LocalUser>, tags: seq<Tag>, clock: nat -> int)
    requires GoodTags(tags) && users != []
    ensures var n := |users| - 1;
      StoredRows(users, tags, clock) == StoredRows(users[..n], tags, clock) +
        if Active(users[n], clock(n)) then seq(|tags|, i requires 0 <= i < |tags| => Clean(users[n], tags[i])) else []
  {
    hide Trim;
  }

  predicate Origin(users: seq<LocalUser>, tags: seq<Tag>, clock: nat -> int, i: int, p: QuotaPolicy) {
    0 <= i < |users| && Active(users[i], clock(i)) && p.tag in tags && p == Clean(users[i], p.tag)
  }

  lemma {:induction false} StoredRowsOrigin(users: seq<LocalUser>, tags: seq<Tag>, clock: nat -> int, p: QuotaPolicy)
    requires GoodTags(tags)
    ensures p in StoredRows(users, tags, clock) <==> exists i :: Origin(users, tags, clock, i, p)
  {
    hide Trim, Active, GoodTags, StoredRows;
    if users == [] {
      NoRows(tags, clock);
    } else {
      var n := |users| - 1;
      StoredRowsOrigin(users[..n], tags, clock, p);
      StoredStep(users, tags, clock);
      var last := seq(|tags|, i requires 0 <= i < |tags| => Clean(users[n], tags[i]));
      if p.tag in tags && p == Clean(users[n], p.tag) {
        var k :| 0 <= k < |tags| && tags[k] == p.tag;
        assert last[k] == p;
      }
      if i :| Origin(users[..n], tags, clock, i, p) {
        assert Origin(users, tags, clock, i, p);
      }
      if Active(users[n], clock(n)) && p in last {
        assert Origin(users, tags, clock, n, p);
      }
      if i :| Origin(users, tags, clock, i, p) {
        assert i < n ==> Origin(users[..n], tags, clock, i, p);
      }
    }
  }

  lemma NoRows(tags: seq<Tag>, clock: nat -> int)
    ensures StoredRows([], tags, clock) == []
  {
  }

  lemma KeysStayUnique(a: seq<QuotaPolicy>, u: LocalUser, tags: seq<Tag>)
    requires UniqueKeys(a) && (forall p :: p in a ==> p.email != Trim(u.email)) && GoodTags(tags)
    ensures UniqueKeys(a + seq(|tags|, i requires 0 <= i < |tags| => Clean(u, tags[i])))
  {
    hide Trim;
    var b := seq(|tags|, i requires 0 <= i < |tags| => Clean(u, tags[i]));
    var l := a + b;
    forall i, j | 0 <= i < j < |l| ensures KeyOf(l[i]) != KeyOf(l[j]) {
      if i < |a| <= j {
        assert l[i] in a;
      }
    }
  }

  lemma {:induction false} StoredKeysAreUnique(users: seq<LocalUser>, tags: seq<Tag>, clock: nat -> int)
    requires GoodTags(tags) && GoodUsers(users)
    ensures UniqueKeys(StoredRows(users, tags, clock))
  {
    hide Trim, Active, GoodTags, StoredRows;
    if users == [] {
      NoRows(tags, clock);
    } else {
      var n := |users| - 1;
      StoredKeysAreUnique(users[..n], tags, clock);
      StoredStep(users, tags, clock);
      var a := StoredRows(users[..n], tags, clock);
      forall p | p in a ensures p.email != Trim(users[n].email) {
        StoredRowsOrigin(users[..n], tags, clock, p);
        var i :| Origin(users[..n], tags, clock, i, p);
        assert users[..n][i] == users[i];
      }
      KeysStayUnique(a, users[n], tags);
    }
  }

  lemma SameEmailSameUser(users: seq<LocalUser>, tags: seq<Tag>, clock: nat -> int, p: QuotaPolicy, q: QuotaPolicy)
    requires GoodTags(tags) && GoodUsers(users)
    requires p in StoredRows(users, tags, clock) && q in StoredRows(users, tags, clock) && p.email == q.email
    ensures p.(tag := "") == q.(tag := "")
  {
    hide Trim, Active, GoodTags, StoredRows;
    StoredRowsOrigin(users, tags, clock, p);
    StoredRowsOrigin(users, tags, clock, q);
    var i :| Origin(users, tags, clock, i, p);
    var j :| Origin(users, tags, clock, j, q);
    assert i == j;
  }

  /** The rows the operator sends always satisfy what safety over the agent's runs asks of a sync:
      one uniform row per inbound for every email. */
  lemma SyncedRowsAreGood(users: seq<LocalUser>, tags: seq<Tag>, clock: nat -> int)
    requires GoodTags(tags) && GoodUsers(users)
    ensures Agent.GoodPolicies(StoredRows(users, tags, clock), TagSet(tags))
  {
    hide Trim, Active, StoredRows;
    var rows := StoredRows(users, tags, clock);
    StoredKeysAreUnique(users, tags, clock);
    forall k | 0 <= k < |rows| ensures rows[k].tag in TagSet(tags) && Complete(rows[k]) {
      StoredRowsOrigin(users, tags, clock, rows[k]);
      var i :| Origin(users, tags, clock, i, rows[k]);
      TrimIdempotent(users[i].email);
    }
    forall i, j | 0 <= i < |rows| && 0 <= j < |rows| && rows[i].email == rows[j].email
      ensures rows[i].(tag := "") == rows[j].(tag := "")
    {
      SameEmailSameUser(users, tags, clock, rows[i], rows[j]);
    }
    forall k, t | 0 <= k < |rows| && t in TagSet(tags) ensures Agent.HasKey(rows, Member(t, rows[k].email)) {
      StoredRowsOrigin(users, tags, clock, rows[k]);
      var i :| Origin(users, tags, clock, i, rows[k]);
      var p := Clean(users[i], t);
      assert Origin(users, tags, clock, i, p);
      StoredRowsOrigin(users, tags, clock, p);
      var j :| 0 <= j < |rows| && rows[j] == p;
      assert KeyOf(rows[j]) == Member(t, rows[k].email);
    }
  }

  /** So a run of an agent whose every quota sync comes from the operator stays safe, for any number
      of inbounds when its runtime fails only with Missing, and whatever it answers when there is one. */
  lemma OperatedAgentStaysSafe(cfg: Agent.Config, n: Agent.Node, rs: seq<Agent.Request>, tags: seq<Tag>)
    requires GoodTags(tags) && Agent.Guarded(n.agent, TagSet(tags))
    requires forall i :: 0 <= i < |rs| ==> Operated(rs[i], tags)
    ensures Safe(Agent.ServeAll(cfg, n, rs).agent)
  {
    hide GoodTags, Agent.GoodPolicies, Safe, Agent.ServeAll;
    forall i | 0 <= i < |rs| ensures Agent.Admissible(TagSet(tags), rs[i]) {
      assert Operated(rs[i], tags);
      if rs[i].QuotaSync? {
        var users, clock :| GoodUsers(users) && rs[i].rows == RowsFor(users, tags, clock);
        SyncedRowsAreGood(users, tags, clock);
      }
    }
    Agent.RunStaysSafe(cfg, n, rs, TagSet(tags));
  }

  ghost predicate Operated(r: Agent.Request, tags: seq<Tag>) {
    && (r.QuotaSync? ==>
        && Agent.FaultsAllowed(TagSet(tags), r.quota)
        && exists users, clock :: GoodUsers(users) && r.rows == RowsFor(users, tags, clock))
    && (r.Collect? ==> Agent.FaultsAllowed(TagSet(tags), r.quota))
  }

  // ---------------------------------------------------------------------------------------------
  // The users of a rendered configuration

  /** The blocked emails in the agent's status, with the time of the block. */
  function Reported(a: Quota.Agent): map<Email, Option<int>> {
    map e | e in BlockedPolicyEmails(a) :: a.states[e].at
  }

  /** One user as it goes into the configuration, given the blocked emails in the agent's status. */
  function RuntimeUser(u: LocalUser, blocked: map<Email, Option<int>>, now: int): LocalUser {
    var on := Active(u, now) && u.email !in blocked;
    if u.email in blocked then u.(enabled := on, quotaBlocked := true, blockedAt := blocked[u.email])
    else u.(enabled := on)
  }

  /** usersForRuntimeConfig; before the first deploy there is no agent to ask and nobody is blocked. */
  method UsersForRuntimeConfig(users: seq<LocalUser>, blocked: map<Email, Option<int>>, clock: nat -> int)
    returns (out: seq<LocalUser>)
    ensures |out| == |users| && forall i :: 0 <= i < |users| ==> out[i] == RuntimeUser(users[i], blocked, clock(i))
  {
    out := [];
    for i := 0 to |users|
      invariant |out| == i && forall j :: 0 <= j < i ==> out[j] == RuntimeUser(users[j], blocked, clock(j))
    {
      var u := users[i];
      if !Active(u, clock(i)) {
        u := u.(enabled := false);
      }
      if u.email in blocked {
        u := u.(enabled := false, quotaBlocked := true, blockedAt := blocked[u.email]);
      }
      out := out + [u];
    }
  }

  /** Who is present on the inbounds after Xray started with the configuration. */
  function Started(users: seq<LocalUser>, services: seq<Email>, tags: seq<Tag>): set<Member> {
    (set t, i | t in tags && 0 <= i < |users| && users[i].enabled :: Member(t, users[i].email)) +
    (set t, e | t in tags && e in services :: Member(t, e))
  }

  /** Restarting Xray with the rendered configuration keeps a safe agent safe, and serves exactly the
      effectively enabled users that are not blocked. Emails are stored trimmed, as adding users does. */
  lemma DeployKeepsSafe(a: Quota.Agent, users: seq<LocalUser>, out: seq<LocalUser>, services: seq<Email>,
      tags: seq<Tag>, clock: nat -> int)
    requires Safe(a) && |out| == |users|
    requires forall i :: 0 <= i < |users| ==> out[i] == RuntimeUser(users[i], Reported(a), clock(i))
    requires forall e :: e in services ==> !Blocked(a.states, e)
    ensures Safe(a.(members := Started(out, services, tags)))
    ensures forall t, i ::
      t in tags && 0 <= i < |users| && Active(users[i], clock(i)) && !Blocked(a.states, users[i].email) ==>
      Member(t, users[i].email) in Started(out, services, tags)
  {
    hide Effective;
    var b := a.(members := Started(out, services, tags));
    forall e ensures SafeEmail(b, e) {
      assert SafeEmail(a, e);
      if Blocked(a.states, e) {
        assert e in BlockedPolicyEmails(a);
        forall t ensures Member(t, e) !in b.members {
        }
      }
    }
  }
}
