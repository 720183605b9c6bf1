/** The agent's stores, enforcers and handlers as the objects that change in place, each proved
    against its transition in Quota and Agent. */
module AgentServer {
  import opened Rows
  import opened Text
  import opened Sorting
  import opened Quota
  import opened Agent
  import Traffic
  import Counters

  /** Inserting the keys one after another never meets one that is already there. */
  predicate Insertable(keys: seq<Member>) {
    keys == [] || (Insertable(keys[..|keys| - 1]) && keys[|keys| - 1] !in keys[..|keys| - 1])
  }

  lemma {:induction false} InsertablePrefix(keys: seq<Member>, n: nat)
    requires n <= |keys| && Insertable(keys)
    ensures Insertable(keys[..n])
  {
    if n < |keys| {
      InsertablePrefix(keys[..|keys| - 1], n);
      assert keys[..|keys| - 1][..n] == keys[..n];
    } else {
      assert keys[..n] == keys;
    }
  }

  lemma {:induction false} InsertableIsDistinct(keys: seq<Member>)
    ensures Insertable(keys) <==> forall i, j :: 0 <= i < j < |keys| ==> keys[i] != keys[j]
  {
    if keys != [] {
      InsertableIsDistinct(keys[..|keys| - 1]);
    }
  }

  function PolicyKeys(rows: seq<QuotaPolicy>): seq<Member> {
    seq(|rows|, i requires 0 <= i < |rows| => KeyOf(rows[i]))
  }

  function UserKeys(rows: seq<UserPolicy>): seq<Member> {
    seq(|rows|, i requires 0 <= i < |rows| => UserKey(rows[i]))
  }

  lemma UniqueMeansInsertable(rows: seq<QuotaPolicy>)
    ensures UniqueKeys(rows) <==> Insertable(PolicyKeys(rows))
  {
    InsertableIsDistinct(PolicyKeys(rows));
    if UniqueKeys(rows) {
      forall i, j | 0 <= i < j < |rows| ensures PolicyKeys(rows)[i] != PolicyKeys(rows)[j] {
        assert KeyOf(rows[i]) != KeyOf(rows[j]);
      }
    }
    if Insertable(PolicyKeys(rows)) {
      forall i, j | 0 <= i < j < |rows| ensures KeyOf(rows[i]) != KeyOf(rows[j]) {
        assert PolicyKeys(rows)[i] != PolicyKeys(rows)[j];
      }
    }
  }

  lemma UniqueUsersMeansInsertable(rows: seq<UserPolicy>)
    ensures UniqueUserKeys(rows) <==> Insertable(UserKeys(rows))
  {
    InsertableIsDistinct(UserKeys(rows));
    if UniqueUserKeys(rows) {
      forall i, j | 0 <= i < j < |rows| ensures UserKeys(rows)[i] != UserKeys(rows)[j] {
        assert UserKey(rows[i]) != UserKey(rows[j]);
      }
    }
    if Insertable(UserKeys(rows)) {
      forall i, j | 0 <= i < j < |rows| ensures UserKey(rows[i]) != UserKey(rows[j]) {
        assert UserKeys(rows)[i] != UserKeys(rows)[j];
      }
    }
  }

  /** quota_policy, quota_state and user_policy. */
  class PolicyStore {
    var quotaPolicies: seq<QuotaPolicy>
    var quotaStates: map<Email, QuotaState>
    var userPolicies: seq<UserPolicy>

    /** Policy rows are stored with their emails trimmed. */
    ghost predicate Stored()
      reads this`quotaPolicies
    {
      forall i :: 0 <= i < |quotaPolicies| ==> Trim(quotaPolicies[i].email) == quotaPolicies[i].email
    }

    constructor ()
      ensures quotaPolicies == [] && quotaStates == map[] && userPolicies == [] && Stored()
    {
      quotaPolicies, quotaStates, userPolicies := [], map[], [];
    }

    /** INSERTs under a primary key: the first key that is already there fails the transaction. */
    static method CheckKeys(keys: seq<Member>) returns (ok: bool)
      ensures ok == Insertable(keys)
    {
      var inserted: set<Member> := {};
      for i := 0 to |keys|
        invariant inserted == set k | k in keys[..i]
        invariant Insertable(keys[..i])
      {
        assert keys[..i + 1][..i] == keys[..i] && keys[..i + 1][i] == keys[i];
        if keys[i] in inserted {
          if Insertable(keys) {
            InsertablePrefix(keys, i + 1);
          }
          return false;
        }
        inserted := inserted + {keys[i]};
      }
      assert keys[..|keys|] == keys;
      return true;
    }

    /** One transaction: a repeated (email, inbound) key or a failed commit changes nothing. */
    method ReplaceQuotaPolicies(users: seq<QuotaPolicy>, commit: bool) returns (ok: bool)
      requires Stored()
      modifies this`quotaPolicies, this`quotaStates
      ensures ok <==> commit && UniqueKeys(NormalizePolicies(users))
      ensures quotaPolicies == if ok then NormalizePolicies(users) else old(quotaPolicies)
      ensures quotaStates == if ok then Pruned(old(quotaStates), NormalizePolicies(users)) else old(quotaStates)
      ensures Stored()
    {
      hide Trim;
      var table: seq<QuotaPolicy> := [];
      var emails: seq<Email> := [];
      for i := 0 to |users|
        invariant table == NormalizePolicies(users[..i])
        invariant |emails| == i && forall j :: 0 <= j < i ==> emails[j] == table[j].email
        invariant quotaPolicies == old(quotaPolicies) && quotaStates == old(quotaStates)
      {
        var p := NormalizePolicy(users[i]);
        assert NormalizePolicies(users[..i + 1]) == table + [p];
        table, emails := table + [p], emails + [p.email];
      }
      assert users[..|users|] == users;
      UniqueMeansInsertable(table);
      var inserted := CheckKeys(PolicyKeys(table));
      if !inserted || !commit {
        return false;
      }
      assert forall e :: e in emails <==> HasPolicy(table, e);
      var states := quotaStates;
      quotaPolicies := table;
      quotaStates := map e | e in states && e in emails :: states[e];
      forall i | 0 <= i < |table| ensures Trim(table[i].email) == table[i].email {
        TrimIdempotent(users[i].email);
      }
      return true;
    }

    method ReplaceUserPolicies(users: seq<UserPolicy>, commit: bool) returns (ok: bool)
      modifies this`userPolicies
      ensures ok <==> commit && UniqueUserKeys(NormalizeUsers(users))
      ensures userPolicies == if ok then NormalizeUsers(users) else old(userPolicies)
    {
      var table: seq<UserPolicy> := [];
      for i := 0 to |users|
        invariant table == NormalizeUsers(users[..i])
        invariant userPolicies == old(userPolicies)
      {
        assert NormalizeUsers(users[..i + 1]) == table + [NormalizeUser(users[i])];
        table := table + [NormalizeUser(users[i])];
      }
      assert users[..|users|] == users;
      UniqueUsersMeansInsertable(table);
      var inserted := CheckKeys(UserKeys(table));
      if !inserted || !commit {
        return false;
      }
      userPolicies := table;
      return true;
    }

    method SetQuotaBlocked(email: Email, blocked: bool, at: Option<int>, fault: bool) returns (ok: bool)
      modifies this`quotaStates
      ensures ok == !fault
      ensures quotaStates == if fault then old(quotaStates)
                             else old(quotaStates)[Trim(email) := QuotaState(blocked, if blocked then at else None)]
    {
      if fault {
        return false;
      }
      quotaStates := quotaStates[Trim(email) := QuotaState(blocked, if blocked then at else None)];
      return true;
    }
  }

  /** runtimeGateway over the live Xray inbounds. */
  class Gateway {
    var members: set<Member>

    constructor (members: set<Member>)
      ensures this.members == members
    {
      this.members := members;
    }

    /** A user who is already present is not an error. */
    method AddUser(tag: Tag, email: Email, fault: bool) returns (ok: bool)
      modifies this
      ensures ok == !fault
      ensures members == if fault then old(members) else old(members) + {Member(GatewayTag(tag), email)}
    {
      var m := Member(GatewayTag(tag), email);
      match AddOutcome(members, m, fault)
      case Ok =>
        members := members + {m};
        ok := true;
      case AlreadyPresent => ok := true;
      case Missing => ok := false;
      case Other => ok := false;
    }

    method RemoveUser(tag: Tag, email: Email, fault: bool) returns (o: Outcome)
      modifies this
      ensures o == RemoveOutcome(old(members), Member(GatewayTag(tag), email), fault)
      ensures members == if fault then old(members) else old(members) - {Member(GatewayTag(tag), email)}
    {
      var m := Member(GatewayTag(tag), email);
      o := RemoveOutcome(members, m, fault);
      if o == Ok {
        members := members - {m};
      }
    }
  }

  class QuotaEnforcer {
    const store: PolicyStore
    const traffic: Traffic.TrafficStore
    const runtime: Gateway
    const cfg: Config

    constructor (store: PolicyStore, traffic: Traffic.TrafficStore, runtime: Gateway, cfg: Config)
      ensures this.store == store && this.traffic == traffic && this.runtime == runtime && this.cfg == cfg
    {
      this.store, this.traffic, this.runtime, this.cfg := store, traffic, runtime, cfg;
    }

    ghost function State(): Quota.Agent
      reads store, runtime
    {
      Quota.Agent(store.quotaPolicies, store.quotaStates, store.userPolicies, runtime.members)
    }

    method RuntimeAdd(p: QuotaPolicy, fault: bool) returns (ok: bool)
      modifies runtime
      ensures ok == AddSucceeds(p, fault)
      ensures runtime.members == if ok then old(runtime.members) + {KeyOf(p)} else old(runtime.members)
    {
      if Blank(p.tag) || Blank(p.email) || Blank(p.uuid) {
        return false;
      }
      ok := runtime.AddUser(p.tag, p.email, fault);
    }

    method RuntimeRemove(p: QuotaPolicy, fault: bool) returns (ok: bool)
      modifies runtime
      ensures ok == RemoveSucceeds(p, old(runtime.members), fault)
      ensures runtime.members == if ok then old(runtime.members) - {KeyOf(p)} else old(runtime.members)
    {
      if Blank(p.tag) || Blank(p.email) {
        return false;
      }
      var o := runtime.RemoveUser(p.tag, p.email, fault);
      return o == Ok;
    }

    /** The body of the enforcement loop for one policy row. */
    method EnforcePolicy(p: QuotaPolicy, isBlocked: bool, usage: int, now: int, f: RowFaults, ghost t: Pass)
      returns (blocks: bool, over80: bool, over95: bool, err: Option<Failure>)
      requires t.states == store.quotaStates && t.members == runtime.members && Trim(p.email) == p.email
      modifies store`quotaStates, runtime
      ensures var u := EnforceRow(t, p, isBlocked, usage, DefaultQuota(cfg.quota), now, f);
        && store.quotaStates == u.states && runtime.members == u.members
        && u.blocked == t.blocked + (if blocks then {p.email} else {})
        && u.over80 == t.over80 + (if over80 then {p.email} else {})
        && u.over95 == t.over95 + (if over95 then {p.email} else {})
        && u.err == if err.Some? then CombineFirst(t.err, err.value) else t.err
    {
      hide Trim;
      blocks, over80, over95, err := false, false, false, None;
      var quota := DefaultQuota(cfg.quota);
      if p.limit.Some? && p.limit.value > 0 {
        quota := p.limit.value;
      }
      if !p.enabled {
        if !isBlocked {
          return;
        }
        var added := RuntimeAdd(p, f.runtime);
        if !added {
          blocks, err := true, Some(AddFailed(p.email));
          return;
        }
        var cleared := store.SetQuotaBlocked(p.email, false, None, f.store);
        if !cleared {
          blocks, err := true, Some(ClearFailed(p.email));
        }
        return;
      }
      var ratio := usage as real / quota as real;
      over80, over95 := ratio >= 0.80, ratio >= 0.95;
      if isBlocked {
        if usage >= quota {
          blocks := true;
          return;
        }
        var added := RuntimeAdd(p, f.runtime);
        if !added {
          blocks, err := true, Some(AddFailed(p.email));
          return;
        }
        var cleared := store.SetQuotaBlocked(p.email, false, None, f.store);
        if !cleared {
          blocks, err := true, Some(ClearFailed(p.email));
        }
        return;
      }
      if usage < quota {
        return;
      }
      var removed := RuntimeRemove(p, f.runtime);
      if !removed {
        err := Some(RemoveFailed(p.email));
        return;
      }
      var persisted := store.SetQuotaBlocked(p.email, true, Some(now), f.store);
      if !persisted {
        err := Some(PersistFailed(p.email));
        return;
      }
      blocks := true;
    }

    /** Blocks users whose rolling-window usage meets their quota and unblocks those below it, and
        reports how many are blocked and in the two usage bands. */
    method Enforce(now: int, list: bool, faults: nat -> RowFaults)
      returns (ok: bool, blockedUsers: nat, over80: nat, over95: nat)
      requires store.Stored()
      modifies store`quotaStates, runtime
      ensures var n := Node(old(State()), old(traffic.Tables()));
        && EnforceStep(cfg, n, now, list, faults) == (Node(State(), old(traffic.Tables())), ok)
        && (!list ==> var t := Quota.Enforce(n.agent, SettingAt(cfg, n.ledger, now, faults));
              blockedUsers == |t.blocked| && over80 == |t.over80| && over95 == |t.over95|)
    {
      hide Trim, EnforceRow;
      if list {
        return false, 0, 0, 0;
      }
      ghost var s := SettingAt(cfg, traffic.Tables(), now, faults);
      ghost var a := State();
      var policies, states := store.quotaPolicies, store.quotaStates;
      var usage := traffic.ListUsageBetween(WindowStart(cfg, now), now);
      assert forall e :: Get(usage, e) == s.usage(e);
      var blockedEmails, over80Emails, over95Emails: set<Email> := {}, {}, {};
      var firstErr: Option<Failure> := None;
      for i := 0 to |policies|
        invariant store.quotaPolicies == policies && store.userPolicies == a.users
        invariant EnforceRows(a, s, i)
               == Pass(store.quotaStates, runtime.members, blockedEmails, over80Emails, over95Emails, firstErr)
      {
        var p := policies[i];
        var isBlocked := p.email in states && states[p.email].blocked;
        ghost var t := EnforceRows(a, s, i);
        var blocks, o80, o95, err := EnforcePolicy(p, isBlocked, Get(usage, p.email), now, faults(i), t);
        assert Get(usage, p.email) == s.usage(p.email);
        blockedEmails := blockedEmails + if blocks then {p.email} else {};
        over80Emails := over80Emails + if o80 then {p.email} else {};
        over95Emails := over95Emails + if o95 then {p.email} else {};
        if err.Some? {
          firstErr := CombineFirst(firstErr, err.value);
        }
      }
      return firstErr.None?, |blockedEmails|, |over80Emails|, |over95Emails|;
    }

    /** The first policy row and the inbounds of every selected email. */
    method FirstPolicies(filter: string) returns (first: map<Email, QuotaPolicy>, tags: map<Email, seq<Tag>>)
      ensures first.Keys == Selected(store.quotaPolicies, filter) && tags.Keys == first.Keys
      ensures forall e :: e in first ==> FirstPolicy(store.quotaPolicies, e) == Some(first[e])
      ensures forall e :: e in first ==> tags[e] == InboundsOf(store.quotaPolicies, e)
    {
      hide Blank;
      first, tags := map[], map[];
      for i := 0 to |store.quotaPolicies|
        invariant first.Keys == Selected(store.quotaPolicies[..i], filter) && tags.Keys == first.Keys
        invariant forall e :: e in first ==> FirstPolicy(store.quotaPolicies[..i], e) == Some(first[e])
        invariant forall e :: e in first ==> tags[e] == InboundsOf(store.quotaPolicies[..i], e)
      {
        var p := store.quotaPolicies[i];
        SelectedStep(store.quotaPolicies, i, filter);
        forall e ensures FirstPolicy(store.quotaPolicies[..i + 1], e) ==
                   if FirstPolicy(store.quotaPolicies[..i], e).Some? then FirstPolicy(store.quotaPolicies[..i], e)
                   else if p.email == e then Some(p) else None
        {
          FirstPolicyStep(store.quotaPolicies, i, e);
        }
        if filter != "" && p.email != filter {
          continue;
        }
        if p.email !in first {
          NoRowYet(store.quotaPolicies, i, p.email);
          first, tags := first[p.email := p], tags[p.email := []];
        }
        if !Blank(p.tag) {
          tags := tags[p.email := tags[p.email] + [p.tag]];
        }
      }
      assert store.quotaPolicies[..|store.quotaPolicies|] == store.quotaPolicies;
    }

    /** One row of the status. */
    method StatusRow(e: Email, p: QuotaPolicy, tags: seq<Tag>, usage: int, default: int) returns (row: UserStatus)
      requires FirstPolicy(store.quotaPolicies, e) == Some(p) && tags == InboundsOf(store.quotaPolicies, e)
      ensures row == StatusOf(State(), e, usage, default)
    {
      hide Trim, Blank, FirstPolicy, InboundsOf, Ordered, TrimmedSet;
      var st := if e in store.quotaStates then store.quotaStates[e] else QuotaState(false, None);
      var inbounds := UniqueStrings(tags);
      row := UserStatus(e, p.enabled, EffectiveQuota(p, default), usage, st.blocked, st.at, inbounds,
        !Blank(p.uuid) && |tags| > 0);
    }

    /** The rows of some emails, with the numbers of enabled and of blocked ones. */
    method StatusOfEmails(emails: seq<Email>, first: map<Email, QuotaPolicy>, tags: map<Email, seq<Tag>>,
        usage: map<Email, int>, default: int, ghost u: Email -> int)
      returns (rows: seq<UserStatus>, enabledUsers: nat, blockedUsers: nat)
      requires NoRepeats(emails) && (forall e :: e in emails <==> e in first) && tags.Keys == first.Keys
      requires forall e :: e in first ==> FirstPolicy(store.quotaPolicies, e) == Some(first[e])
      requires forall e :: e in first ==> tags[e] == InboundsOf(store.quotaPolicies, e)
      requires forall e :: Get(usage, e) == u(e)
      ensures StatusRows(rows, State(), emails, u, default)
      ensures blockedUsers == |set e | e in first.Keys && Blocked(State().states, e)|
      ensures enabledUsers == |set e | e in first.Keys && QuotaEnabled(State().policies, e)|
    {
      hide Trim, Blank, StatusOf, FirstPolicy, InboundsOf, StatusRows, Quota.Blocked, QuotaEnabled, Counted, NoRepeats,
           Get;
      ghost var a := State();
      rows, enabledUsers, blockedUsers := [], 0, 0;
      NoStatusRows(a, u, default);
      ghost var enabled := set e | e in first.Keys && QuotaEnabled(a.policies, e);
      ghost var blocked := set e | e in first.Keys && Blocked(a.states, e);
      NothingCounted(enabled);
      NothingCounted(blocked);
      for i := 0 to |emails|
        invariant StatusRows(rows, a, emails[..i], u, default)
        invariant enabledUsers == Counted(emails[..i], enabled) && blockedUsers == Counted(emails[..i], blocked)
      {
        var e := emails[i];
        CountedStep(emails, i, enabled);
        CountedStep(emails, i, blocked);
        var row := StatusRow(e, first[e], tags[e], Get(usage, e), default);
        StatusRowsGrow(rows, a, emails[..i], u, default, e);
        StatusIsDecided(a, e, u(e), default);
        rows := rows + [row];
        if row.enabled {
          enabledUsers := enabledUsers + 1;
        }
        if row.blocked {
          blockedUsers := blockedUsers + 1;
        }
      }
      AllCounted(emails, first.Keys, enabled);
      AllCounted(emails, first.Keys, blocked);
    }

    /** The policy emails in order with their usage and block, all of them or a single one, and how many
        have their quota enabled and how many are blocked. */
    method QuotaStatus(now: int, window: int, default: int, email: string)
      returns (rows: seq<UserStatus>, enabledUsers: nat, blockedUsers: nat)
      ensures var usage := UsageSince(traffic.Tables(), now - WindowOf(Config(window, default)), now);
        StatusRows(rows, State(), Ordered(Selected(State().policies, Trim(email))), usage, default)
      ensures blockedUsers == |set e | e in Selected(State().policies, Trim(email)) && Blocked(State().states, e)|
      ensures enabledUsers == |set e | e in Selected(State().policies, Trim(email)) &&
        QuotaEnabled(State().policies, e)|
      ensures Trim(email) == "" ==>
        blockedUsers == |BlockedPolicyEmails(State())| && enabledUsers == |EnabledPolicyEmails(State().policies)|
    {
      hide Trim, Blank, StatusOf, Ordered, FirstPolicy, InboundsOf, Selected, UsageSince, StatusRows, Quota.Blocked,
           QuotaEnabled, Counted, NoRepeats, PolicyEmails, BlockedPolicyEmails, EnabledPolicyEmails, WindowOf, Get;
      var start := now - WindowOf(Config(window, default));
      ghost var u := UsageSince(traffic.Tables(), start, now);
      var usage := traffic.ListUsageBetween(start, now);
      forall e ensures Get(usage, e) == u(e) {
        UsageIsListed(usage, traffic.Tables(), start, now, e);
      }
      var first, tags := FirstPolicies(Trim(email));
      var emails := SortSet(first.Keys);
      OrderedItems(first.Keys);
      rows, enabledUsers, blockedUsers := StatusOfEmails(emails, first, tags, usage, default, u);
      UnfilteredStatus(State());
    }
  }

  /** How many items of a list are in a set, each counted once. */
  ghost function Counted(l: seq<Email>, s: set<Email>): nat {
    |set x | x in l && x in s|
  }

  lemma NothingCounted(s: set<Email>)
    ensures Counted([], s) == 0
  {
    assert (set x | x in [] && x in s) == {};
  }

  lemma CountedStep(l: seq<Email>, i: nat, s: set<Email>)
    requires NoRepeats(l) && i < |l|
    ensures l[..i + 1] == l[..i] + [l[i]]
    ensures Counted(l[..i + 1], s) == Counted(l[..i], s) + if l[i] in s then 1 else 0
  {
    assert l[i] !in l[..i];
    assert (set x | x in l[..i + 1] && x in s) == (set x | x in l[..i] && x in s) + if l[i] in s then {l[i]} else {};
  }

  lemma AllCounted(l: seq<Email>, all: set<Email>, s: set<Email>)
    requires s <= all && forall x :: x in l <==> x in all
    ensures l[..|l|] == l && Counted(l, s) == |s|
  {
    assert (set x | x in l && x in s) == s;
  }

  ghost predicate StatusRows(rows: seq<UserStatus>, a: Quota.Agent, emails: seq<Email>, usage: Email -> int,
      default: int)
  {
    && |rows| == |emails|
    && forall i :: 0 <= i < |rows| ==>
         FirstPolicy(a.policies, emails[i]).Some? && rows[i] == StatusOf(a, emails[i], usage(emails[i]), default)
  }

  lemma NoStatusRows(a: Quota.Agent, usage: Email -> int, default: int)
    ensures StatusRows([], a, [], usage, default)
  {
  }

  lemma StatusRowsGrow(rows: seq<UserStatus>, a: Quota.Agent, emails: seq<Email>, usage: Email -> int, default: int,
      e: Email)
    requires StatusRows(rows, a, emails, usage, default) && FirstPolicy(a.policies, e).Some?
    ensures StatusRows(rows + [StatusOf(a, e, usage(e), default)], a, emails + [e], usage, default)
  {
    hide StatusOf, FirstPolicy;
  }

  lemma StatusIsDecided(a: Quota.Agent, e: Email, usage: int, default: int)
    requires FirstPolicy(a.policies, e).Some?
    ensures StatusOf(a, e, usage, default).enabled == QuotaEnabled(a.policies, e)
    ensures StatusOf(a, e, usage, default).blocked == Blocked(a.states, e)
  {
  }

  lemma UsageIsListed(usage: map<Email, int>, ledger: Traffic.Ledger, start: int, now: int, e: Email)
    requires Get(usage, e) == Traffic.Usage(ledger.daily, e, start, now)
    ensures Get(usage, e) == UsageSince(ledger, start, now)(e)
  {
  }

  /** One row of the status: blocked and at come from the state, the rest from the first policy row, the
      usage and the inbounds of the email. */
  datatype UserStatus = UserStatus(
    email: Email, enabled: bool, quota: int, usage: int, blocked: bool, at: Option<int>, inbounds: seq<Tag>,
    hasIdentity: bool)

  ghost function StatusOf(a: Quota.Agent, e: Email, usage: int, default: int): UserStatus
    requires FirstPolicy(a.policies, e).Some?
  {
    var p := FirstPolicy(a.policies, e).value;
    UserStatus(e, p.enabled, EffectiveQuota(p, default), usage, Blocked(a.states, e),
               if e in a.states then a.states[e].at else None, Ordered(TrimmedSet(InboundsOf(a.policies, e))),
               !Blank(p.uuid) && InboundsOf(a.policies, e) != [])
  }

  /** The policy emails a filter selects; an empty filter selects all. */
  function Selected(rows: seq<QuotaPolicy>, filter: string): set<Email> {
    set e | e in PolicyEmails(rows) && (filter == "" || e == filter)
  }

  predicate QuotaEnabled(rows: seq<QuotaPolicy>, e: Email) {
    FirstPolicy(rows, e).Some? && FirstPolicy(rows, e).value.enabled
  }

  /** The inbounds of an email, a row at a time. */
  function InboundsOf(rows: seq<QuotaPolicy>, e: Email): seq<Tag> {
    if rows == [] then []
    else
      var p := rows[|rows| - 1];
      InboundsOf(rows[..|rows| - 1], e) + if p.email == e && !Blank(p.tag) then [p.tag] else []
  }

  function TrimmedSet(l: seq<string>): set<string> {
    set x | x in l && !Blank(x) :: Trim(x)
  }

  /** uniqueStrings: trimmed, without repetition, in order. */
  method UniqueStrings(l: seq<string>) returns (out: seq<string>)
    ensures out == Ordered(TrimmedSet(l))
  {
    hide Trim, Blank;
    var seen: set<string> := {};
    for i := 0 to |l|
      invariant seen == TrimmedSet(l[..i])
    {
      assert l[..i + 1] == l[..i] + [l[i]];
      if Blank(l[i]) || Trim(l[i]) in seen {
        continue;
      }
      seen := seen + {Trim(l[i])};
    }
    assert l[..|l|] == l;
    out := SortSet(seen);
  }

  /** Without a filter the counters are those of all policy emails. */
  lemma UnfilteredStatus(a: Quota.Agent)
    ensures (set e | e in Selected(a.policies, "") && Blocked(a.states, e)) == BlockedPolicyEmails(a)
    ensures (set e | e in Selected(a.policies, "") && QuotaEnabled(a.policies, e)) == EnabledPolicyEmails(a.policies)
  {
  }

  lemma SelectedStep(rows: seq<QuotaPolicy>, i: nat, filter: string)
    requires i < |rows|
    ensures Selected(rows[..i + 1], filter) ==
      Selected(rows[..i], filter) + if filter == "" || rows[i].email == filter then {rows[i].email} else {}
    ensures forall e :: InboundsOf(rows[..i + 1], e) == InboundsOf(rows[..i], e) +
                          if rows[i].email == e && !Blank(rows[i].tag) then [rows[i].tag] else []
  {
    hide Blank;
    PolicyEmailsStep(rows, i);
    assert rows[..i + 1][..i] == rows[..i] && rows[..i + 1][i] == rows[i];
  }

  /** An email without a row so far has no inbounds either. */
  lemma {:induction false} NoRowYet(rows: seq<QuotaPolicy>, i: nat, e: Email)
    requires i <= |rows| && e !in PolicyEmails(rows[..i])
    ensures InboundsOf(rows[..i], e) == []
    ensures FirstPolicy(rows[..i], e).None?
  {
    hide Blank;
    FirstPolicyNone(rows[..i], e);
    if i > 0 {
      PolicyEmailsStep(rows, i - 1);
      NoRowYet(rows, i - 1, e);
      assert rows[..i][..i - 1] == rows[..i - 1] && rows[..i][i - 1] == rows[i - 1];
      assert rows[i - 1].email in PolicyEmails(rows[..i]);
    }
  }

  function EnabledPolicyEmails(rows: seq<QuotaPolicy>): set<Email> {
    set e | e in PolicyEmails(rows) && FirstPolicy(rows, e).Some? && FirstPolicy(rows, e).value.enabled
  }

  lemma PolicyEmailsStep(rows: seq<QuotaPolicy>, i: nat)
    requires i < |rows|
    ensures PolicyEmails(rows[..i + 1]) == PolicyEmails(rows[..i]) + {rows[i].email}
  {
    assert forall j :: 0 <= j < i ==> rows[..i + 1][j] == rows[..i][j];
  }

  lemma {:induction false} FirstPolicyStep(rows: seq<QuotaPolicy>, i: nat, e: Email)
    requires i < |rows|
    ensures FirstPolicy(rows[..i + 1], e) ==
      if FirstPolicy(rows[..i], e).Some? then FirstPolicy(rows[..i], e)
      else if rows[i].email == e then Some(rows[i]) else None
  {
    if i > 0 {
      FirstPolicyStep(rows[1..], i - 1, e);
      assert rows[..i + 1][1..] == rows[1..][..i] && rows[..i][1..] == rows[1..][..i - 1];
    } else {
      assert rows[..1] == [rows[0]];
    }
  }

  lemma {:induction false} FirstPolicyNone(rows: seq<QuotaPolicy>, e: Email)
    ensures FirstPolicy(rows, e).None? <==> e !in PolicyEmails(rows)
  {
    if rows != [] {
      FirstPolicyNone(rows[1..], e);
      assert PolicyEmails(rows) == {rows[0].email} + PolicyEmails(rows[1..]) by {
        assert forall j :: 0 <= j < |rows| - 1 ==> rows[1..][j] == rows[j + 1];
        assert forall j :: 0 < j < |rows| ==> rows[j] == rows[1..][j - 1];
      }
    }
  }

  class ExpiryEnforcer {
    const store: PolicyStore
    const runtime: Gateway

    constructor (store: PolicyStore, runtime: Gateway)
      ensures this.store == store && this.runtime == runtime
    {
      this.store, this.runtime := store, runtime;
    }

    method RuntimeRemove(u: UserPolicy, fault: bool) returns (ok: bool)
      modifies runtime
      ensures ok == ExpirySucceeds(u, fault)
      ensures runtime.members == if ok then old(runtime.members) - {UserKey(u)} else old(runtime.members)
    {
      if Blank(u.tag) || Blank(u.email) {
        return false;
      }
      var o := runtime.RemoveUser(u.tag, u.email, fault);
      return o == Ok || o == Missing;
    }

    /** Removes every disabled or expired user from its inbound. */
    method Enforce(now: int, list: bool, faults: nat -> bool) returns (ok: bool)
      modifies runtime
      ensures list ==> !ok && runtime.members == old(runtime.members)
      ensures !list ==>
        ExpireRows(store.userPolicies, old(runtime.members), now, faults, |store.userPolicies|) == (runtime.members, ok)
    {
      if list {
        return false;
      }
      var policies := store.userPolicies;
      var failed := false;
      for i := 0 to |policies|
        invariant ExpireRows(policies, old(runtime.members), now, faults, i) == (runtime.members, !failed)
      {
        var p := policies[i];
        if !(p.enabled && !Expired(p.expiry, now)) {
          var removed := RuntimeRemove(p, faults(i));
          if !removed {
            failed := true;
          }
        }
      }
      return !failed;
    }
  }

  /** The HTTP handlers that change state, and the collector's poll. */
  class Server {
    const store: PolicyStore
    const traffic: Traffic.TrafficStore
    const runtime: Gateway
    const quota: QuotaEnforcer
    const expiry: ExpiryEnforcer
    const collector: Counters.Collector
    const cfg: Config

    ghost predicate Wired() {
      && quota.store == store && quota.traffic == traffic && quota.runtime == runtime && quota.cfg == cfg
      && expiry.store == store && expiry.runtime == runtime
      && collector.store == traffic
    }

    ghost predicate Ready()
      reads store`quotaPolicies
    {
      Wired() && store.Stored()
    }

    constructor (members: set<Member>, cfg: Config)
      ensures Ready() && this.cfg == cfg
      ensures State() == Node(Quota.Agent([], map[], [], members), Traffic.NEW_LEDGER)
    {
      var policyStore := new PolicyStore();
      var trafficStore := new Traffic.TrafficStore();
      var gateway := new Gateway(members);
      store, traffic, runtime, this.cfg := policyStore, trafficStore, gateway, cfg;
      quota := new QuotaEnforcer(policyStore, trafficStore, gateway, cfg);
      expiry := new ExpiryEnforcer(policyStore, gateway);
      collector := new Counters.Collector(trafficStore);
    }

    ghost function State(): Node
      reads store, runtime, traffic
    {
      Node(Quota.Agent(store.quotaPolicies, store.quotaStates, store.userPolicies, runtime.members), traffic.Tables())
    }

    /** POST /quota/sync */
    method QuotaSync(r: Request) returns (reply: Reply)
      requires Ready() && r.QuotaSync?
      modifies store, runtime
      ensures Serve(cfg, old(State()), r) == (State(), reply)
      ensures Ready()
    {
      var replaced := store.ReplaceQuotaPolicies(r.rows, r.commit);
      if !replaced {
        return Failed;
      }
      var ok, _, _, _ := quota.Enforce(r.now, r.list, r.quota);
      return ReplyOf(ok);
    }

    /** POST /users/sync */
    method UserSync(r: Request) returns (reply: Reply)
      requires Ready() && r.UserSync?
      modifies store, runtime
      ensures Serve(cfg, old(State()), r) == (State(), reply)
      ensures Ready()
    {
      var replaced := store.ReplaceUserPolicies(r.users, r.commit);
      if !replaced {
        return Failed;
      }
      var ok := expiry.Enforce(r.now, r.list, r.expiry);
      return ReplyOf(ok);
    }

    /** POST /quota/reset */
    method QuotaReset(r: Request) returns (reply: Reply)
      requires Ready() && r.QuotaReset?
      modifies store, runtime
      ensures Serve(cfg, old(State()), r) == (State(), reply)
      ensures Ready()
    {
      hide Trim;
      TrimIdempotent(r.email);
      var e := Trim(r.email);
      if e == "" {
        return BadRequest;
      }
      var ok := store.SetQuotaBlocked(e, false, None, r.reset.store);
      if !ok || r.reset.lookup {
        return Failed;
      }
      var policies, u := store.quotaPolicies, FirstUser(store.userPolicies, e);
      if u.Some? && Effective(u.value.enabled, u.value.expiry, r.now) {
        for i := 0 to |policies|
          invariant State() == old(State()).(agent := old(State().agent).(
                      states := old(store.quotaStates)[e := QuotaState(false, None)], members := runtime.members))
          invariant ReaddRows(policies, old(runtime.members), e, r.reset.runtime, i) == (runtime.members, true)
        {
          if policies[i].email == e && !Blank(policies[i].uuid) {
            var added := runtime.AddUser(policies[i].tag, e, r.reset.runtime(i));
            if !added {
              ReaddStops(policies, old(runtime.members), e, r.reset.runtime, i + 1, |policies|);
              return Failed;
            }
          }
        }
      }
      return Done;
    }

    /** POST /runtime/user/add */
    method RuntimeAdd(r: Request) returns (reply: Reply)
      requires Ready() && r.RuntimeAdd?
      modifies store, runtime
      ensures Serve(cfg, old(State()), r) == (State(), reply)
      ensures Ready()
    {
      hide Trim;
      TrimIdempotent(r.email);
      var e := Trim(r.email);
      if e == "" || Trim(r.uuid) == "" {
        return BadRequest;
      }
      if r.add.state {
        return Failed;
      }
      if e in store.quotaStates && store.quotaStates[e].blocked {
        if r.add.policy {
          return Failed;
        }
        var policy := FirstPolicy(store.quotaPolicies, e);
        if policy.None? || !policy.value.enabled {
          var ok := store.SetQuotaBlocked(e, false, None, r.add.store);
          if !ok {
            return Failed;
          }
        } else {
          return Conflict;
        }
      }
      if r.add.user {
        return Failed;
      }
      var u := FirstUser(store.userPolicies, e);
      if u.Some? && !Effective(u.value.enabled, u.value.expiry, r.now) {
        return Conflict;
      }
      var added := runtime.AddUser(Trim(r.tag), e, r.add.runtime);
      return ReplyOf(added);
    }

    /** POST /runtime/user/remove: a user who is already absent is a success. */
    method RuntimeRemove(r: Request) returns (reply: Reply)
      requires Ready() && r.RuntimeRemove?
      modifies runtime
      ensures Serve(cfg, old(State()), r) == (State(), reply)
      ensures Ready()
    {
      var e := Trim(r.email);
      if e == "" {
        return BadRequest;
      }
      var o := runtime.RemoveUser(Trim(r.tag), e, r.fault);
      return ReplyOf(o == Ok || o == Missing);
    }

    /** CollectOnce. */
    method CollectOnce(r: Request) returns (reply: Reply)
      requires Ready() && r.Collect?
      modifies store, runtime, traffic
      ensures Serve(cfg, old(State()), r) == (State(), reply)
      ensures Ready()
    {
      hide Trim, Enforced, Quota.Enforce, Counters.CollectedAll, ExpireRows, UsageSince;
      if r.api {
        return Failed;
      }
      var counted := collector.CollectCounters(r.readings, r.now, r.counters);
      if !counted || r.meta {
        return Failed;
      }
      var enforced, _, _, _ := quota.Enforce(r.now, r.list, r.quota);
      if !enforced {
        return Failed;
      }
      var expired := expiry.Enforce(r.now, r.listUsers, r.expiry);
      return ReplyOf(expired);
    }
  }

  /** Once an add has failed the remaining rows change nothing. */
  lemma {:induction false} ReaddStops(rows: seq<QuotaPolicy>, members: set<Member>, e: Email, faults: nat -> bool,
      i: nat, n: nat)
    requires i <= n <= |rows| && !ReaddRows(rows, members, e, faults, i).1
    ensures ReaddRows(rows, members, e, faults, n) == ReaddRows(rows, members, e, faults, i)
  {
    if i < n {
      ReaddStops(rows, members, e, faults, i, n - 1);
    }
  }
}
